/**
 Routing of claimed introduction deliveries inside one text context. Many dispatch calls run at once: each registers a
 waiter, competes for one consumer gate, and hands what it claims to a waiter, to a recovery owner's buffer or to a
 refusal; every buffered delivery has an expiry goroutine. The context keeps where each of them stands and what each
 one-slot channel and local variable holds. This module is the state and what each step keeps of it; the steps
 themselves are in DispatchContext.
 */
module DispatchState {
  import opened Common

  type Delivery = nat

  datatype Key = Key(connection: nat, generation: nat)

  const MAXIMUM := 16

  /** Whatever can hold a claimed delivery: a waiter's channel, a local variable, a recovery owner's channel. */
  datatype Box = Channel(waiter: nat) | Local(call: nat) | Stray(call: nat) | Buffer(recovery: nat) | Expiring(timer: nat)

  /** Where a dispatch call stands. */
  datatype Stage =
    | Joining(timer: nat) | Waiting | Gated | Claiming | Claimed | Refusing | Leaving | Finishing | Returned | Over

  datatype Call = Call(want: Key, at: Stage)

  /** A recovery owner: the goroutine guarding its buffer and, once released, the goroutine its release waits for. */
  datatype Recovery = Recovery(connection: nat, generation: nat, timer: Option<nat>, joins: Option<nat>)

  datatype Phase = Armed | Completing | Ending | Ended

  datatype Timer = Timer(recovery: nat, delivery: Delivery, stopped: bool, phase: Phase)

  type Boxes = map<Box, Delivery>
  type Calls = map<nat, Call>
  type Recoveries = map<nat, Recovery>
  type Timers = map<nat, Timer>

  /** textIntroductionDeliveryMatches. */
  predicate Matches(key: Key, want: Key) {
    key.generation == want.generation && (want.generation == 1 || key.connection == want.connection)
  }

  // ---------- who owns what ----------

  /**
   Where each delivery is, all calls of Complete in order and the deliveries they were for, the deliveries given up,
   and whether a call ever failed.
   */
  datatype Ledger = Ledger(home: map<Delivery, Box>, log: seq<Delivery>, answers: set<Delivery>, dropped: set<Delivery>,
                           failed: bool)

  function Answered(l: Ledger, d: Delivery, ok: bool): Ledger {
    l.(home := l.home - {d}, log := l.log + [d], answers := l.answers + {d}, failed := l.failed || !ok)
  }

  /**
   Every claimed delivery is in exactly one box, or Complete was called for it, once, or it was given up; since `home`
   gives the box, no two boxes hold the same delivery.
   */
  ghost predicate Owned(boxes: Boxes, claimed: set<Delivery>, l: Ledger) {
    && (forall b <- boxes :: boxes[b] in l.home && l.home[boxes[b]] == b)
    && (forall d <- l.home :: l.home[d] in boxes && boxes[l.home[d]] == d)
    && claimed == l.home.Keys + l.answers + l.dropped
    && l.home.Keys !! l.answers !! l.dropped
    && NoRepeats(l.log) && (forall d :: d in l.answers <==> d in l.log)
  }

  function Moved(boxes: Boxes, a: Box, b: Box): Boxes
    requires a in boxes
  {
    (boxes - {a})[b := boxes[a]]
  }

  lemma MoveOwned(boxes: Boxes, claimed: set<Delivery>, l: Ledger, a: Box, b: Box)
    requires Owned(boxes, claimed, l) && a in boxes && b !in boxes
    ensures Owned(Moved(boxes, a, b), claimed, l.(home := l.home[boxes[a] := b]))
  {
  }

  /** Whoever holds a delivery is the first to call Complete for it. */
  lemma AnswerOwned(boxes: Boxes, claimed: set<Delivery>, l: Ledger, a: Box, ok: bool)
    requires Owned(boxes, claimed, l) && a in boxes
    ensures boxes[a] !in l.log && boxes[a] in claimed
    ensures Owned(boxes - {a}, claimed, Answered(l, boxes[a], ok))
    ensures Owned(boxes - {a}, claimed, l.(home := l.home - {boxes[a]}, dropped := l.dropped + {boxes[a]}))
  {
  }

  lemma TakeOwned(boxes: Boxes, claimed: set<Delivery>, l: Ledger, b: Box, d: Delivery, ok: bool)
    requires Owned(boxes, claimed, l) && b !in boxes && d !in claimed
    ensures Owned(boxes[b := d], claimed + {d}, l.(home := l.home[d := b]))
    ensures Owned(boxes, claimed + {d}, Answered(l, d, ok)) && d !in l.log
  {
    assert l.home - {d} == l.home;
  }

  // ---------- the choices of the code ----------

  /** bufferTextIntroductionRecoveryLocked: no goroutine is still at work for this owner, and there is time left. */
  predicate Buffers(owner: Option<nat>, recoveries: Recoveries, inTime: bool) {
    owner.Some? && owner.value in recoveries && recoveries[owner.value].timer.None? && inTime
  }

  /** A recovery owner is registered and asks for its present or its next generation. */
  predicate MayRecover(recovery: Option<nat>, want: Key, retained: set<nat>, recoveries: Recoveries) {
    && recovery.Some? && recovery.value in retained && recovery.value in recoveries
    && recoveries[recovery.value].generation <= want.generation <= recoveries[recovery.value].generation + 1
  }

  predicate Wanted(boxes: Boxes, keys: map<Delivery, Key>, r: nat, want: Key) {
    Buffer(r) in boxes && boxes[Buffer(r)] in keys && Matches(keys[boxes[Buffer(r)]], want)
  }

  /** selectTextIntroductionWaiterLocked may return this waiter. */
  predicate Selectable(w: nat, waiters: set<nat>, calls: Calls, boxes: Boxes, keys: map<Delivery, Key>, d: Delivery) {
    w in waiters && Channel(w) !in boxes && w in calls && d in keys && Matches(keys[d], calls[w].want)
  }

  /** selectTextIntroductionRecoveryLocked may return this owner. */
  predicate Recoverable(r: nat, retained: set<nat>, recoveries: Recoveries, boxes: Boxes, keys: map<Delivery, Key>, d: Delivery) {
    && r in retained && r in recoveries && Buffer(r) !in boxes && d in keys
    && keys[d].connection == recoveries[r].connection
    && recoveries[r].generation <= keys[d].generation <= recoveries[r].generation + 1
  }

  // ---------- one call, one recovery owner, one goroutine ----------

  predicate Holding(at: Stage) {
    at.Gated? || at.Claiming? || at.Claimed?
  }

  predicate Registered(at: Stage) {
    !at.Finishing? && !at.Returned? && !at.Over?
  }

  predicate Final(at: Stage) {
    at.Leaving? || at.Finishing? || at.Returned?
  }

  /** What the context knows about one dispatch call. */
  datatype CallView = CallView(call: Option<Call>, gated: bool, enrolled: bool, channel: Option<Delivery>,
                               local: Option<Delivery>, stray: Option<Delivery>)

  predicate Fits(d: Option<Delivery>, want: Key, keys: map<Delivery, Key>) {
    d.Some? ==> d.value in keys && Matches(keys[d.value], want)
  }

  /**
   A call is inside the gate exactly if it holds the token, has a waiter until it releases it, has local deliveries as
   its stage says, and is given and returns only what it asked for.
   */
  predicate CallOk(v: CallView, keys: map<Delivery, Key>) {
    match v.call
    case None => !v.gated && !v.enrolled && v.channel.None? && v.local.None? && v.stray.None?
    case Some(Call(want, at)) =>
      && (Holding(at) <==> v.gated)
      && (Registered(at) <==> v.enrolled)
      && (v.channel.Some? ==> v.enrolled)
      && Fits(v.channel, want, keys)
      && (at.Claimed? || at.Refusing? || at.Returned? ==> v.local.Some?)
      && (v.local.Some? ==> at.Claimed? || at.Refusing? || Final(at))
      && (Final(at) ==> Fits(v.local, want, keys))
      && (v.stray.Some? <==> at.Finishing?)
  }

  datatype RecoveryView = RecoveryView(recovery: Option<Recovery>, retained: bool, buffer: Option<Delivery>, guard: Option<Timer>)

  /**
   While the context lives, a delivery buffered for a registered recovery owner is guarded by its own armed goroutine,
   and a goroutine whose turn it still is finds its own delivery.
   */
  predicate RecoveryOk(r: nat, v: RecoveryView, ended: bool) {
    match v.recovery
    case None => !v.retained && v.buffer.None?
    case Some(recovery) =>
      && (v.retained ==> recovery.joins.None?)
      && (recovery.timer.Some? ==> v.retained && v.guard.Some? && v.guard.value.recovery == r)
      && (v.guard.Some? ==>
            match v.guard.value.phase
            case Armed => !v.guard.value.stopped && v.buffer == Some(v.guard.value.delivery)
            case Completing => v.buffer.None?
            case Ending => v.buffer.None? || ended
            case Ended => false)
      && (v.retained && v.buffer.Some? ==> recovery.timer.Some? || ended)
  }

  predicate TimerOk(timer: Option<Timer>, expiring: Option<Delivery>) {
    expiring == if timer.Some? && timer.value.phase.Completing? then Some(timer.value.delivery) else None
  }

  /**
   The context: who took the gate token, the dispatch calls, the registered waiters and recovery owners, all recovery
   owners and goroutines ever, what every box holds, the key read from each delivery, whether the lifetime ended.
   */
  datatype State = State(gate: Option<nat>, calls: Calls, waiters: set<nat>, retained: set<nat>, recoveries: Recoveries,
                         timers: Timers, boxes: Boxes, keys: map<Delivery, Key>, ended: bool)

  function At(s: State, b: Box): Option<Delivery> {
    if b in s.boxes then Some(s.boxes[b]) else None
  }

  function OfCall(s: State, c: nat): CallView {
    CallView(if c in s.calls then Some(s.calls[c]) else None, s.gate == Some(c), c in s.waiters,
             At(s, Channel(c)), At(s, Local(c)), At(s, Stray(c)))
  }

  function OfTimer(s: State, t: nat): Option<Timer> {
    if t in s.timers then Some(s.timers[t]) else None
  }

  function OfRecovery(s: State, r: nat): RecoveryView {
    RecoveryView(if r in s.recoveries then Some(s.recoveries[r]) else None, r in s.retained, At(s, Buffer(r)),
                 if r in s.recoveries && s.recoveries[r].timer.Some? then OfTimer(s, s.recoveries[r].timer.value) else None)
  }

  ghost predicate CallsOk(s: State) {
    forall c: nat :: CallOk(OfCall(s, c), s.keys)
  }

  ghost predicate RecoveriesOk(s: State) {
    forall r: nat :: RecoveryOk(r, OfRecovery(s, r), s.ended)
  }

  ghost predicate TimersOk(s: State) {
    forall t: nat :: TimerOk(OfTimer(s, t), At(s, Expiring(t)))
  }

  ghost predicate Ok(s: State) {
    CallsOk(s) && RecoveriesOk(s) && TimersOk(s) && |s.waiters| <= MAXIMUM && |s.retained| <= MAXIMUM
  }

  /** The other calls are not concerned. */
  lemma OnlyCall(s: State, n: State, c: nat)
    requires CallsOk(s) && CallOk(OfCall(n, c), n.keys)
    requires forall e: nat :: e != c ==> OfCall(n, e) == OfCall(s, e)
    requires forall d <- s.keys :: d in n.keys && n.keys[d] == s.keys[d]
    ensures CallsOk(n)
  {
    forall e: nat ensures CallOk(OfCall(n, e), n.keys) { assert CallOk(OfCall(s, e), s.keys); }
  }

  /** The other recovery owners are not concerned. */
  lemma OnlyRecovery(s: State, n: State, r: nat)
    requires RecoveriesOk(s) && RecoveryOk(r, OfRecovery(n, r), n.ended) && n.ended == s.ended
    requires forall e: nat :: e != r ==> OfRecovery(n, e) == OfRecovery(s, e)
    ensures RecoveriesOk(n)
  {
    forall e: nat ensures RecoveryOk(e, OfRecovery(n, e), n.ended) { assert RecoveryOk(e, OfRecovery(s, e), s.ended); }
  }

  /** Neither recovery owners nor goroutines are concerned. */
  lemma NoRecovery(s: State, n: State)
    requires RecoveriesOk(s) && TimersOk(s)
    requires n.recoveries == s.recoveries && n.retained == s.retained && n.timers == s.timers && n.ended == s.ended
    requires forall e: nat :: At(n, Buffer(e)) == At(s, Buffer(e)) && At(n, Expiring(e)) == At(s, Expiring(e))
    ensures RecoveriesOk(n) && TimersOk(n)
  {
    forall e: nat ensures RecoveryOk(e, OfRecovery(n, e), n.ended) { assert RecoveryOk(e, OfRecovery(s, e), s.ended); }
    forall e: nat ensures TimerOk(OfTimer(n, e), At(n, Expiring(e))) { assert TimerOk(OfTimer(s, e), At(s, Expiring(e))); }
  }

  function Staged(s: State, c: nat, at: Stage): State
    requires c in s.calls
  {
    s.(calls := s.calls[c := s.calls[c].(at := at)])
  }

  /** A call changes its stage only. */
  lemma StageStep(s: State, c: nat, at: Stage, gate: Option<nat>)
    requires Ok(s) && c in s.calls
    requires gate == s.gate || (gate == None && s.gate == Some(c)) || (gate == Some(c) && s.gate == None)
    requires CallOk(OfCall(Staged(s, c, at).(gate := gate), c), s.keys)
    ensures Ok(Staged(s, c, at).(gate := gate))
  {
    hide CallOk, RecoveryOk, TimerOk;
    var n := Staged(s, c, at).(gate := gate);
    OnlyCall(s, n, c);
    NoRecovery(s, n);
  }

  /** A call changes its stage and its own boxes. */
  lemma BoxStep(s: State, c: nat, at: Stage, gate: Option<nat>, boxes: Boxes)
    requires Ok(s) && c in s.calls
    requires gate == s.gate || (gate == None && s.gate == Some(c))
    requires forall b: Box | b != Channel(c) && b != Local(c) && b != Stray(c) ::
               (b in boxes <==> b in s.boxes) && (b in boxes ==> boxes[b] == s.boxes[b])
    requires CallOk(OfCall(Staged(s, c, at).(gate := gate, boxes := boxes), c), s.keys)
    ensures Ok(Staged(s, c, at).(gate := gate, boxes := boxes))
  {
    hide CallOk, RecoveryOk, TimerOk;
    var n := Staged(s, c, at).(gate := gate, boxes := boxes);
    OnlyCall(s, n, c);
    NoRecovery(s, n);
  }

  /** A call takes the delivery from its own channel. */
  lemma ReceiveStep(s: State, c: nat, gate: Option<nat>)
    requires Ok(s) && c in s.calls && (s.calls[c].at.Waiting? || s.calls[c].at.Gated?) && Channel(c) in s.boxes
    requires gate == if s.calls[c].at.Gated? then None else s.gate
    ensures Local(c) !in s.boxes && (s.calls[c].at.Gated? ==> s.gate == Some(c))
    ensures Ok(Staged(s, c, Leaving).(gate := gate, boxes := Moved(s.boxes, Channel(c), Local(c))))
  {
    hide RecoveryOk, TimerOk;
    var n := Staged(s, c, Leaving).(gate := gate, boxes := Moved(s.boxes, Channel(c), Local(c)));
    assert CallOk(OfCall(s, c), s.keys);
    assert At(s, Local(c)).None?;
    assert CallOk(OfCall(n, c), n.keys);
    hide CallOk;
    BoxStep(s, c, Leaving, gate, Moved(s.boxes, Channel(c), Local(c)));
  }

  /** A new delivery changes nothing for the known ones. */
  lemma KeyStep(s: State, d: Delivery, key: Key)
    requires Ok(s) && d !in s.keys
    ensures Ok(s.(keys := s.keys[d := key]))
  {
    var n := s.(keys := s.keys[d := key]);
    forall e: nat ensures CallOk(OfCall(n, e), n.keys) { assert CallOk(OfCall(s, e), s.keys); }
    hide CallOk;
    NoRecovery(s, n);
  }

  lemma GiveUpStep(s: State, c: nat)
    requires Ok(s) && c in s.calls && s.calls[c].at.Claiming?
    ensures s.gate == Some(c) && Ok(Staged(s, c, Leaving).(gate := None))
  {
    hide RecoveryOk, TimerOk;
    assert CallOk(OfCall(s, c), s.keys);
    assert CallOk(OfCall(Staged(s, c, Leaving).(gate := None), c), s.keys);
    hide CallOk;
    StageStep(s, c, Leaving, None);
  }

  lemma ClaimStep(s: State, c: nat, d: Delivery, key: Key)
    requires Ok(s) && c in s.calls && s.calls[c].at.Claiming? && d !in s.keys
    ensures Local(c) !in s.boxes && s.gate == Some(c)
    ensures Ok(Staged(s, c, Claimed).(boxes := s.boxes[Local(c) := d], keys := s.keys[d := key]))
    ensures Ok(Staged(s, c, Leaving).(gate := None, keys := s.keys[d := key]))
  {
    hide RecoveryOk, TimerOk;
    var n := Staged(s, c, Claimed).(boxes := s.boxes[Local(c) := d]);
    var m := Staged(s, c, Leaving).(gate := None);
    assert CallOk(OfCall(s, c), s.keys);
    assert At(s, Local(c)).None?;
    assert CallOk(OfCall(n, c), n.keys) && CallOk(OfCall(m, c), m.keys);
    hide CallOk;
    BoxStep(s, c, Claimed, s.gate, s.boxes[Local(c) := d]);
    assert n == Staged(s, c, Claimed).(gate := s.gate, boxes := s.boxes[Local(c) := d]);
    KeyStep(n, d, key);
    StageStep(s, c, Leaving, None);
    KeyStep(m, d, key);
  }

  /** A call is done with the delivery it holds. */
  lemma AnswerStep(s: State, c: nat, at: Stage)
    requires Ok(s) && c in s.calls
    requires (s.calls[c].at.Refusing? && (at.Waiting? || at.Leaving?)) || (s.calls[c].at.Returned? && at.Over?)
    ensures Local(c) in s.boxes && Ok(Staged(s, c, at).(boxes := s.boxes - {Local(c)}))
  {
    hide RecoveryOk, TimerOk;
    var n := Staged(s, c, at).(boxes := s.boxes - {Local(c)});
    assert CallOk(OfCall(s, c), s.keys);
    assert At(s, Local(c)).Some?;
    assert CallOk(OfCall(n, c), n.keys);
    hide CallOk;
    BoxStep(s, c, at, s.gate, s.boxes - {Local(c)});
    assert n == Staged(s, c, at).(gate := s.gate, boxes := s.boxes - {Local(c)});
  }

  lemma SettleStep(s: State, c: nat, given: bool)
    requires Ok(s) && c in s.calls && s.calls[c].at.Finishing? && (given ==> Local(c) in s.boxes)
    ensures Stray(c) in s.boxes
    ensures given ==> Ok(Staged(s, c, Returned).(boxes := s.boxes - {Stray(c)}))
    ensures !given ==> Ok(Staged(s, c, Over).(boxes := s.boxes - {Stray(c)} - {Local(c)}))
  {
    hide RecoveryOk, TimerOk;
    var at := if given then Returned else Over;
    var boxes := if given then s.boxes - {Stray(c)} else s.boxes - {Stray(c)} - {Local(c)};
    var n := Staged(s, c, at).(boxes := boxes);
    assert CallOk(OfCall(s, c), s.keys);
    assert At(s, Stray(c)).Some?;
    assert CallOk(OfCall(n, c), n.keys);
    hide CallOk;
    BoxStep(s, c, at, s.gate, boxes);
    assert n == Staged(s, c, at).(gate := s.gate, boxes := boxes);
  }

  /** A call gives up its waiter. */
  lemma LeaveStep(s: State, c: nat, at: Stage, boxes: Boxes)
    requires Ok(s) && c in s.calls && s.calls[c].at.Leaving? && !Registered(at)
    requires boxes == if Channel(c) in s.boxes then Moved(s.boxes, Channel(c), Stray(c)) else s.boxes
    requires at == if Channel(c) in s.boxes then Finishing else if Local(c) in s.boxes then Returned else Over
    ensures Stray(c) !in s.boxes && Ok(Staged(s, c, at).(waiters := s.waiters - {c}, boxes := boxes))
  {
    hide RecoveryOk, TimerOk;
    var n := Staged(s, c, at).(waiters := s.waiters - {c}, boxes := boxes);
    assert CallOk(OfCall(s, c), s.keys);
    assert At(s, Stray(c)).None?;
    assert CallOk(OfCall(n, c), n.keys);
    hide CallOk;
    OnlyCall(s, n, c);
    NoRecovery(s, n);
  }

  function Enrolled(s: State, c: nat, want: Key): State {
    s.(calls := s.calls[c := Call(want, Waiting)], waiters := s.waiters + {c})
  }

  lemma EnrolStep(s: State, c: nat, want: Key)
    requires Ok(s) && c !in s.calls && |s.waiters| < MAXIMUM
    ensures Ok(Enrolled(s, c, want))
  {
    hide RecoveryOk, TimerOk;
    var n := Enrolled(s, c, want);
    assert CallOk(OfCall(s, c), s.keys);
    assert CallOk(OfCall(n, c), n.keys);
    hide CallOk;
    OnlyCall(s, n, c);
    NoRecovery(s, n);
  }

  function Advanced(s: State, r: nat, generation: nat): State
    requires r in s.recoveries
  {
    s.(recoveries := s.recoveries[r := s.recoveries[r].(generation := generation)])
  }

  lemma AdvanceStep(s: State, r: nat, generation: nat)
    requires Ok(s) && r in s.recoveries
    ensures Ok(Advanced(s, r, generation))
  {
    hide CallOk, TimerOk;
    var n := Advanced(s, r, generation);
    assert RecoveryOk(r, OfRecovery(s, r), s.ended);
    OnlyRecovery(s, n, r);
    assert forall e: nat :: OfCall(n, e) == OfCall(s, e);
    assert CallsOk(n) && TimersOk(n);
  }

  /** The buffered delivery of a recovery owner goes to a waiter, and its goroutine is told to stop. */
  function TakenOver(s: State, c: nat, r: nat): State
    requires c in s.calls && r in s.recoveries && Buffer(r) in s.boxes
  {
    var t := s.recoveries[r].timer;
    var n := s.(boxes := Moved(s.boxes, Buffer(r), Channel(c)), recoveries := s.recoveries[r := s.recoveries[r].(timer := None)]);
    if t.Some? && t.value in s.timers
    then Staged(n.(timers := s.timers[t.value := s.timers[t.value].(stopped := true)]), c, Joining(t.value))
    else n
  }

  lemma TakeOverStep(s: State, c: nat, r: nat)
    requires Ok(s) && c in s.calls && s.calls[c].at.Waiting? && Channel(c) !in s.boxes
    requires r in s.retained && r in s.recoveries && Wanted(s.boxes, s.keys, r, s.calls[c].want)
    ensures Ok(TakenOver(s, c, r))
  {
    var n := TakenOver(s, c, r);
    assert CallsOk(n) by {
      hide RecoveryOk, TimerOk;
      assert CallOk(OfCall(s, c), s.keys);
      assert CallOk(OfCall(n, c), n.keys);
      hide CallOk;
      OnlyCall(s, n, c);
    }
    hide CallOk;
    forall e: nat ensures RecoveryOk(e, OfRecovery(n, e), n.ended) {
      assert RecoveryOk(e, OfRecovery(s, e), s.ended) && RecoveryOk(r, OfRecovery(s, r), s.ended);
    }
    forall e: nat ensures TimerOk(OfTimer(n, e), At(n, Expiring(e))) { assert TimerOk(OfTimer(s, e), At(s, Expiring(e))); }
  }

  /** A claimed delivery goes to another waiter. */
  lemma HandStep(s: State, c: nat, w: nat)
    requires Ok(s) && c in s.calls && s.calls[c].at.Claimed? && Local(c) in s.boxes && w != c
    requires Selectable(w, s.waiters, s.calls, s.boxes, s.keys, s.boxes[Local(c)])
    ensures Ok(Staged(s, c, Claiming).(boxes := Moved(s.boxes, Local(c), Channel(w))))
  {
    hide RecoveryOk, TimerOk;
    var n := Staged(s, c, Claiming).(boxes := Moved(s.boxes, Local(c), Channel(w)));
    forall e: nat ensures CallOk(OfCall(n, e), n.keys) { assert CallOk(OfCall(s, e), s.keys); }
    hide CallOk;
    NoRecovery(s, n);
  }

  /** A claimed delivery goes to a recovery owner's buffer under a new goroutine. */
  function Kept(s: State, c: nat, r: nat, t: nat): State
    requires c in s.calls && Local(c) in s.boxes && r in s.recoveries
  {
    Staged(s, c, Claiming).(boxes := Moved(s.boxes, Local(c), Buffer(r)),
                            recoveries := s.recoveries[r := s.recoveries[r].(timer := Some(t))],
                            timers := s.timers[t := Timer(r, s.boxes[Local(c)], false, Armed)])
  }

  lemma KeepStep(s: State, c: nat, r: nat, t: nat)
    requires Ok(s) && c in s.calls && s.calls[c].at.Claimed? && Local(c) in s.boxes && t !in s.timers
    requires Recoverable(r, s.retained, s.recoveries, s.boxes, s.keys, s.boxes[Local(c)]) && s.recoveries[r].timer.None?
    ensures Ok(Kept(s, c, r, t))
  {
    var n := Kept(s, c, r, t);
    assert CallsOk(n) by {
      hide RecoveryOk, TimerOk;
      assert CallOk(OfCall(s, c), s.keys);
      assert CallOk(OfCall(n, c), n.keys);
      hide CallOk;
      OnlyCall(s, n, c);
    }
    hide CallOk;
    forall e: nat ensures RecoveryOk(e, OfRecovery(n, e), n.ended) { assert RecoveryOk(e, OfRecovery(s, e), s.ended); }
    forall e: nat ensures TimerOk(OfTimer(n, e), At(n, Expiring(e))) { assert TimerOk(OfTimer(s, e), At(s, Expiring(e))); }
  }

  /** What becomes of the delivery in hand, and of the gate with it. */
  function Routed(s: State, c: nat, target: Option<nat>, owner: Option<nat>, inTime: bool, t: nat): State
    requires c in s.calls && Local(c) in s.boxes
  {
    if target == Some(c) then Staged(s, c, Leaving).(gate := None)
    else if target.Some? then Staged(s, c, Claiming).(boxes := Moved(s.boxes, Local(c), Channel(target.value)))
    else if Buffers(owner, s.recoveries, inTime) then Kept(s, c, owner.value, t)
    else Staged(s, c, Refusing).(gate := None)
  }

  lemma RouteStep(s: State, c: nat, target: Option<nat>, owner: Option<nat>, inTime: bool, t: nat)
    requires Ok(s) && c in s.calls && s.calls[c].at.Claimed? && Local(c) in s.boxes && t !in s.timers
    requires target.Some? ==> Selectable(target.value, s.waiters, s.calls, s.boxes, s.keys, s.boxes[Local(c)])
    requires owner.Some? ==> Recoverable(owner.value, s.retained, s.recoveries, s.boxes, s.keys, s.boxes[Local(c)])
    ensures s.gate == Some(c) && Ok(Routed(s, c, target, owner, inTime, t))
  {
    assert CallOk(OfCall(s, c), s.keys);
    if target.Some? && target.value != c {
      HandStep(s, c, target.value);
    } else if target.None? && Buffers(owner, s.recoveries, inTime) {
      KeepStep(s, c, owner.value, t);
    } else {
      StageStep(s, c, if target.Some? then Leaving else Refusing, None);
    }
  }

  // ---------- recovery owners and goroutines ----------

  lemma SameCalls(s: State, n: State)
    requires CallsOk(s) && n.gate == s.gate && n.calls == s.calls && n.waiters == s.waiters && n.keys == s.keys
    requires forall b: Box | b.Channel? || b.Local? || b.Stray? :: At(n, b) == At(s, b)
    ensures CallsOk(n)
  {
    forall e: nat ensures CallOk(OfCall(n, e), n.keys) { assert CallOk(OfCall(s, e), s.keys); }
  }

  lemma RetainStep(s: State, r: nat, connection: nat)
    requires Ok(s) && r !in s.recoveries && |s.retained| < MAXIMUM
    ensures Ok(s.(recoveries := s.recoveries[r := Recovery(connection, 2, None, None)], retained := s.retained + {r}))
  {
    hide CallOk, TimerOk;
    var n := s.(recoveries := s.recoveries[r := Recovery(connection, 2, None, None)], retained := s.retained + {r});
    SameCalls(s, n);
    assert RecoveryOk(r, OfRecovery(s, r), s.ended);
    OnlyRecovery(s, n, r);
    assert TimersOk(n);
  }

  function Phased(s: State, t: nat, phase: Phase): State
    requires t in s.timers
  {
    s.(timers := s.timers[t := s.timers[t].(phase := phase)])
  }

  predicate HasEnded(s: State, t: Option<nat>) {
    t.Some? ==> t.value in s.timers && s.timers[t.value].phase.Ended?
  }

  /** It is still this goroutine's turn. */
  predicate InTurn(s: State, t: nat) {
    && t in s.timers && s.timers[t].recovery in s.retained && s.timers[t].recovery in s.recoveries
    && s.recoveries[s.timers[t].recovery].timer == Some(t)
  }

  /** A goroutine whose turn it still is finds its own delivery and nothing else. */
  lemma FireStep(s: State, t: nat)
    requires Ok(s) && InTurn(s, t) && s.timers[t].phase.Armed?
    ensures var r := s.timers[t].recovery;
            && Buffer(r) in s.boxes && s.boxes[Buffer(r)] == s.timers[t].delivery && Expiring(t) !in s.boxes
            && Ok(Phased(s, t, Completing).(boxes := Moved(s.boxes, Buffer(r), Expiring(t))))
  {
    var r := s.timers[t].recovery;
    assert RecoveryOk(r, OfRecovery(s, r), s.ended);
    assert TimerOk(OfTimer(s, t), At(s, Expiring(t)));
    assert At(s, Buffer(r)).Some? && At(s, Expiring(t)).None?;
    var n := Phased(s, t, Completing).(boxes := Moved(s.boxes, Buffer(r), Expiring(t)));
    SameCalls(s, n);
    forall e: nat ensures RecoveryOk(e, OfRecovery(n, e), n.ended) { assert RecoveryOk(e, OfRecovery(s, e), s.ended); }
    forall e: nat ensures TimerOk(OfTimer(n, e), At(n, Expiring(e))) { assert TimerOk(OfTimer(s, e), At(s, Expiring(e))); }
  }

  /** A goroutine out of its turn, or told to stop, leaves everything as it is. */
  lemma StopStep(s: State, t: nat)
    requires Ok(s) && t in s.timers && s.timers[t].phase.Armed? && (InTurn(s, t) ==> s.timers[t].stopped || s.ended)
    ensures Ok(Phased(s, t, Ending))
  {
    var n := Phased(s, t, Ending);
    SameCalls(s, n);
    forall e: nat ensures RecoveryOk(e, OfRecovery(n, e), n.ended) { assert RecoveryOk(e, OfRecovery(s, e), s.ended); }
    forall e: nat ensures TimerOk(OfTimer(n, e), At(n, Expiring(e))) { assert TimerOk(OfTimer(s, e), At(s, Expiring(e))); }
  }

  lemma ExpireStep(s: State, t: nat)
    requires Ok(s) && t in s.timers && s.timers[t].phase.Completing?
    ensures Expiring(t) in s.boxes && Ok(Phased(s, t, Ending).(boxes := s.boxes - {Expiring(t)}))
  {
    assert TimerOk(OfTimer(s, t), At(s, Expiring(t)));
    var n := Phased(s, t, Ending).(boxes := s.boxes - {Expiring(t)});
    SameCalls(s, n);
    forall e: nat ensures RecoveryOk(e, OfRecovery(n, e), n.ended) { assert RecoveryOk(e, OfRecovery(s, e), s.ended); }
    forall e: nat ensures TimerOk(OfTimer(n, e), At(n, Expiring(e))) { assert TimerOk(OfTimer(s, e), At(s, Expiring(e))); }
  }

  /** The deferred end of a goroutine. */
  function Closed(s: State, t: nat): State
    requires t in s.timers
  {
    var r := s.timers[t].recovery;
    if InTurn(s, t) then Phased(s, t, Ended).(recoveries := s.recoveries[r := s.recoveries[r].(timer := None)])
    else Phased(s, t, Ended)
  }

  lemma CloseStep(s: State, t: nat)
    requires Ok(s) && t in s.timers && s.timers[t].phase.Ending?
    ensures Ok(Closed(s, t))
  {
    hide CallOk;
    var n := Closed(s, t);
    SameCalls(s, n);
    assert RecoveryOk(s.timers[t].recovery, OfRecovery(s, s.timers[t].recovery), s.ended);
    forall e: nat ensures RecoveryOk(e, OfRecovery(n, e), n.ended) { assert RecoveryOk(e, OfRecovery(s, e), s.ended); }
    forall e: nat ensures TimerOk(OfTimer(n, e), At(n, Expiring(e))) { assert TimerOk(OfTimer(s, e), At(s, Expiring(e))); }
  }

  /** A recovery owner is released: it leaves the registry and its goroutine is told to stop. */
  function Retired(s: State, r: nat): State
    requires r in s.recoveries
  {
    var t := s.recoveries[r].timer;
    s.(retained := s.retained - {r}, recoveries := s.recoveries[r := s.recoveries[r].(timer := None, joins := t)],
       timers := if t.Some? && t.value in s.timers then s.timers[t.value := s.timers[t.value].(stopped := true)] else s.timers)
  }

  lemma RetireStep(s: State, r: nat)
    requires Ok(s) && r in s.retained && r in s.recoveries
    ensures Ok(Retired(s, r))
  {
    var n := Retired(s, r);
    SameCalls(s, n);
    forall e: nat ensures RecoveryOk(e, OfRecovery(n, e), n.ended) {
      assert RecoveryOk(e, OfRecovery(s, e), s.ended) && RecoveryOk(r, OfRecovery(s, r), s.ended);
    }
    forall e: nat ensures TimerOk(OfTimer(n, e), At(n, Expiring(e))) { assert TimerOk(OfTimer(s, e), At(s, Expiring(e))); }
  }

  lemma DrainStep(s: State, r: nat)
    requires Ok(s) && r !in s.retained && Buffer(r) in s.boxes
    ensures Ok(s.(boxes := s.boxes - {Buffer(r)}))
  {
    var n := s.(boxes := s.boxes - {Buffer(r)});
    SameCalls(s, n);
    forall e: nat ensures RecoveryOk(e, OfRecovery(n, e), n.ended) { assert RecoveryOk(e, OfRecovery(s, e), s.ended); }
    forall e: nat ensures TimerOk(OfTimer(n, e), At(n, Expiring(e))) { assert TimerOk(OfTimer(s, e), At(s, Expiring(e))); }
  }

  lemma EndStep(s: State)
    requires Ok(s)
    ensures Ok(s.(ended := true))
  {
    var n := s.(ended := true);
    SameCalls(s, n);
    forall e: nat ensures RecoveryOk(e, OfRecovery(n, e), n.ended) { assert RecoveryOk(e, OfRecovery(s, e), s.ended); }
    forall e: nat ensures TimerOk(OfTimer(n, e), At(n, Expiring(e))) { assert TimerOk(OfTimer(s, e), At(s, Expiring(e))); }
  }

  lemma EmptyChannel(s: State, c: nat)
    requires Ok(s) && c !in s.calls
    ensures Channel(c) !in s.boxes
  {
    assert CallOk(OfCall(s, c), s.keys);
    assert At(s, Channel(c)).None?;
  }

  // ---------- what the invariant means ----------

  /** A claimed delivery is in one box and no other, unless Complete was called for it or it was given up. */
  lemma OneOwner(s: State, l: Ledger, d: Delivery)
    requires Owned(s.boxes, s.keys.Keys, l) && d in s.keys
    ensures (exists b <- s.boxes :: s.boxes[b] == d) <==> d !in l.answers && d !in l.dropped
    ensures forall a <- s.boxes, b <- s.boxes :: s.boxes[a] == d && s.boxes[b] == d ==> a == b
    ensures d in l.answers ==> d !in l.dropped
  {
    if d !in l.answers && d !in l.dropped { assert l.home[d] in s.boxes; }
  }

  /** What a call returns is of the generation asked for and, beyond the first, of the connection asked for. */
  lemma ReturnedIsWanted(s: State, c: nat)
    requires Ok(s) && c in s.calls && s.calls[c].at.Returned?
    ensures Local(c) in s.boxes && s.boxes[Local(c)] in s.keys
    ensures Matches(s.keys[s.boxes[Local(c)]], s.calls[c].want)
  {
    assert CallOk(OfCall(s, c), s.keys);
    assert At(s, Local(c)).Some?;
  }

  /** At most one call is inside the gate, and it holds the token. */
  lemma OneConsumer(s: State, a: nat, b: nat)
    requires Ok(s) && a in s.calls && b in s.calls && Holding(s.calls[a].at) && Holding(s.calls[b].at)
    ensures a == b && s.gate == Some(a)
  {
    assert CallOk(OfCall(s, a), s.keys) && CallOk(OfCall(s, b), s.keys);
  }

  /** Nobody has anything left to do: every call and goroutine is over, and every release has emptied its buffer. */
  predicate Idle(s: State) {
    && (forall c <- s.calls :: s.calls[c].at.Over?)
    && (forall t <- s.timers :: s.timers[t].phase.Ended?)
    && (forall r <- s.recoveries :: r !in s.retained ==> Buffer(r) !in s.boxes)
  }

  /** Then no box holds anything; a retained owner's buffer is empty because a goroutine would still be guarding it. */
  lemma IdleIsEmpty(s: State, b: Box)
    requires Ok(s) && Idle(s) && !s.ended
    ensures At(s, b).None?
  {
    match b
    case Channel(c) => assert CallOk(OfCall(s, c), s.keys);
    case Local(c) => assert CallOk(OfCall(s, c), s.keys);
    case Stray(c) => assert CallOk(OfCall(s, c), s.keys);
    case Buffer(r) => assert RecoveryOk(r, OfRecovery(s, r), s.ended);
    case Expiring(t) => assert TimerOk(OfTimer(s, t), At(s, Expiring(t)));
  }

  /** When all is done, every claimed delivery was answered, unless the lifetime ended or a completion failed. */
  lemma AllAnswered(s: State, l: Ledger)
    requires Ok(s) && Owned(s.boxes, s.keys.Keys, l) && (l.dropped != {} ==> s.ended || l.failed)
    requires Idle(s) && !s.ended && !l.failed
    ensures l.answers == s.keys.Keys
  {
    forall b: Box ensures b !in s.boxes { IdleIsEmpty(s, b); }
    assert forall d :: d !in l.home;
    assert l.home.Keys == {};
  }
}
