/**
 Where a claimed delivery does go. Connections and generations are written out here: a delivery is for a waiter of its
 generation and, beyond the first, of its connection, and for a recovery owner of its connection that is at its
 generation or one below.
 */
module DispatchProgress {
  import opened Common
  import opened DispatchState
  import opened DispatchContext

  /** A registered waiter with an empty channel asks for the delivery. */
  predicate Asks(s: State, w: nat, key: Key) {
    && w in s.waiters && w in s.calls && Channel(w) !in s.boxes
    && s.calls[w].want.generation == key.generation
    && (key.generation > 1 ==> s.calls[w].want.connection == key.connection)
  }

  /** A registered recovery owner with an empty buffer is due for the delivery. */
  predicate Due(s: State, r: nat, key: Key) {
    && r in s.retained && r in s.recoveries && Buffer(r) !in s.boxes
    && s.recoveries[r].connection == key.connection
    && (key.generation == s.recoveries[r].generation || key.generation == s.recoveries[r].generation + 1)
  }

  predicate NobodyAsks(s: State, key: Key) {
    forall w <- s.waiters :: !Asks(s, w, key)
  }

  predicate NobodyDue(s: State, key: Key) {
    forall r <- s.retained :: !Due(s, r, key)
  }

  lemma AsksIsSelectable(s: State, w: nat, d: Delivery)
    requires d in s.keys && s.keys[d].generation > 0
    ensures Asks(s, w, s.keys[d]) <==> Selectable(w, s.waiters, s.calls, s.boxes, s.keys, d)
  {
  }

  lemma DueIsRecoverable(s: State, r: nat, d: Delivery)
    requires d in s.keys
    ensures Due(s, r, s.keys[d]) <==> Recoverable(r, s.retained, s.recoveries, s.boxes, s.keys, d)
  {
  }

  /** The consumer has a delivery in hand, of a generation that exists, and the selections may have found these. */
  predicate InHand(s: State, c: nat, target: Option<nat>, owner: Option<nat>, t: nat) {
    && Stands(s, c, Claimed) && t !in s.timers && Selected(s, c, target, owner)
    && Local(c) in s.boxes && s.boxes[Local(c)] in s.keys && s.keys[s.boxes[Local(c)]].generation > 0
  }

  lemma RoutedToWaiter(s: State, c: nat, target: Option<nat>, owner: Option<nat>, inTime: bool, t: nat, w: nat)
    requires InHand(s, c, target, owner, t) && Asks(s, w, s.keys[s.boxes[Local(c)]])
    ensures target.Some? && Asks(s, target.value, s.keys[s.boxes[Local(c)]])
    ensures var n, d := Routed(s, c, target, owner, inTime, t), s.boxes[Local(c)];
            if target.value == c
            then Stands(n, c, Leaving) && Local(c) in n.boxes && n.boxes[Local(c)] == d && n.gate.None?
            else Channel(target.value) in n.boxes && n.boxes[Channel(target.value)] == d
                 && Stands(n, c, Claiming) && n.gate == s.gate
  {
    AsksIsSelectable(s, w, s.boxes[Local(c)]);
    if target.Some? { AsksIsSelectable(s, target.value, s.boxes[Local(c)]); }
  }

  lemma NobodyAsked(s: State, c: nat, target: Option<nat>, owner: Option<nat>, t: nat)
    requires InHand(s, c, target, owner, t)
    requires NobodyAsks(s, s.keys[s.boxes[Local(c)]])
    ensures target.None?
  {
    if target.Some? { AsksIsSelectable(s, target.value, s.boxes[Local(c)]); }
  }

  lemma RoutedToOwner(s: State, c: nat, target: Option<nat>, owner: Option<nat>, t: nat, r: nat)
    requires InHand(s, c, target, owner, t)
    requires NobodyAsks(s, s.keys[s.boxes[Local(c)]])
    requires Due(s, r, s.keys[s.boxes[Local(c)]])
    requires forall q <- s.retained :: Due(s, q, s.keys[s.boxes[Local(c)]]) ==> s.recoveries[q].timer.None?
    ensures owner.Some? && Due(s, owner.value, s.keys[s.boxes[Local(c)]])
    ensures var n := Routed(s, c, target, owner, true, t);
            && Buffer(owner.value) in n.boxes && n.boxes[Buffer(owner.value)] == s.boxes[Local(c)]
            && n.gate == s.gate && Stands(n, c, Claiming)
  {
    NobodyAsked(s, c, target, owner, t);
    DueIsRecoverable(s, r, s.boxes[Local(c)]);
    if owner.Some? { DueIsRecoverable(s, owner.value, s.boxes[Local(c)]); }
  }

  lemma RoutedAway(s: State, c: nat, target: Option<nat>, owner: Option<nat>, inTime: bool, t: nat)
    requires InHand(s, c, target, owner, t)
    requires NobodyAsks(s, s.keys[s.boxes[Local(c)]])
    requires || !inTime || NobodyDue(s, s.keys[s.boxes[Local(c)]])
             || (owner.Some? && owner.value in s.recoveries && s.recoveries[owner.value].timer.Some?)
    ensures var n := Routed(s, c, target, owner, inTime, t);
            Stands(n, c, Refusing) && n.gate.None? && n.boxes == s.boxes
  {
    NobodyAsked(s, c, target, owner, t);
    if owner.Some? { DueIsRecoverable(s, owner.value, s.boxes[Local(c)]); }
  }

  /** If some waiter asks for the delivery in hand, one that does gets it, or the consumer itself leaves with it. */
  method RoutesToWaiter(context: Context, c: nat, target: Option<nat>, owner: Option<nat>, inTime: bool, t: nat, w: nat)
    requires context.Valid() && InHand(context.state, c, target, owner, t)
    requires Asks(context.state, w, context.state.keys[context.state.boxes[Local(c)]])
    modifies context
    ensures context.Valid() && target.Some? && var d := old(context.state).boxes[Local(c)];
            && Asks(old(context.state), target.value, old(context.state).keys[d])
            && if target.value == c
               then Stands(context.state, c, Leaving) && Local(c) in context.state.boxes
                    && context.state.boxes[Local(c)] == d && context.state.gate.None?
               else Channel(target.value) in context.state.boxes && context.state.boxes[Channel(target.value)] == d
                    && Stands(context.state, c, Claiming) && context.state.gate == Some(c)
  {
    RoutedToWaiter(context.state, c, target, owner, inTime, t, w);
    hide Ok, Owned, Selectable, Recoverable, Asks, Routed;
    context.Route(c, target, owner, inTime, t);
  }

  /**
   If nobody asks for it, an owner is due and no owner that is due has a goroutine at work, then with time left the
   delivery is buffered and the consumer goes on claiming.
   */
  method RoutesToOwner(context: Context, c: nat, target: Option<nat>, owner: Option<nat>, t: nat, r: nat)
    requires context.Valid() && InHand(context.state, c, target, owner, t)
    requires NobodyAsks(context.state, context.state.keys[context.state.boxes[Local(c)]])
    requires Due(context.state, r, context.state.keys[context.state.boxes[Local(c)]])
    requires forall q <- context.state.retained ::
               Due(context.state, q, context.state.keys[context.state.boxes[Local(c)]]) ==>
                 context.state.recoveries[q].timer.None?
    modifies context
    ensures context.Valid() && owner.Some? && var d := old(context.state).boxes[Local(c)];
            && Due(old(context.state), owner.value, old(context.state).keys[d])
            && Buffer(owner.value) in context.state.boxes && context.state.boxes[Buffer(owner.value)] == d
            && context.state.gate == Some(c) && Stands(context.state, c, Claiming)
  {
    RoutedToOwner(context.state, c, target, owner, t, r);
    hide Ok, Owned, Selectable, Recoverable, Asks, Due, NobodyAsks, NobodyDue, Routed;
    context.Route(c, target, owner, true, t);
  }

  /** If nobody asks for it and no owner is due, or the one found has a goroutine at work, or time is short, it is refused. */
  method RoutesAway(context: Context, c: nat, target: Option<nat>, owner: Option<nat>, inTime: bool, t: nat)
    requires context.Valid() && InHand(context.state, c, target, owner, t)
    requires NobodyAsks(context.state, context.state.keys[context.state.boxes[Local(c)]])
    requires || !inTime
             || NobodyDue(context.state, context.state.keys[context.state.boxes[Local(c)]])
             || (owner.Some? && owner.value in context.state.recoveries && context.state.recoveries[owner.value].timer.Some?)
    modifies context
    ensures context.Valid() && Stands(context.state, c, Refusing) && context.state.gate.None?
    ensures context.state.boxes == old(context.state.boxes)
  {
    RoutedAway(context.state, c, target, owner, inTime, t);
    hide Ok, Owned, Selectable, Recoverable, Asks, Due, NobodyAsks, NobodyDue, Routed;
    context.Route(c, target, owner, inTime, t);
  }

  /** What a call returns, written out. */
  lemma ReturnedIsAskedFor(s: State, c: nat)
    requires Ok(s) && c in s.calls && s.calls[c].at.Returned?
    ensures Local(c) in s.boxes && s.boxes[Local(c)] in s.keys
    ensures s.keys[s.boxes[Local(c)]].generation == s.calls[c].want.generation
    ensures s.calls[c].want.generation > 1 ==> s.keys[s.boxes[Local(c)]].connection == s.calls[c].want.connection
  {
    hide Ok;
    ReturnedIsWanted(s, c);
  }

  /** A live caller is registered for the first generation, and beyond it under an owner at that generation or one below. */
  method Registers(context: Context, c: nat, want: Key, r: Option<nat>) returns (ok: bool)
    requires context.Valid() && c !in context.state.calls && |context.state.waiters| < 16 && want.generation > 0
    requires want.generation > 1 ==>
               && r.Some? && r.value in context.state.retained && r.value in context.state.recoveries
               && (want.generation == context.state.recoveries[r.value].generation
                   || want.generation == context.state.recoveries[r.value].generation + 1)
    modifies context
    ensures context.Valid() && ok && c in context.state.waiters && c in context.state.calls
    ensures context.state.calls[c].want == want
    ensures want.generation > 1 && old(Buffer(r.value) in context.state.boxes
                                      && context.state.boxes[Buffer(r.value)] in context.state.keys
                                      && context.state.keys[context.state.boxes[Buffer(r.value)]] == want) ==>
              && Channel(c) in context.state.boxes
              && context.state.boxes[Channel(c)] == old(context.state.boxes[Buffer(r.value)])
              && Buffer(r.value) !in context.state.boxes
  {
    hide Ok, Owned;
    ok := context.Register(c, want, r, true);
  }

  /** A consumer in the gate has a capsule of generation three in hand, and the owner of its connection is at two. */
  const INHAND := State(Some(0), map[0 := Call(Key(0, 1), Claimed)], {0}, {0}, map[0 := Recovery(5, 2, None, None)], map[],
                        map[Local(0) := 7], map[7 := Key(5, 3)], false)

  /** The capsule is in the owner's buffer, guarded by its goroutine. */
  const BUFFERED := State(Some(0), map[0 := Call(Key(0, 1), Claiming)], {0}, {0}, map[0 := Recovery(5, 2, Some(0), None)],
                          map[0 := Timer(0, 7, false, Armed)], map[Buffer(0) := 7], map[7 := Key(5, 3)], false)

  method ClaimedRun() returns (context: Context)
    ensures fresh(context) && context.Valid() && context.state == INHAND
  {
    hide Ok, Owned;
    context := new Context();
    var retained := context.Retain(0, 5, true);
    var consumer := context.Register(0, Key(0, 1), None, true);
    context.TakeGate(0);
    context.Recheck(0);
    context.Claim(0, Some((7, Key(5, 3))));
    assert context.state.calls == INHAND.calls;
  }

  method BufferedRun() returns (context: Context)
    ensures fresh(context) && context.Valid() && context.state == BUFFERED
  {
    hide Ok, Owned;
    context := ClaimedRun();
    context.Route(0, None, Some(0), true, 0);
    assert context.state.boxes == BUFFERED.boxes && context.state.calls == BUFFERED.calls;
  }

  /**
   A second carrier failure before the Connection asks for it: a capsule of generation three comes while the owner is
   at two, is buffered, and is what the call for generation three returns.
   */
  method HandoverRun() returns (context: Context)
    ensures fresh(context) && context.Valid()
    ensures Stands(context.state, 1, Returned) && context.state.calls[1].want == Key(5, 3)
    ensures Local(1) in context.state.boxes && context.state.boxes[Local(1)] == 7
  {
    hide Ok, Owned;
    context := BufferedRun();
    var caller := context.Register(1, Key(5, 3), Some(0), true);
    TakeUp(context);
  }

  method TakeUp(context: Context)
    requires context.Valid() && 1 in context.state.calls && context.state.calls[1] == Call(Key(5, 3), Joining(0))
    requires Channel(1) in context.state.boxes && context.state.boxes[Channel(1)] == 7
    requires 0 in context.state.timers && context.state.timers[0].phase.Armed? && context.state.timers[0].stopped
    modifies context
    ensures context.Valid()
    ensures Stands(context.state, 1, Returned) && context.state.calls[1].want == Key(5, 3)
    ensures Local(1) in context.state.boxes && context.state.boxes[Local(1)] == 7
  {
    hide Ok, Owned;
    context.Stop(0);
    context.Close(0);
    context.Joined(1);
    context.Receive(1);
    context.Release(1);
  }
}
