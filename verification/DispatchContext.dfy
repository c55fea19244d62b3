/**
 The text context and every step that concurrent dispatch calls, recovery owners and expiry goroutines take in it: a
 critical section, a channel operation or a completion each. A run is an arbitrary interleaving of the steps.
 */
module DispatchContext {
  import opened Common
  import opened DispatchState

  class Context {
    var state: State
    ghost var ledger: Ledger

    ghost predicate Valid()
      reads this
    {
      && Ok(state) && Owned(state.boxes, state.keys.Keys, ledger)
      && (ledger.dropped != {} ==> state.ended || ledger.failed)
    }

    constructor ()
      ensures Valid() && state == State(None, map[], {}, {}, map[], map[], map[], map[], false)
      ensures ledger == Ledger(map[], [], {}, {}, false)
    {
      state := State(None, map[], {}, {}, map[], map[], map[], map[], false);
      ledger := Ledger(map[], [], {}, {}, false);
    }

    // ---------- what can happen to a delivery ----------

    /** A send on a one-slot channel or a hand-over to a local: the receiving box is empty, so no send blocks. */
    ghost method Move(a: Box, b: Box)
      requires Owned(state.boxes, state.keys.Keys, ledger) && a in state.boxes && b !in state.boxes
      modifies `ledger
      ensures Owned(Moved(state.boxes, a, b), state.keys.Keys, ledger)
      ensures ledger == old(ledger).(home := ledger.home)
    {
      MoveOwned(state.boxes, state.keys.Keys, ledger, a, b);
      ledger := ledger.(home := ledger.home[state.boxes[a] := b]);
    }

    /** Complete, never called for this delivery before. */
    ghost method Complete(a: Box, ok: bool)
      requires Owned(state.boxes, state.keys.Keys, ledger) && a in state.boxes
      modifies `ledger
      ensures state.boxes[a] !in old(ledger).log && ledger == Answered(old(ledger), state.boxes[a], ok)
      ensures Owned(state.boxes - {a}, state.keys.Keys, ledger)
    {
      AnswerOwned(state.boxes, state.keys.Keys, ledger, a, ok);
      ledger := Answered(ledger, state.boxes[a], ok);
    }

    /** The delivery is forgotten: the lifetime ended, or another completion failed. */
    ghost method Drop(a: Box)
      requires Owned(state.boxes, state.keys.Keys, ledger) && a in state.boxes
      modifies `ledger
      ensures Owned(state.boxes - {a}, state.keys.Keys, ledger)
      ensures ledger == old(ledger).(home := ledger.home, dropped := old(ledger).dropped + {state.boxes[a]})
    {
      AnswerOwned(state.boxes, state.keys.Keys, ledger, a, true);
      ledger := ledger.(home := ledger.home - {state.boxes[a]}, dropped := ledger.dropped + {state.boxes[a]});
    }

    /** A holder whose turn it is completes its delivery, or forgets it if the lifetime ended. */
    ghost method Conclude(a: Box, ok: bool)
      requires Owned(state.boxes, state.keys.Keys, ledger) && a in state.boxes
      requires ledger.dropped != {} ==> state.ended || ledger.failed
      modifies `ledger
      ensures Owned(state.boxes - {a}, state.keys.Keys, ledger)
      ensures ledger.dropped != {} ==> state.ended || ledger.failed
      ensures ledger.failed == (old(ledger).failed || (!state.ended && !ok))
      ensures ledger.log == if state.ended then old(ledger).log else old(ledger).log + [state.boxes[a]]
    {
      if state.ended { Drop(a); } else { Complete(a, ok); }
    }

    /** If the box still holds a delivery, it is forgotten because a completion failed. */
    ghost method Forget(boxes: Boxes, a: Box)
      requires Owned(boxes, state.keys.Keys, ledger) && (a in boxes ==> ledger.failed)
      requires ledger.dropped != {} ==> state.ended || ledger.failed
      modifies `ledger
      ensures Owned(boxes - {a}, state.keys.Keys, ledger) && ledger.failed == old(ledger).failed
      ensures ledger.dropped != {} ==> state.ended || ledger.failed
    {
      if a in boxes {
        AnswerOwned(boxes, state.keys.Keys, ledger, a, true);
        ledger := ledger.(home := ledger.home - {boxes[a]}, dropped := ledger.dropped + {boxes[a]});
      } else {
        assert boxes - {a} == boxes;
      }
    }

    // ---------- a dispatch call ----------

    /**
     registerTextIntroductionWaiter. `live` says whether the job and the caller's context are. A delivery buffered for
     the recovery owner moves to the new waiter exactly if it is the one asked for, and its goroutine is stopped.
     */
    method Register(c: nat, want: Key, recovery: Option<nat>, live: bool) returns (ok: bool)
      requires Valid() && c !in state.calls
      modifies this
      ensures Valid()
      ensures ok <==> && want.generation != 0 && live && |old(state).waiters| < MAXIMUM
                      && (want.generation > 1 ==> MayRecover(recovery, want, old(state).retained, old(state).recoveries))
      ensures !ok ==> state == old(state)
      ensures ok && want.generation == 1 ==> state == Enrolled(old(state), c, want)
      ensures ok && want.generation > 1 ==>
                var n := Enrolled(Advanced(old(state), recovery.value, want.generation), c, want);
                state == if Wanted(n.boxes, n.keys, recovery.value, want) then TakenOver(n, c, recovery.value) else n
      ensures ledger == old(ledger).(home := ledger.home)
    {
      hide Owned, CallOk, RecoveryOk, TimerOk, Wanted, TakenOver;
      if want.generation == 0 || !live || |state.waiters| >= MAXIMUM { return false; }
      if want.generation > 1 {
        if !MayRecover(recovery, want, state.retained, state.recoveries) { return false; }
        AdvanceStep(state, recovery.value, want.generation);
        state := Advanced(state, recovery.value, want.generation);
      }
      EmptyChannel(state, c);
      EnrolStep(state, c, want);
      state := Enrolled(state, c, want);
      if want.generation > 1 { TakeOver(c, want, recovery.value); }
      ok := true;
    }

    method TakeOver(c: nat, want: Key, r: nat)
      requires Valid() && c in state.calls && state.calls[c] == Call(want, Waiting) && Channel(c) !in state.boxes
      requires r in state.retained && r in state.recoveries
      modifies this
      ensures Valid() && ledger == old(ledger).(home := ledger.home)
      ensures state == if Wanted(old(state).boxes, old(state).keys, r, want) then TakenOver(old(state), c, r) else old(state)
    {
      hide Owned, CallOk, RecoveryOk, TimerOk, Ok;
      if Wanted(state.boxes, state.keys, r, want) {
        TakeOverStep(state, c, r);
        Move(Buffer(r), Channel(c));
        state := TakenOver(state, c, r);
      }
    }

    /** The goroutine of the delivery taken over has ended. */
    method Joined(c: nat)
      requires Valid() && c in state.calls && state.calls[c].at.Joining? && HasEnded(state, Some(state.calls[c].at.timer))
      modifies `state
      ensures Valid() && state == Staged(old(state), c, Waiting)
    {
      hide Owned;
      assert CallOk(OfCall(state, c), state.keys);
      StageStep(state, c, Waiting, state.gate);
      state := Staged(state, c, Waiting);
    }

    /** A receive from the own channel. */
    method Receive(c: nat)
      requires Valid() && c in state.calls && state.calls[c].at.Waiting? && Channel(c) in state.boxes
      modifies this
      ensures Valid()
      ensures state == Staged(old(state), c, Leaving).(boxes := Moved(old(state).boxes, Channel(c), Local(c)))
      ensures ledger == old(ledger).(home := ledger.home)
    {
      hide Owned, CallOk, RecoveryOk, TimerOk, Ok;
      ReceiveStep(state, c, state.gate);
      Move(Channel(c), Local(c));
      state := Staged(state, c, Leaving).(boxes := Moved(state.boxes, Channel(c), Local(c)));
    }

    /** The caller's context ended. */
    method Cancel(c: nat)
      requires Valid() && c in state.calls && state.calls[c].at.Waiting?
      modifies `state
      ensures Valid() && state == Staged(old(state), c, Leaving)
    {
      hide Owned;
      assert CallOk(OfCall(state, c), state.keys);
      StageStep(state, c, Leaving, state.gate);
      state := Staged(state, c, Leaving);
    }

    method TakeGate(c: nat)
      requires Valid() && c in state.calls && state.calls[c].at.Waiting? && state.gate.None?
      modifies `state
      ensures Valid() && state == Staged(old(state), c, Gated).(gate := Some(c))
    {
      hide Owned;
      assert CallOk(OfCall(state, c), state.keys);
      StageStep(state, c, Gated, Some(c));
      state := Staged(state, c, Gated).(gate := Some(c));
    }

    /** Inside the gate, a delivery that came meanwhile is taken before anything is claimed. */
    method Recheck(c: nat)
      requires Valid() && c in state.calls && state.calls[c].at.Gated?
      modifies this
      ensures Valid()
      ensures state == if Channel(c) in old(state).boxes
                       then Staged(old(state), c, Leaving).(gate := None, boxes := Moved(old(state).boxes, Channel(c), Local(c)))
                       else Staged(old(state), c, Claiming)
      ensures old(state).gate == Some(c) && ledger == old(ledger).(home := ledger.home)
    {
      hide Owned, RecoveryOk, TimerOk;
      assert CallOk(OfCall(state, c), state.keys);
      if Channel(c) in state.boxes {
        ReceiveStep(state, c, None);
        Move(Channel(c), Local(c));
        state := Staged(state, c, Leaving).(gate := None, boxes := Moved(state.boxes, Channel(c), Local(c)));
      } else {
        StageStep(state, c, Claiming, state.gate);
        state := Staged(state, c, Claiming);
      }
    }

    /** claimTextIntroductionDelivery, with nothing to give or with a readable delivery. */
    method Claim(c: nat, claim: Option<(Delivery, Key)>)
      requires Valid() && c in state.calls && state.calls[c].at.Claiming? && (claim.Some? ==> claim.value.0 !in state.keys)
      modifies this
      ensures Valid()
      ensures state == if claim.None? then Staged(old(state), c, Leaving).(gate := None)
                       else Staged(old(state), c, Claimed).(boxes := old(state).boxes[Local(c) := claim.value.0],
                                                            keys := old(state).keys[claim.value.0 := claim.value.1])
      ensures old(state).gate == Some(c) && ledger == old(ledger).(home := ledger.home)
    {
      hide Owned, CallOk, RecoveryOk, TimerOk, Ok;
      if claim.None? {
        GiveUpStep(state, c);
        state := Staged(state, c, Leaving).(gate := None);
      } else {
        var (d, key) := claim.value;
        ClaimStep(state, c, d, key);
        TakeOwned(state.boxes, state.keys.Keys, ledger, Local(c), d, true);
        state := Staged(state, c, Claimed).(boxes := state.boxes[Local(c) := d], keys := state.keys[d := key]);
        assert state.keys.Keys == old(state).keys.Keys + {d};
        ledger := ledger.(home := ledger.home[d := Local(c)]);
      }
    }

    /** claimTextIntroductionDelivery, with a delivery that cannot be routed: it is refused on the spot. */
    method ClaimRefused(c: nat, d: Delivery, key: Key, ok: bool)
      requires Valid() && c in state.calls && state.calls[c].at.Claiming? && d !in state.keys
      modifies this
      ensures Valid() && state == Staged(old(state), c, Leaving).(gate := None, keys := old(state).keys[d := key])
      ensures old(state).gate == Some(c) && d !in old(ledger).log && ledger == Answered(old(ledger), d, ok)
    {
      hide Owned, CallOk, RecoveryOk, TimerOk, Ok;
      ClaimStep(state, c, d, key);
      TakeOwned(state.boxes, state.keys.Keys, ledger, Local(c), d, ok);
      state := Staged(state, c, Leaving).(gate := None, keys := state.keys[d := key]);
      assert state.keys.Keys == old(state).keys.Keys + {d};
      ledger := Answered(ledger, d, ok);
    }

    /**
     The routing section: to a waiter whose channel is empty, the own one included; else to a recovery owner with room
     and time; else out of the gate to be refused. `target` and `owner` are what the two selections found.
     */
    method Route(c: nat, target: Option<nat>, owner: Option<nat>, inTime: bool, t: nat)
      requires Valid() && c in state.calls && state.calls[c].at.Claimed? && Local(c) in state.boxes && t !in state.timers
      requires target.Some? ==>
                 Selectable(target.value, state.waiters, state.calls, state.boxes, state.keys, state.boxes[Local(c)])
      requires target.None? ==> forall w <- state.waiters ::
                 !Selectable(w, state.waiters, state.calls, state.boxes, state.keys, state.boxes[Local(c)])
      requires owner.Some? ==>
                 Recoverable(owner.value, state.retained, state.recoveries, state.boxes, state.keys, state.boxes[Local(c)])
      requires target.None? && owner.None? ==> forall r <- state.retained ::
                 !Recoverable(r, state.retained, state.recoveries, state.boxes, state.keys, state.boxes[Local(c)])
      modifies this
      ensures Valid() && old(state).gate == Some(c)
      ensures state == Routed(old(state), c, target, owner, inTime, t)
      ensures ledger == old(ledger).(home := ledger.home)
    {
      hide Ok, Owned;
      RouteStep(state, c, target, owner, inTime, t);
      if target.Some? && target.value != c {
        Move(Local(c), Channel(target.value));
        state := Staged(state, c, Claiming).(boxes := Moved(state.boxes, Local(c), Channel(target.value)));
      } else if target.None? && Buffers(owner, state.recoveries, inTime) {
        Move(Local(c), Buffer(owner.value));
        state := Kept(state, c, owner.value, t);
      } else {
        state := Staged(state, c, if target.Some? then Leaving else Refusing).(gate := None);
      }
    }

    /** refuseTextIntroductionDelivery, after the gate was given back. */
    method Refuse(c: nat, ok: bool)
      requires Valid() && c in state.calls && state.calls[c].at.Refusing? && Local(c) in state.boxes
      modifies this
      ensures Valid()
      ensures state == Staged(old(state), c, if ok then Waiting else Leaving).(boxes := old(state).boxes - {Local(c)})
      ensures var d := old(state).boxes[Local(c)]; d !in old(ledger).log && ledger == Answered(old(ledger), d, ok)
    {
      hide Owned, CallOk, RecoveryOk, TimerOk, Ok;
      AnswerStep(state, c, if ok then Waiting else Leaving);
      Complete(Local(c), ok);
      state := Staged(state, c, if ok then Waiting else Leaving).(boxes := state.boxes - {Local(c)});
    }

    /** releaseTextIntroductionWaiter: the waiter goes, and a delivery assigned to it meanwhile is taken out. */
    method Release(c: nat)
      requires Valid() && c in state.calls && state.calls[c].at.Leaving?
      modifies this
      ensures Valid()
      ensures state == if Channel(c) in old(state).boxes
                       then Staged(old(state), c, Finishing).(waiters := old(state).waiters - {c},
                                                              boxes := Moved(old(state).boxes, Channel(c), Stray(c)))
                       else Staged(old(state), c, if Local(c) in old(state).boxes then Returned else Over)
                              .(waiters := old(state).waiters - {c})
      ensures ledger == old(ledger).(home := ledger.home)
    {
      hide Owned, CallOk, RecoveryOk, TimerOk, Ok;
      if Channel(c) in state.boxes {
        LeaveStep(state, c, Finishing, Moved(state.boxes, Channel(c), Stray(c)));
        Move(Channel(c), Stray(c));
        state := Staged(state, c, Finishing).(waiters := state.waiters - {c}, boxes := Moved(state.boxes, Channel(c), Stray(c)));
      } else {
        LeaveStep(state, c, if Local(c) in state.boxes then Returned else Over, state.boxes);
        state := Staged(state, c, if Local(c) in state.boxes then Returned else Over).(waiters := state.waiters - {c});
      }
    }

    /** The stray delivery is refused; if that fails, the call fails and its own delivery is forgotten with it. */
    method Settle(c: nat, ok: bool)
      requires Valid() && c in state.calls && state.calls[c].at.Finishing?
      modifies this
      ensures Valid()
      ensures state == if Local(c) in old(state).boxes && (ok || old(state).ended)
                       then Staged(old(state), c, Returned).(boxes := old(state).boxes - {Stray(c)})
                       else Staged(old(state), c, Over).(boxes := old(state).boxes - {Stray(c)} - {Local(c)})
      ensures ledger.failed == (old(ledger).failed || (!old(state).ended && !ok))
    {
      hide Owned, CallOk, RecoveryOk, TimerOk, Ok;
      var given := Local(c) in state.boxes && (ok || state.ended);
      SettleStep(state, c, given);
      Conclude(Stray(c), ok);
      if given {
        state := Staged(state, c, Returned).(boxes := state.boxes - {Stray(c)});
      } else {
        Forget(state.boxes - {Stray(c)}, Local(c));
        state := Staged(state, c, Over).(boxes := state.boxes - {Stray(c)} - {Local(c)});
      }
    }

    /** The caller answers what it was given. */
    method Answer(c: nat, ok: bool)
      requires Valid() && c in state.calls && state.calls[c].at.Returned? && Local(c) in state.boxes
      modifies this
      ensures Valid() && state == Staged(old(state), c, Over).(boxes := old(state).boxes - {Local(c)})
      ensures var d := old(state).boxes[Local(c)]; d !in old(ledger).log && ledger == Answered(old(ledger), d, ok)
    {
      hide Owned, CallOk, RecoveryOk, TimerOk, Ok;
      AnswerStep(state, c, Over);
      Complete(Local(c), ok);
      state := Staged(state, c, Over).(boxes := state.boxes - {Local(c)});
    }

    // ---------- recovery owners and goroutines ----------

    /** retainTextIntroductionRecovery, for a binding that has no recovery owner. */
    method Retain(r: nat, connection: nat, live: bool) returns (ok: bool)
      requires Valid() && r !in state.recoveries
      modifies `state
      ensures Valid() && (ok <==> live && |old(state).retained| < MAXIMUM)
      ensures state == if ok then old(state).(recoveries := old(state).recoveries[r := Recovery(connection, 2, None, None)],
                                              retained := old(state).retained + {r})
                       else old(state)
    {
      hide Owned, CallOk, RecoveryOk, TimerOk;
      if !live || |state.retained| >= MAXIMUM { return false; }
      RetainStep(state, r, connection);
      state := state.(recoveries := state.recoveries[r := Recovery(connection, 2, None, None)], retained := state.retained + {r});
      ok := true;
    }

    /** The timer of an expiry goroutine fires. In its turn it takes the delivery it was started for. */
    method Fire(t: nat)
      requires Valid() && t in state.timers && state.timers[t].phase.Armed?
      modifies this
      ensures Valid()
      ensures InTurn(old(state), t) ==>
                var r := old(state).timers[t].recovery;
                && Buffer(r) in old(state).boxes && old(state).boxes[Buffer(r)] == old(state).timers[t].delivery
                && state == Phased(old(state), t, Completing).(boxes := Moved(old(state).boxes, Buffer(r), Expiring(t)))
      ensures !InTurn(old(state), t) ==> state == Phased(old(state), t, Ending)
      ensures ledger == old(ledger).(home := ledger.home)
    {
      hide Owned, CallOk, RecoveryOk, TimerOk;
      if InTurn(state, t) {
        var r := state.timers[t].recovery;
        FireStep(state, t);
        Move(Buffer(r), Expiring(t));
        state := Phased(state, t, Completing).(boxes := Moved(state.boxes, Buffer(r), Expiring(t)));
      } else {
        StopStep(state, t);
        state := Phased(state, t, Ending);
      }
    }

    /** A goroutine told to stop, or outliving the context, ends before its timer. */
    method Stop(t: nat)
      requires Valid() && t in state.timers && state.timers[t].phase.Armed? && (state.timers[t].stopped || state.ended)
      modifies `state
      ensures Valid() && state == Phased(old(state), t, Ending)
    {
      hide Owned, CallOk, RecoveryOk, TimerOk;
      StopStep(state, t);
      state := Phased(state, t, Ending);
    }

    /** The goroutine refuses the expired delivery. */
    method Expire(t: nat, ok: bool)
      requires Valid() && t in state.timers && state.timers[t].phase.Completing?
      modifies this
      ensures Valid() && state == Phased(old(state), t, Ending).(boxes := old(state).boxes - {Expiring(t)})
      ensures ledger.failed == (old(ledger).failed || (!old(state).ended && !ok))
    {
      hide Owned, CallOk, RecoveryOk, TimerOk;
      ExpireStep(state, t);
      Conclude(Expiring(t), ok);
      state := Phased(state, t, Ending).(boxes := state.boxes - {Expiring(t)});
    }

    method Close(t: nat)
      requires Valid() && t in state.timers && state.timers[t].phase.Ending?
      modifies `state
      ensures Valid() && state == Closed(old(state), t)
    {
      hide Owned, CallOk, RecoveryOk, TimerOk;
      CloseStep(state, t);
      state := Closed(state, t);
    }

    /** releaseTextIntroductionRecovery, its critical section. */
    method Retire(r: nat)
      requires Valid() && r in state.retained && r in state.recoveries
      modifies `state
      ensures Valid() && state == Retired(old(state), r)
    {
      hide Owned, CallOk, RecoveryOk, TimerOk;
      RetireStep(state, r);
      state := Retired(state, r);
    }

    /** releaseTextIntroductionRecovery, after its goroutine ended. */
    method Drain(r: nat, ok: bool)
      requires Valid() && r !in state.retained && Buffer(r) in state.boxes
      requires r in state.recoveries && HasEnded(state, state.recoveries[r].joins)
      modifies this
      ensures Valid() && state == old(state).(boxes := old(state).boxes - {Buffer(r)})
      ensures ledger.failed == (old(ledger).failed || (!old(state).ended && !ok))
    {
      hide Owned, CallOk, RecoveryOk, TimerOk;
      DrainStep(state, r);
      Conclude(Buffer(r), ok);
      state := state.(boxes := state.boxes - {Buffer(r)});
    }

    /** The lifetime of the context ends. */
    method End()
      requires Valid()
      modifies `state
      ensures Valid() && state == old(state).(ended := true)
    {
      hide Owned, CallOk, RecoveryOk, TimerOk;
      EndStep(state);
      state := state.(ended := true);
    }
  }

  // ---------- every interleaving ----------

  datatype Step =
    | Register(call: nat, want: Key, owner: Option<nat>, live: bool)
    | Joined(call: nat)
    | Receive(call: nat)
    | Cancel(call: nat)
    | TakeGate(call: nat)
    | Recheck(call: nat)
    | Claim(call: nat, claim: Option<(Delivery, Key)>)
    | ClaimRefused(call: nat, delivery: Delivery, key: Key, ok: bool)
    | Route(call: nat, target: Option<nat>, owner: Option<nat>, inTime: bool, timer: nat)
    | Refuse(call: nat, ok: bool)
    | Release(call: nat)
    | Settle(call: nat, ok: bool)
    | Answer(call: nat, ok: bool)
    | Retain(recovery: nat, connection: nat, live: bool)
    | Fire(timer: nat)
    | Stop(timer: nat)
    | Expire(timer: nat, ok: bool)
    | Close(timer: nat)
    | Retire(recovery: nat)
    | Drain(recovery: nat, ok: bool)
    | End

  predicate Stands(s: State, c: nat, at: Stage) {
    c in s.calls && s.calls[c].at == at
  }

  predicate Runs(s: State, t: nat, phase: Phase) {
    t in s.timers && s.timers[t].phase == phase
  }

  /** What the two selections may have found for the delivery in hand. */
  predicate Selected(s: State, c: nat, target: Option<nat>, owner: Option<nat>) {
    && Local(c) in s.boxes
    && var d := s.boxes[Local(c)];
    && (target.Some? ==> Selectable(target.value, s.waiters, s.calls, s.boxes, s.keys, d))
    && (target.None? ==> forall w <- s.waiters :: !Selectable(w, s.waiters, s.calls, s.boxes, s.keys, d))
    && (owner.Some? ==> Recoverable(owner.value, s.retained, s.recoveries, s.boxes, s.keys, d))
    && (target.None? && owner.None? ==> forall r <- s.retained :: !Recoverable(r, s.retained, s.recoveries, s.boxes, s.keys, d))
  }

  /** The step is the next one of some call, recovery owner or goroutine. */
  predicate Enabled(s: State, step: Step) {
    match step
    case Register(c, _, _, _) => c !in s.calls
    case Joined(c) => c in s.calls && s.calls[c].at.Joining? && HasEnded(s, Some(s.calls[c].at.timer))
    case Receive(c) => Stands(s, c, Waiting) && Channel(c) in s.boxes
    case Cancel(c) => Stands(s, c, Waiting)
    case TakeGate(c) => Stands(s, c, Waiting) && s.gate.None?
    case Recheck(c) => Stands(s, c, Gated)
    case Claim(c, claim) => Stands(s, c, Claiming) && (claim.Some? ==> claim.value.0 !in s.keys)
    case ClaimRefused(c, d, _, _) => Stands(s, c, Claiming) && d !in s.keys
    case Route(c, target, owner, _, t) => Stands(s, c, Claimed) && t !in s.timers && Selected(s, c, target, owner)
    case Refuse(c, _) => Stands(s, c, Refusing)
    case Release(c) => Stands(s, c, Leaving)
    case Settle(c, _) => Stands(s, c, Finishing)
    case Answer(c, _) => Stands(s, c, Returned)
    case Retain(r, _, _) => r !in s.recoveries
    case Fire(t) => Runs(s, t, Armed)
    case Stop(t) => Runs(s, t, Armed) && (s.timers[t].stopped || s.ended)
    case Expire(t, _) => Runs(s, t, Completing)
    case Close(t) => Runs(s, t, Ending)
    case Retire(r) => r in s.retained && r in s.recoveries
    case Drain(r, _) => r in s.recoveries && r !in s.retained && Buffer(r) in s.boxes && HasEnded(s, s.recoveries[r].joins)
    case End => true
  }

  method PerformCall(context: Context, step: Step)
    requires context.Valid() && Enabled(context.state, step)
    requires !step.Retain? && !step.Fire? && !step.Stop? && !step.Expire?
    requires !step.Close? && !step.Retire? && !step.Drain? && !step.End?
    modifies context
    ensures context.Valid()
  {
    hide Ok, Owned, Selectable, Recoverable, Wanted, TakenOver, Kept;
    LocalThere(context.state, step);
    match step
    case Register(c, want, owner, live) => var _ := context.Register(c, want, owner, live);
    case Joined(c) => context.Joined(c);
    case Receive(c) => context.Receive(c);
    case Cancel(c) => context.Cancel(c);
    case TakeGate(c) => context.TakeGate(c);
    case Recheck(c) => context.Recheck(c);
    case Claim(c, claim) => context.Claim(c, claim);
    case ClaimRefused(c, d, key, ok) => context.ClaimRefused(c, d, key, ok);
    case Route(c, target, owner, inTime, t) => context.Route(c, target, owner, inTime, t);
    case Refuse(c, ok) => context.Refuse(c, ok);
    case Release(c) => context.Release(c);
    case Settle(c, ok) => context.Settle(c, ok);
    case Answer(c, ok) => context.Answer(c, ok);
  }

  lemma LocalThere(s: State, step: Step)
    requires Ok(s) && Enabled(s, step)
    ensures step.Refuse? || step.Answer? ==> Local(step.call) in s.boxes
  {
    if step.Refuse? || step.Answer? {
      assert CallOk(OfCall(s, step.call), s.keys);
      assert At(s, Local(step.call)).Some?;
    }
  }

  method Perform(context: Context, step: Step)
    requires context.Valid() && Enabled(context.state, step)
    modifies context
    ensures context.Valid()
  {
    hide Ok, Owned, Selectable, Recoverable;
    match step
    case Retain(r, connection, live) => var _ := context.Retain(r, connection, live);
    case Fire(t) => context.Fire(t);
    case Stop(t) => context.Stop(t);
    case Expire(t, ok) => context.Expire(t, ok);
    case Close(t) => context.Close(t);
    case Retire(r) => context.Retire(r);
    case Drain(r, ok) => context.Drain(r, ok);
    case End => context.End();
    case _ => PerformCall(context, step);
  }

  /**
   Any number of calls, recovery owners and goroutines, interleaved in any order. At the end, as at every point before
   it: a delivery has one owner, was answered or was given up; Complete was called at most once for it; only an ended
   lifetime or a failed completion gives one up; every call that returned has what it asked for; and if everybody is
   done in a living context with no failure, every claimed delivery was answered.
   */
  method Run(schedule: seq<Step>) returns (context: Context)
    ensures fresh(context) && context.Valid()
    ensures forall d <- context.state.keys ::
              (exists b <- context.state.boxes :: context.state.boxes[b] == d)
              <==> d !in context.ledger.answers && d !in context.ledger.dropped
    ensures forall a <- context.state.boxes, b <- context.state.boxes ::
              context.state.boxes[a] == context.state.boxes[b] ==> a == b
    ensures NoRepeats(context.ledger.log) && forall d :: d in context.ledger.answers <==> d in context.ledger.log
    ensures context.ledger.dropped != {} ==> context.state.ended || context.ledger.failed
    ensures forall c <- context.state.calls :: context.state.calls[c].at.Returned? ==>
              && Local(c) in context.state.boxes && context.state.boxes[Local(c)] in context.state.keys
              && Matches(context.state.keys[context.state.boxes[Local(c)]], context.state.calls[c].want)
    ensures Idle(context.state) && !context.state.ended && !context.ledger.failed ==>
              context.ledger.answers == context.state.keys.Keys
  {
    context := new Context();
    for i := 0 to |schedule|
      invariant fresh(context) && context.Valid()
    {
      if Enabled(context.state, schedule[i]) { Perform(context, schedule[i]); }
    }
    ghost var s, l := context.state, context.ledger;
    forall d | d in s.keys
      ensures (exists b <- s.boxes :: s.boxes[b] == d) <==> d !in l.answers && d !in l.dropped
      ensures forall a <- s.boxes, b <- s.boxes :: s.boxes[a] == d && s.boxes[b] == d ==> a == b
    {
      OneOwner(s, l, d);
    }
    forall a, b | a in s.boxes && b in s.boxes && s.boxes[a] == s.boxes[b] ensures a == b {
      OneOwner(s, l, s.boxes[a]);
    }
    forall c | c in s.calls && s.calls[c].at.Returned?
      ensures Local(c) in s.boxes && s.boxes[Local(c)] in s.keys && Matches(s.keys[s.boxes[Local(c)]], s.calls[c].want)
    {
      ReturnedIsWanted(s, c);
    }
    if Idle(s) && !s.ended && !l.failed { AllAnswered(s, l); }
  }
}
