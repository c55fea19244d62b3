/**
 The activation of a recovered name authority: its quarantined state is raised past the published one and must pass the
 floor that the file has for it.
 */
module RecoveredAuthority {
  import opened Common
  import opened TextOrder
  import opened AuthorityFloor
  import opened FloorText
  import FloorStore

  /** Every watermark of the floor is reached by the recovered state itself. */
  predicate Reaches(state: Marks, floor: Marks) {
    forall previous <- floor.watermarks ::
      exists w <- state.watermarks :: w.domain == previous.domain && w.value >= previous.value
  }

  predicate CanRise(values: seq<Watermark>) {
    ValidWatermarks(values) && forall w <- values :: w.value < UINT64_LIMIT - 1
  }

  /** The watermarks of a state, each one higher. */
  function Raise(values: seq<Watermark>): seq<Watermark> {
    seq(|values|, i requires 0 <= i < |values| => Watermark(values[i].domain, values[i].value + 1))
  }

  lemma RaisedIsValid(values: seq<Watermark>)
    requires ValidWatermarks(values)
    ensures ValidWatermarks(Raise(values))
  {
  }

  /**
   The raised state passes a floor exactly if the published generation and revision do and the recovered state reached
   every watermark of that floor. The floor need not be the one the state was recovered at.
   */
  lemma RaisedPasses(state: Marks, generation: nat, revision: nat, floor: Marks)
    ensures Higher(Marks(generation, revision, Raise(state.watermarks)), floor)
            <==> generation > floor.generation && revision > floor.revision && Reaches(state, floor)
  {
    var next := Raise(state.watermarks);
    forall previous | previous in floor.watermarks
      ensures Exceeds(next, previous) <==>
              exists w <- state.watermarks :: w.domain == previous.domain && w.value >= previous.value
    {
      if Exceeds(next, previous) {
        var i :| 0 <= i < |next| && next[i].domain == previous.domain && next[i].value > previous.value;
        assert state.watermarks[i] in state.watermarks;
      }
      if w :| w in state.watermarks && w.domain == previous.domain && w.value >= previous.value {
        var i :| 0 <= i < |state.watermarks| && state.watermarks[i] == w;
        assert next[i] in next;
      }
    }
  }

  /** Once its floor has passed a raised state, that state is behind the floor for good, whatever is published. */
  lemma RaisedOnce(state: Marks, successor: Marks, floor: Marks)
    requires ValidWatermarks(state.watermarks) && successor.watermarks == Raise(state.watermarks)
    requires floor == successor || Higher(floor, successor)
    ensures !Reaches(state, floor)
  {
    var first := state.watermarks[0];
    var mark := successor.watermarks[0];
    assert mark in successor.watermarks;
    var held := Carrier(floor, successor, mark);
    if Reaches(state, floor) {
      var w :| w in state.watermarks && w.domain == held.domain && w.value >= held.value;
      ValidIsSorted(state.watermarks);
      BeforeIrreflexive(first.domain);
    }
  }

  lemma Carrier(floor: Marks, successor: Marks, mark: Watermark) returns (held: Watermark)
    requires mark in successor.watermarks && (floor == successor || Higher(floor, successor))
    ensures held in floor.watermarks && held.domain == mark.domain && held.value >= mark.value
  {
    if floor == successor { return mark; }
    assert Exceeds(floor.watermarks, mark);
    held :| held in floor.watermarks && held.domain == mark.domain && held.value > mark.value;
  }

  /** What the published state and the recovered one must satisfy before anything is written. */
  predicate Activates(records: seq<Marks>, leftover: bool, floors: seq<Floor>, binding: Binding, state: Marks,
                      generation: nat, revision: nat) {
    && records == [] && !leftover && FloorStore.Readable(floors)
    && generation > state.generation && revision > state.revision && CanRise(state.watermarks)
    && var floor := FloorStore.FloorFor(floors, binding);
       floor.Some? ==> generation > floor.value.generation && revision > floor.value.revision && Reaches(state, floor.value)
  }

  class Vault {
    const store: FloorStore.Store
    const binding: Binding
    var records: seq<Marks>
    /** A temporary was left among the records. */
    var leftover: bool

    constructor (store: FloorStore.Store, binding: Binding)
      ensures this.store == store && this.binding == binding && records == [] && !leftover
    {
      this.store, this.binding, records, leftover := store, binding, [], false;
    }

    /**
     activateRecoveredAuthority, from the decoded state on. It needs an empty directory of records, so a call that got
     as far as its record is the last one, even if the floor never moved or the process died over the temporary.
     */
    method Activate(state: Marks, generation: nat, revision: nat, filing: Filing, advance: Write)
      returns (activated: Option<Marks>)
      requires FloorStore.ValidBinding(binding)
      modifies this, store
      ensures var successor := Marks(generation, revision, Raise(state.watermarks));
              var active := Activates(old(records), old(leftover), old(store.floors), binding, state, generation, revision);
              && records == (if active && !filing.Dropped? then [successor] else old(records))
              && leftover == (old(leftover) || (active && filing == Dropped(true)))
              && store.floors == (if active && filing.Filed? && advance != Lost
                                  then FloorStore.Advanced(old(store.floors), Floor(binding, successor))
                                  else old(store.floors))
              && activated == (if active && filing.Filed? && advance == Done
                                  && FloorStore.Fits(old(store.floors), Floor(binding, successor))
                               then Some(successor) else None)
    {
      hide FloorStore.Readable, FloorStore.Fits, FloorStore.Advanced, ValidWatermarks, Higher, Reaches;
      if |records| != 0 || leftover { return None; }
      if generation <= state.generation || revision <= state.revision { return None; }
      var next := AdvancedWatermarks(state.watermarks);
      if next.None? { return None; }
      assert next.value == Raise(state.watermarks);
      RaisedIsValid(state.watermarks);
      var successor := Marks(generation, revision, next.value);
      if !FloorStore.Readable(store.floors) { return None; }
      var floor := FloorStore.FloorFor(store.floors, binding);
      if floor.Some? {
        RaisedPasses(state, generation, revision, floor.value);
        ValidIsSorted(successor.watermarks);
        var higher := StrictlyHigher(successor, floor.value);
        if !higher { return None; }
      }
      leftover := filing == Dropped(true);
      if !filing.Dropped? { records := [successor]; }
      if !filing.Filed? { return None; }
      var advanced := store.AdvanceFloor(Floor(binding, successor), advance);
      if !advanced { return None; }
      activated := Some(successor);
    }
  }

  /** An attempt to activate, or an advance of another authority in the same floor file. */
  datatype Event =
    | Attempt(state: Marks, generation: nat, revision: nat, filing: Filing, advance: Write)
    | Other(floor: Floor, write: Write)

  /**
   Any run of attempts, with any published states, any interruptions and other authorities in the same file: one
   activation at most, and its state is the one record.
   */
  method Run(events: seq<Event>, store: FloorStore.Store, binding: Binding)
    returns (vault: Vault, activated: seq<Option<Marks>>)
    requires FloorStore.ValidBinding(binding) && forall e <- events :: e.Other? ==> FloorStore.ValidFloor(e.floor)
    modifies store
    ensures fresh(vault) && |activated| == |events|
    ensures forall i, j :: 0 <= i < j < |events| && activated[i].Some? ==> activated[j].None?
    ensures forall i :: 0 <= i < |events| && activated[i].Some? ==> vault.records == [activated[i].value]
  {
    hide FloorStore.Readable, FloorStore.Fits, FloorStore.Advanced, FloorStore.ValidBinding, FloorStore.ValidFloor;
    hide CanRise, Reaches, Raise;
    vault := new Vault(store, binding);
    activated := [];
    for n := 0 to |events|
      invariant fresh(vault) && vault.store == store && vault.binding == binding && |activated| == n
      invariant forall i, j :: 0 <= i < j < n && activated[i].Some? ==> activated[j].None?
      invariant forall i :: 0 <= i < n && activated[i].Some? ==> vault.records == [activated[i].value]
    {
      var result: Option<Marks> := None;
      assert events[n] in events;
      match events[n] {
        case Attempt(state, generation, revision, filing, advance) =>
          result := vault.Activate(state, generation, revision, filing, advance);
        case Other(floor, write) =>
          var _ := store.AdvanceFloor(floor, write);
      }
      activated := activated + [result];
    }
  }
}
