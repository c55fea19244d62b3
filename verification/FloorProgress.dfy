/** When a floor is advanced and a recovered authority activated, with the comparisons written out. */
module FloorProgress {
  import opened Common
  import opened AuthorityFloor
  import opened FloorText
  import FloorStore
  import RecoveredAuthority

  ghost predicate Topped(watermarks: seq<Watermark>, previous: Watermark) {
    exists j :: 0 <= j < |watermarks| && watermarks[j].domain == previous.domain && watermarks[j].value > previous.value
  }

  /** A higher generation, a higher revision, and for every watermark of the floor a higher one of the same domain. */
  ghost predicate Passes(marks: Marks, floor: Marks) {
    && marks.generation > floor.generation && marks.revision > floor.revision
    && forall i :: 0 <= i < |floor.watermarks| ==>
         Topped(marks.watermarks, floor.watermarks[i])
  }

  lemma ToppedIsExceeded(watermarks: seq<Watermark>, previous: Watermark)
    ensures Topped(watermarks, previous) <==> Exceeds(watermarks, previous)
  {
    if j :| 0 <= j < |watermarks| && watermarks[j].domain == previous.domain && watermarks[j].value > previous.value {
      assert watermarks[j] in watermarks;
    }
  }

  lemma PassesIsHigher(marks: Marks, floor: Marks)
    ensures Passes(marks, floor) <==> Higher(marks, floor)
  {
    hide Topped, Exceeds;
    forall previous ensures Topped(marks.watermarks, previous) <==> Exceeds(marks.watermarks, previous) {
      ToppedIsExceeded(marks.watermarks, previous);
    }
    assert forall i :: 0 <= i < |floor.watermarks| ==> floor.watermarks[i] in floor.watermarks;
  }

  /** The binding has no entry, or one that the marks pass. */
  ghost predicate InTurn(floors: seq<Floor>, f: Floor) {
    forall i :: 0 <= i < |floors| && floors[i].binding == f.binding ==> Passes(f.marks, floors[i].marks)
  }

  lemma InTurnIsDue(floors: seq<Floor>, f: Floor)
    requires FloorStore.Readable(floors)
    ensures InTurn(floors, f) <==> FloorStore.Due(floors, f)
  {
    hide Higher, Passes, FloorStore.ValidFloor;
    FloorStore.AscendingIsDistinct(floors);
    FloorStore.FloorForFinds(floors, f.binding);
    var held := FloorStore.FloorFor(floors, f.binding);
    if held.Some? {
      PassesIsHigher(f.marks, held.value);
      var i :| 0 <= i < |floors| && floors[i] == Floor(f.binding, held.value);
      assert forall j :: 0 <= j < |floors| && floors[j].binding == f.binding ==> floors[j] in floors;
    } else {
      assert forall j :: 0 <= j < |floors| ==> floors[j] in floors;
    }
  }

  /**
   On a readable file an advance is made exactly if the binding has no entry or one that is passed. It is then what the
   file says of the binding, and is confirmed exactly if the file has at most 1,024 entries and one mebibyte of text.
   */
  method Advances(store: FloorStore.Store, f: Floor, write: Write) returns (ok: bool)
    requires FloorStore.ValidFloor(f) && FloorStore.Readable(store.floors)
    modifies store
    ensures ok <==> InTurn(old(store.floors), f) && write == Done
                    && |store.floors| <= 1024 && |Document(store.floors)| <= 1048576
    ensures InTurn(old(store.floors), f) && write != Lost ==>
              && FloorStore.FloorFor(store.floors, f.binding) == Some(f.marks)
              && forall other :: other != f.binding ==>
                   FloorStore.FloorFor(store.floors, other) == FloorStore.FloorFor(old(store.floors), other)
    ensures !InTurn(old(store.floors), f) || write == Lost ==> store.floors == old(store.floors)
  {
    hide InTurn, Document, FloorStore.Advanced, FloorStore.Fits, FloorStore.Due, FloorStore.ValidFloor;
    hide FloorStore.Ascending;
    InTurnIsDue(store.floors, f);
    FloorStore.AdvancedIsUpdate(store.floors, f, f.binding);
    forall other ensures other != f.binding ==> FloorStore.FloorFor(FloorStore.Advanced(store.floors, f), other)
                                                == FloorStore.FloorFor(store.floors, other) {
      FloorStore.AdvancedIsUpdate(store.floors, f, other);
    }
    ok := store.AdvanceFloor(f, write);
  }

  /**
   A recovered state is activated if nothing was recorded before, what was published is newer than it and than the floor,
   no watermark is full, the floor has no watermark above its own, and record and floor go through.
   */
  method Activates(vault: RecoveredAuthority.Vault, state: Marks, generation: nat, revision: nat)
    returns (activated: Option<Marks>)
    requires FloorStore.ValidBinding(vault.binding) && FloorStore.Readable(vault.store.floors)
    requires vault.records == [] && !vault.leftover && generation > state.generation && revision > state.revision
    requires ValidWatermarks(state.watermarks) && forall w <- state.watermarks :: w.value < 0xffff_ffff_ffff_ffff
    requires forall g <- vault.store.floors :: g.binding == vault.binding ==>
               && generation > g.marks.generation && revision > g.marks.revision
               && forall i :: 0 <= i < |g.marks.watermarks| ==>
                    exists w <- state.watermarks ::
                      w.domain == g.marks.watermarks[i].domain && w.value >= g.marks.watermarks[i].value
    requires FloorStore.Fits(vault.store.floors,
                             Floor(vault.binding, Marks(generation, revision, RecoveredAuthority.Raise(state.watermarks))))
    modifies vault, vault.store
    ensures activated.Some? && vault.records == [activated.value]
    ensures activated.value.generation == generation && activated.value.revision == revision
    ensures |activated.value.watermarks| == |state.watermarks|
    ensures forall i :: 0 <= i < |state.watermarks| ==>
              activated.value.watermarks[i] == Watermark(state.watermarks[i].domain, state.watermarks[i].value + 1)
    ensures FloorStore.FloorFor(vault.store.floors, vault.binding) == Some(activated.value)
  {
    hide Higher, FloorStore.Fits, FloorStore.ValidFloor, FloorStore.Advanced, ValidWatermarks;
    var floors := vault.store.floors;
    FloorStore.AscendingIsDistinct(floors);
    FloorStore.FloorForFinds(floors, vault.binding);
    RecoveredAuthority.RaisedIsValid(state.watermarks);
    ghost var f := Floor(vault.binding, Marks(generation, revision, RecoveredAuthority.Raise(state.watermarks)));
    assert FloorStore.ValidFloor(f) by { RaisedFloorIsValid(f); }
    FloorStore.AdvancedIsUpdate(floors, f, vault.binding);
    activated := vault.Activate(state, generation, revision, Filed, Done);
  }

  lemma RaisedFloorIsValid(f: Floor)
    requires FloorStore.ValidBinding(f.binding) && ValidWatermarks(f.marks.watermarks)
    ensures FloorStore.ValidFloor(f)
  {
  }
}
