/**
 The descriptor floor of one text context: per target, the newest accepted publication generation and descriptor
 revision, the latest end of authority seen for that generation, and whether conflicting branches were seen.
 Digests are collision-free, so a digest is the value it was taken of.
 */
module DescriptorFloor {
  import opened Common
  import opened FiniteSets

  type Target = nat

  /** The publication a descriptor proves: credential generation and validity; `body` is everything else. */
  datatype Publication = Publication(generation: nat, notBefore: int, notAfter: int, body: nat)

  datatype Descriptor = Descriptor(publication: Publication, revision: nat, body: nat)

  datatype Floor = Floor(generation: nat, revision: nat, publication: Publication, descriptor: Descriptor, notAfter: int,
                         publicationConflict: bool, revisionConflict: bool)

  const MAXIMUM_TARGETS := 128

  /** What VerifyPrivate lets through has a validity that is not empty. */
  predicate Verified(d: Descriptor) {
    d.publication.notBefore < d.publication.notAfter
  }

  function FloorOf(d: Descriptor): Floor {
    Floor(d.publication.generation, d.revision, d.publication, d, d.publication.notAfter, false, false)
  }

  // ---------- everything ever seen of one target ----------

  /** A verified descriptor, whether it was accepted, and whether it was of the generation held then (or became it). */
  datatype Seen = Seen(descriptor: Descriptor, accepted: bool, branch: bool)

  /** Of two accepted descriptors the later one is newer, or the same; generations are never valid together. */
  predicate Follows(a: Descriptor, b: Descriptor) {
    || (a.publication.generation < b.publication.generation && a.publication.notAfter <= b.publication.notBefore)
    || (a.publication == b.publication && a.revision < b.revision)
    || a == b
  }

  /** Two branches of one generation, or two descriptors of one revision. */
  predicate Conflict(a: Descriptor, b: Descriptor) {
    && a.publication.generation == b.publication.generation
    && (a.publication != b.publication || (a.revision == b.revision && a != b))
  }

  /** What a newly accepted descriptor owes to everything seen before it. */
  predicate Respects(before: Seen, d: Descriptor) {
    && (before.accepted ==> Follows(before.descriptor, d))
    && (before.branch ==>
          && !Conflict(before.descriptor, d)
          && (before.descriptor.publication.generation < d.publication.generation ==>
                before.descriptor.publication.notAfter <= d.publication.notBefore))
  }

  predicate Orderly(seen: seq<Seen>) {
    forall i, j :: 0 <= i < j < |seen| && seen[j].accepted ==> Respects(seen[i], seen[j].descriptor)
  }

  /** What the floor still knows of one thing seen. */
  predicate Remembers(f: Floor, e: Seen) {
    && (e.accepted ==> Follows(e.descriptor, f.descriptor))
    && (e.branch ==>
          && e.descriptor.publication.notAfter <= f.notAfter
          && e.descriptor.publication.generation <= f.generation
          && (e.descriptor.publication.generation < f.generation ==>
                e.descriptor.publication.notAfter <= f.publication.notBefore)
          && (e.descriptor.publication.generation == f.generation && !f.publicationConflict ==>
                && e.descriptor.publication == f.publication
                && e.descriptor.revision <= f.revision
                && (e.descriptor.revision == f.revision && !f.revisionConflict ==> e.descriptor == f.descriptor)))
  }

  predicate WellMade(f: Floor) {
    && f.generation == f.publication.generation && f.revision == f.descriptor.revision
    && f.publication == f.descriptor.publication && f.publication.notAfter <= f.notAfter && Verified(f.descriptor)
  }

  predicate Tracks(floor: Option<Floor>, seen: seq<Seen>) {
    && Orderly(seen)
    && (floor.None? ==> forall e <- seen :: !e.accepted && !e.branch)
    && (floor.Some? ==> WellMade(floor.value) && forall e <- seen :: Remembers(floor.value, e))
  }

  // ---------- one acceptance ----------

  predicate Accepts(floor: Option<Floor>, d: Descriptor) {
    match floor
    case None => true
    case Some(f) =>
      || (d.publication.generation > f.generation && d.publication.notBefore >= f.notAfter)
      || (d.publication == f.publication && !f.publicationConflict
          && (d.revision > f.revision || (d == f.descriptor && !f.revisionConflict)))
  }

  /** The floor after a descriptor was seen: replaced if accepted, else marked with the conflict it shows. */
  function After(floor: Option<Floor>, d: Descriptor): Option<Floor> {
    if Accepts(floor, d) then Some(FloorOf(d))
    else if floor.None? || d.publication.generation != floor.value.generation then floor
    else
      var f := floor.value;
      if d.publication != f.publication then
        Some(f.(publicationConflict := true,
                notAfter := if d.publication.notAfter > f.notAfter then d.publication.notAfter else f.notAfter))
      else if !f.publicationConflict && d.revision == f.revision && d != f.descriptor then Some(f.(revisionConflict := true))
      else floor
  }

  function Sight(floor: Option<Floor>, d: Descriptor): Seen {
    Seen(d, Accepts(floor, d), Accepts(floor, d) || (floor.Some? && d.publication.generation == floor.value.generation))
  }

  lemma Accepted(floor: Option<Floor>, seen: seq<Seen>, d: Descriptor, e: Seen)
    requires Tracks(floor, seen) && Verified(d) && Accepts(floor, d) && e in seen
    ensures Respects(e, d) && Remembers(FloorOf(d), e)
  {
    if floor.Some? { assert Remembers(floor.value, e); }
  }

  lemma Refused(f: Floor, d: Descriptor, e: Seen)
    requires WellMade(f) && Verified(d) && !Accepts(Some(f), d) && Remembers(f, e)
    ensures Remembers(After(Some(f), d).value, e)
  {
  }

  lemma Step(floor: Option<Floor>, seen: seq<Seen>, d: Descriptor)
    requires Tracks(floor, seen) && Verified(d)
    ensures Tracks(After(floor, d), seen + [Sight(floor, d)])
  {
    var next := seen + [Sight(floor, d)];
    if Accepts(floor, d) {
      forall e | e in seen ensures Respects(e, d) && Remembers(FloorOf(d), e) { Accepted(floor, seen, d, e); }
      assert forall i :: 0 <= i < |seen| ==> next[i] == seen[i];
    } else if floor.Some? {
      forall e | e in seen ensures Remembers(After(floor, d).value, e) { Refused(floor.value, d, e); }
      assert Remembers(After(floor, d).value, Sight(floor, d));
    }
  }

  // ---------- all targets ----------

  function Lookup(floors: map<Target, Floor>, t: Target): Option<Floor> {
    if t in floors then Some(floors[t]) else None
  }

  predicate HasRoom(floors: map<Target, Floor>, t: Target) {
    t in floors || |floors| < MAXIMUM_TARGETS
  }

  /** What verification made of the raw bytes presented for a target. */
  type Presented = (Target, Option<Descriptor>)

  predicate Genuine(presented: seq<Presented>) {
    forall p <- presented :: p.1.Some? ==> Verified(p.1.value)
  }

  /** The presentation was verified and its target has a floor or room for one. */
  predicate Noticed(floors: map<Target, Floor>, p: Presented) {
    p.1.Some? && HasRoom(floors, p.0)
  }

  function Next(floors: map<Target, Floor>, p: Presented): (next: map<Target, Floor>)
    ensures floors.Keys <= next.Keys
    ensures forall t :: Lookup(next, t) == if t == p.0 && Noticed(floors, p) then After(Lookup(floors, t), p.1.value)
                                           else Lookup(floors, t)
  {
    if Noticed(floors, p) then floors[p.0 := After(Lookup(floors, p.0), p.1.value).value] else floors
  }

  /** The floors that a history of presentations leaves. */
  function Floors(presented: seq<Presented>): map<Target, Floor> {
    if presented == [] then map[]
    else
      var last := |presented| - 1;
      Next(Floors(presented[..last]), presented[last])
  }

  /** What a history shows of one target. */
  function Sights(presented: seq<Presented>, t: Target): seq<Seen> {
    if presented == [] then []
    else
      var last := |presented| - 1;
      var floors := Floors(presented[..last]);
      Sights(presented[..last], t)
      + if presented[last].0 == t && Noticed(floors, presented[last]) then [Sight(Lookup(floors, t), presented[last].1.value)]
        else []
  }

  lemma {:induction false} FloorsTrack(presented: seq<Presented>, t: Target)
    requires Genuine(presented)
    ensures Tracks(Lookup(Floors(presented), t), Sights(presented, t))
  {
    if presented != [] {
      var last := |presented| - 1;
      FloorsTrack(presented[..last], t);
      var floors, p := Floors(presented[..last]), presented[last];
      hide Tracks, After, Accepts;
      if t == p.0 && Noticed(floors, p) { Step(Lookup(floors, t), Sights(presented[..last], t), p.1.value); }
    }
  }

  /** The presentation at a place, as the floors of that moment see it. */
  predicate NoticedAt(presented: seq<Presented>, i: nat)
    requires i < |presented|
  {
    Noticed(Floors(presented[..i]), presented[i])
  }

  function SightAt(presented: seq<Presented>, i: nat): Seen
    requires i < |presented| && presented[i].1.Some?
  {
    Sight(Lookup(Floors(presented[..i]), presented[i].0), presented[i].1.value)
  }

  predicate AcceptedAt(presented: seq<Presented>, i: nat)
    requires i < |presented|
  {
    NoticedAt(presented, i) && SightAt(presented, i).accepted
  }

  lemma {:induction false} PlaceOf(presented: seq<Presented>, i: nat, n: nat)
    requires i < n <= |presented| && NoticedAt(presented, i)
    ensures var t, place := presented[i].0, |Sights(presented[..i], presented[i].0)|;
            place < |Sights(presented[..n], t)| && Sights(presented[..n], t)[place] == SightAt(presented, i)
  {
    hide Sight, Noticed, Floors;
    assert presented[..n][..n - 1] == presented[..n - 1];
    if i < n - 1 { PlaceOf(presented, i, n - 1); }
  }

  /**
   What is accepted for a target respects everything noticed of it before: it follows what was accepted, and neither
   conflicts with a branch seen of the generation then held nor is valid together with one it supersedes.
   */
  lemma AcceptedRespects(presented: seq<Presented>, i: nat, j: nat)
    requires Genuine(presented) && i < j < |presented| && presented[i].0 == presented[j].0
    requires NoticedAt(presented, i) && AcceptedAt(presented, j)
    ensures Respects(SightAt(presented, i), presented[j].1.value)
  {
    hide Respects, Noticed, Floors, Sights, Accepts;
    var t := presented[j].0;
    FloorsTrack(presented[..j + 1], t);
    PlaceOf(presented, i, j);
    PlaceOf(presented, i, j + 1);
    PlaceOf(presented, j, j + 1);
  }

  // ---------- what is accepted ----------

  /** Everything the floor says was seen: what it holds, the latest end, and the conflicts. */
  predicate Grounded(floor: Option<Floor>, seen: seq<Seen>) {
    floor.Some? ==>
      var f := floor.value;
      && (exists e <- seen :: e.accepted && e.branch && e.descriptor == f.descriptor)
      && (exists e <- seen :: e.branch && e.descriptor.publication.generation == f.generation
                              && e.descriptor.publication.notAfter == f.notAfter)
      && (f.publicationConflict ==>
            exists e <- seen :: e.branch && e.descriptor.publication.generation == f.generation
                                && e.descriptor.publication != f.publication)
      && (f.revisionConflict ==>
            exists e <- seen :: e.branch && e.descriptor.publication == f.publication && e.descriptor.revision == f.revision
                                && e.descriptor != f.descriptor)
  }

  lemma GroundedStep(floor: Option<Floor>, seen: seq<Seen>, d: Descriptor)
    requires Tracks(floor, seen) && Grounded(floor, seen) && Verified(d)
    ensures Grounded(After(floor, d), seen + [Sight(floor, d)])
  {
    var next, e := seen + [Sight(floor, d)], Sight(floor, d);
    assert next[|seen|] == e && forall i :: 0 <= i < |seen| ==> next[i] == seen[i];
    assert e in next;
    assert forall x <- seen :: x in next;
    hide Tracks;
  }

  /** The floor lets a descriptor through exactly if it respects all that was seen. */
  lemma Decides(floor: Option<Floor>, seen: seq<Seen>, d: Descriptor)
    requires Tracks(floor, seen) && Grounded(floor, seen) && Verified(d)
    ensures Accepts(floor, d) <==> forall e <- seen :: Respects(e, d)
  {
    if Accepts(floor, d) {
      forall e <- seen ensures Respects(e, d) { Accepted(floor, seen, d, e); }
    } else {
      RefusedFor(floor.value, seen, d);
    }
  }

  lemma RefusedFor(f: Floor, seen: seq<Seen>, d: Descriptor)
    requires WellMade(f) && Grounded(Some(f), seen) && !Accepts(Some(f), d)
    ensures exists e <- seen :: !Respects(e, d)
  {
    var held :| held in seen && held.accepted && held.branch && held.descriptor == f.descriptor;
    if Respects(held, d) {
      if d.publication.generation > f.generation {
        var e :| e in seen && e.branch && e.descriptor.publication.generation == f.generation
                 && e.descriptor.publication.notAfter == f.notAfter;
        assert !Respects(e, d);
      } else if f.publicationConflict {
        var e :| e in seen && e.branch && e.descriptor.publication.generation == f.generation
                 && e.descriptor.publication != f.publication;
        assert !Respects(e, d);
      } else {
        var e :| e in seen && e.branch && e.descriptor.publication == f.publication && e.descriptor.revision == f.revision
                 && e.descriptor != f.descriptor;
        assert !Respects(e, d);
      }
    }
  }

  lemma {:induction false} FloorsGrounded(presented: seq<Presented>, t: Target)
    requires Genuine(presented)
    ensures Grounded(Lookup(Floors(presented), t), Sights(presented, t))
  {
    if presented != [] {
      var last := |presented| - 1;
      FloorsGrounded(presented[..last], t);
      FloorsTrack(presented[..last], t);
      var floors, p := Floors(presented[..last]), presented[last];
      hide Tracks, After, Accepts, Grounded;
      if t == p.0 && Noticed(floors, p) { GroundedStep(Lookup(floors, t), Sights(presented[..last], t), p.1.value); }
    }
  }

  lemma {:induction false} SightsFrom(presented: seq<Presented>, t: Target, n: nat, e: Seen)
    requires n <= |presented| && e in Sights(presented[..n], t)
    ensures exists i :: 0 <= i < n && presented[i].0 == t && NoticedAt(presented, i) && e == SightAt(presented, i)
  {
    hide Sight, HasRoom, Floors;
    assert n > 0 && presented[..n][..n - 1] == presented[..n - 1];
    if e in Sights(presented[..n - 1], t) {
      SightsFrom(presented, t, n - 1, e);
    } else {
      assert NoticedAt(presented, n - 1) && e == SightAt(presented, n - 1);
    }
  }

  /** In any history, what is accepted is exactly what respects everything noticed of its target before. */
  lemma AcceptedExactly(presented: seq<Presented>, j: nat)
    requires Genuine(presented) && j < |presented| && NoticedAt(presented, j)
    ensures AcceptedAt(presented, j)
            <==> forall i | 0 <= i < j && presented[i].0 == presented[j].0 && NoticedAt(presented, i) ::
                   Respects(SightAt(presented, i), presented[j].1.value)
  {
    hide Respects, HasRoom, Floors, Sights, Accepts, Tracks, Grounded;
    var t, d := presented[j].0, presented[j].1.value;
    assert presented[j] in presented;
    FloorsTrack(presented[..j], t);
    FloorsGrounded(presented[..j], t);
    Decides(Lookup(Floors(presented[..j]), t), Sights(presented[..j], t), d);
    forall e <- Sights(presented[..j], t)
      ensures exists i :: 0 <= i < j && presented[i].0 == t && NoticedAt(presented, i) && e == SightAt(presented, i)
    {
      SightsFrom(presented, t, j, e);
    }
    forall i | 0 <= i < j && presented[i].0 == t && NoticedAt(presented, i)
      ensures SightAt(presented, i) in Sights(presented[..j], t)
    {
      PlaceOf(presented, i, j);
    }
  }

  /**
   A descriptor is accepted if, of everything presented for its target before, each is of an older generation that ended
   by its start, or of the same publication with a lower revision, or is the same descriptor.
   */
  lemma NewerIsAccepted(presented: seq<Presented>, j: nat)
    requires Genuine(presented) && j < |presented| && NoticedAt(presented, j)
    requires forall i :: 0 <= i < j && presented[i].0 == presented[j].0 && presented[i].1.Some? ==>
               var a, b := presented[i].1.value, presented[j].1.value;
               || (a.publication.generation < b.publication.generation && a.publication.notAfter <= b.publication.notBefore)
               || (a.publication == b.publication && a.revision < b.revision)
               || a == b
    ensures AcceptedAt(presented, j)
  {
    AcceptedExactly(presented, j);
    hide Floors;
  }

  /** A verified descriptor is noticed if it is among the first 128 targets presented. */
  lemma FewAreNoticed(presented: seq<Presented>, j: nat)
    requires j < |presented| && presented[j].1.Some? && |set i | 0 <= i < j :: presented[i].0| < 128
    ensures NoticedAt(presented, j)
  {
    FloorsAmong(presented, j);
    SubsetSize(Floors(presented[..j]).Keys, set i | 0 <= i < j :: presented[i].0);
  }

  lemma {:induction false} FloorsAmong(presented: seq<Presented>, n: nat)
    requires n <= |presented|
    ensures Floors(presented[..n]).Keys <= set i | 0 <= i < n :: presented[i].0
  {
    if n > 0 {
      FloorsAmong(presented, n - 1);
      assert presented[..n][..n - 1] == presented[..n - 1];
      hide After;
      var floors, p := Floors(presented[..n - 1]), presented[n - 1];
      forall t | t in Next(floors, p).Keys ensures t in set i | 0 <= i < n :: presented[i].0 {
        if t in floors { assert t in set i | 0 <= i < n - 1 :: presented[i].0; }
      }
    }
  }

  // ---------- the context ----------

  class Context {
    var floors: map<Target, Floor>

    predicate Valid()
      reads this
    {
      |floors| <= MAXIMUM_TARGETS && forall t <- floors :: WellMade(floors[t])
    }

    constructor ()
      ensures Valid() && floors == map[]
    {
      floors := map[];
    }

    /**
     acceptTextDescriptorLocked. A verified descriptor is accepted exactly if its target has room and its floor lets
     it through; no other target is touched and none is ever dropped.
     */
    method Accept(t: Target, presented: Option<Descriptor>) returns (ok: bool)
      requires Valid() && (presented.Some? ==> Verified(presented.value))
      modifies this
      ensures Valid() && floors == Next(old(floors), (t, presented))
      ensures ok <==> presented.Some? && HasRoom(old(floors), t) && Accepts(Lookup(old(floors), t), presented.value)
    {
      hide Accepts, After;
      if presented.None? || (t !in floors && |floors| >= MAXIMUM_TARGETS) { return false; }
      var candidate := presented.value;
      var next;
      if t in floors {
        next, ok := Judge(floors[t], candidate);
      } else {
        First(candidate);
        next, ok := FloorOf(candidate), true;
      }
      floors := floors[t := next];
    }
  }

  lemma First(d: Descriptor)
    ensures Accepts(None, d) && After(None, d) == Some(FloorOf(d))
  {
  }

  /** The branches on an existing floor: what it becomes, and whether the candidate is accepted. */
  method Judge(floor: Floor, candidate: Descriptor) returns (next: Floor, ok: bool)
    requires WellMade(floor)
    ensures ok <==> Accepts(Some(floor), candidate)
    ensures After(Some(floor), candidate) == Some(next)
    ensures Verified(candidate) ==> WellMade(next)
  {
    var prior, generation := floor, candidate.publication.generation;
    if generation < prior.generation { return prior, false; }
    if generation > prior.generation {
      if candidate.publication.notBefore < prior.notAfter { return prior, false; }
    } else {
      if candidate.publication != prior.publication {
        prior := prior.(publicationConflict := true);
        if candidate.publication.notAfter > prior.notAfter {
          prior := prior.(notAfter := candidate.publication.notAfter);
        }
      }
      if prior.publicationConflict { return prior, false; }
      if candidate.revision < prior.revision { return prior, false; }
      if candidate.revision == prior.revision {
        if candidate != prior.descriptor { prior := prior.(revisionConflict := true); }
        if prior.revisionConflict { return prior, false; }
      }
    }
    return FloorOf(candidate), true;
  }

  /**
   Any run: the floors are what the presentations make them, what is accepted for a target respects all that was seen
   of it before, and no target ever loses its floor.
   */
  method Run(presented: seq<Presented>) returns (context: Context, accepted: seq<bool>)
    requires Genuine(presented)
    ensures fresh(context) && context.Valid() && |accepted| == |presented| && context.floors == Floors(presented)
    ensures forall i :: 0 <= i < |presented| ==> accepted[i] == AcceptedAt(presented, i)
    ensures forall i, j | 0 <= i < j < |presented| && presented[i].0 == presented[j].0 ::
              NoticedAt(presented, i) && AcceptedAt(presented, j) ==> Respects(SightAt(presented, i), presented[j].1.value)
    ensures forall i :: 0 <= i < |presented| && accepted[i] ==> presented[i].0 in context.floors
  {
    hide Respects, Accepts, Floors, Next, WellMade, AcceptedAt, NoticedAt, SightAt;
    context := new Context();
    accepted := [];
    assert Floors(presented[..0]) == map[] by { Nothing(); }
    for n := 0 to |presented|
      invariant fresh(context) && context.Valid() && |accepted| == n && context.floors == Floors(presented[..n])
      invariant forall i :: 0 <= i < n ==> accepted[i] == AcceptedAt(presented, i)
      invariant forall i :: 0 <= i < n && accepted[i] ==> presented[i].0 in context.floors
    {
      var (t, descriptor) := presented[n];
      assert presented[n] in presented;
      StepAt(presented, n);
      var ok := context.Accept(t, descriptor);
      accepted := accepted + [ok];
    }
    assert presented[..|presented|] == presented;
    AllRespect(presented);
  }

  lemma AllRespect(presented: seq<Presented>)
    requires Genuine(presented)
    ensures forall i, j | 0 <= i < j < |presented| && presented[i].0 == presented[j].0 ::
              NoticedAt(presented, i) && AcceptedAt(presented, j) ==> Respects(SightAt(presented, i), presented[j].1.value)
  {
    hide Respects, Floors, SightAt;
    forall i, j | 0 <= i < j < |presented| && presented[i].0 == presented[j].0
                  && NoticedAt(presented, i) && AcceptedAt(presented, j)
      ensures Respects(SightAt(presented, i), presented[j].1.value)
    {
      AcceptedRespects(presented, i, j);
    }
  }

  lemma Nothing()
    ensures Floors([]) == map[]
  {
  }

  lemma StepAt(presented: seq<Presented>, n: nat)
    requires n < |presented|
    ensures var floors, p := Floors(presented[..n]), presented[n];
            && Floors(presented[..n + 1]) == Next(floors, p) && floors.Keys <= Next(floors, p).Keys
            && (AcceptedAt(presented, n) <==> p.1.Some? && HasRoom(floors, p.0) && Accepts(Lookup(floors, p.0), p.1.value))
            && (AcceptedAt(presented, n) ==> p.0 in Next(floors, p))
  {
    hide Accepts, After;
    assert presented[..n + 1][..n] == presented[..n];
  }
}
