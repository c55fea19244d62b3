/**
 The alpha-control reader: it inspects signed catalogs against a floor, writes the next floor to its file before it
 adopts it, and reads the file again when it is reopened. A floor is written to a temporary beside the file and renamed,
 and a root that holds such a temporary is not opened again. Signatures and digests are decided outside the model: a
 catalog comes verified or not at all, together with the digest of its bytes.
 */
module AlphaReader {
  import opened Common
  import opened BigEndian
  import opened AlphaCatalog

  datatype ComponentFloor = ComponentFloor(generation: nat, digest: nat)

  datatype Floor = Floor(generation: nat, digest: nat, components: seq<ComponentFloor>)

  const EMPTY := Floor(0, 0, [ComponentFloor(0, 0), ComponentFloor(0, 0), ComponentFloor(0, 0)])

  datatype Outcome = Accepted | Unavailable | DigestMismatch | Expired | Refused

  /** Component bytes as supplied: their length, their digest, and what the component's own verifiers say of them. */
  datatype Supplied = Supplied(size: nat, digest: nat, verdict: Outcome)

  datatype Verified = Verified(catalog: Catalog, digest: nat)

  // ---------- one inspection ----------

  /** validateFloor. */
  predicate Allowed(input: Verified, prior: Floor)
    requires |input.catalog.components| == |prior.components| == 3
  {
    prior.generation != 0 ==>
      && input.catalog.generation >= prior.generation
      && (input.catalog.generation == prior.generation ==> input.digest == prior.digest)
      && (input.catalog.generation > prior.generation ==> input.catalog.previous == prior.digest)
      && forall i :: 0 <= i < 3 && prior.components[i].generation != 0 ==>
           && input.catalog.components[i].generation >= prior.components[i].generation
           && (input.catalog.components[i].generation == prior.components[i].generation ==>
                 input.catalog.components[i].digest == prior.components[i].digest)
  }

  function OutcomeOf(k: Component, supplied: Option<Supplied>, at: int): Outcome {
    if supplied.None? || supplied.value.size == 0 then Unavailable
    else if supplied.value.size != k.size || supplied.value.digest != k.digest then DigestMismatch
    else if at >= Instant(k.notAfter) then Expired
    else supplied.value.verdict
  }

  /** What was supplied is what the catalog lists, it has not expired, and the component's own verifiers take it. */
  predicate Genuine(k: Component, supplied: Option<Supplied>, at: int) {
    supplied == Some(Supplied(k.size, k.digest, Accepted)) && k.size > 0 && at < Instant(k.notAfter)
  }

  /** Accepted is exactly what is genuine; what differs from the catalog, or comes late, is told apart. */
  lemma AcceptedIsGenuine(k: Component, supplied: Option<Supplied>, at: int)
    ensures OutcomeOf(k, supplied, at) == Accepted <==> Genuine(k, supplied, at)
  {
  }

  function NextComponent(k: Component, supplied: Option<Supplied>, at: int, prior: ComponentFloor): ComponentFloor {
    if OutcomeOf(k, supplied, at) == Accepted then ComponentFloor(k.generation, k.digest) else prior
  }

  /** The catalog was signed and decoded: valid, three components, a digest of 32 bytes. */
  predicate Usable(input: Verified) {
    Fits(input.catalog) && Valid(input.catalog, V1) && input.digest < Span(32)
  }

  /** The last test of Verify: a clock that is set, within the validity of the catalog. */
  predicate Current(input: Verified, at: int) {
    at != 0 && Instant(input.catalog.notBefore) <= at < Instant(input.catalog.notAfter)
  }

  /**
   The function Inspect. The floor moves exactly if the catalog is signed, current and allowed; each component moves if
   accepted.
   */
  method Examine(input: Option<Verified>, supplied: seq<Option<Supplied>>, at: int, prior: Floor)
    returns (outcomes: Option<seq<Outcome>>, next: Floor)
    requires (input.Some? ==> Usable(input.value)) && |supplied| == |prior.components| == 3
    ensures outcomes.Some? <==> input.Some? && Current(input.value, at) && Allowed(input.value, prior)
    ensures outcomes.None? ==> next == prior
    ensures outcomes.Some? ==>
              && next.generation == input.value.catalog.generation && next.digest == input.value.digest
              && |next.components| == |outcomes.value| == 3
              && forall i :: 0 <= i < 3 ==>
                   && outcomes.value[i] == OutcomeOf(input.value.catalog.components[i], supplied[i], at)
                   && next.components[i] == NextComponent(input.value.catalog.components[i], supplied[i], at, prior.components[i])
  {
    hide Fits;
    if input.None? || !Current(input.value, at) || !Allowed(input.value, prior) { return None, prior; }
    var catalog := input.value.catalog;
    var results: seq<Outcome> := [];
    var components: seq<ComponentFloor> := [];
    for index := 0 to 3
      invariant |results| == |components| == index
      invariant forall i :: 0 <= i < index ==>
                  && results[i] == OutcomeOf(catalog.components[i], supplied[i], at)
                  && components[i] == NextComponent(catalog.components[i], supplied[i], at, prior.components[i])
    {
      var outcome := OutcomeOf(catalog.components[index], supplied[index], at);
      results := results + [outcome];
      if outcome == Accepted {
        components := components + [ComponentFloor(catalog.components[index].generation, catalog.components[index].digest)];
      } else {
        components := components + [prior.components[index]];
      }
    }
    return Some(results), Floor(catalog.generation, input.value.digest, components);
  }

  // ---------- the floor file ----------

  const FLOOR_SIZE := 165

  /** "ACF1" and 1. */
  const FLOOR_MAGIC: seq<Byte> := [0x41, 0x43, 0x46, 0x31, 1]

  predicate FloorFits(f: Floor) {
    && |f.components| == 3 && f.generation < Span(8) && f.digest < Span(32)
    && forall i :: 0 <= i < 3 ==> f.components[i].generation < Span(8) && f.components[i].digest < Span(32)
  }

  /** What readFloor takes for consistent. */
  predicate Consistent(f: Floor) {
    && |f.components| == 3
    && (f.generation == 0 ==> f == EMPTY)
    && forall i :: 0 <= i < 3 ==> (f.components[i].generation == 0 <==> f.components[i].digest == 0)
  }

  /** A generation and a digest, as both the catalog and a component are written. */
  function Pair(generation: nat, digest: nat): (b: seq<Byte>)
    requires generation < Span(8) && digest < Span(32)
    ensures |b| == 40
  {
    Bytes(generation, 8) + Bytes(digest, 32)
  }

  function Written(f: Floor): (b: seq<Byte>)
    requires FloorFits(f)
    ensures |b| == FLOOR_SIZE
  {
    FLOOR_MAGIC + Pair(f.generation, f.digest) + Pair(f.components[0].generation, f.components[0].digest)
    + Pair(f.components[1].generation, f.components[1].digest) + Pair(f.components[2].generation, f.components[2].digest)
  }

  function ReadPair(b: seq<Byte>): ComponentFloor
    requires |b| == 40
  {
    ComponentFloor(Number(b[..8]), Number(b[8..]))
  }

  function ReadBack(raw: seq<Byte>): Floor
    requires |raw| == FLOOR_SIZE
  {
    var catalog := ReadPair(raw[5..45]);
    Floor(catalog.generation, catalog.digest, [ReadPair(raw[45..85]), ReadPair(raw[85..125]), ReadPair(raw[125..165])])
  }

  lemma PairReads(generation: nat, digest: nat)
    requires generation < Span(8) && digest < Span(32)
    ensures ReadPair(Pair(generation, digest)) == ComponentFloor(generation, digest)
  {
    hide Span, Number, Bytes;
    var b := Pair(generation, digest);
    assert b[..8] == Bytes(generation, 8) && b[8..] == Bytes(digest, 32);
    NumberOfBytes(generation, 8);
    NumberOfBytes(digest, 32);
  }

  /** readFloor; no file is the empty floor. */
  method ReadFloor(file: Option<seq<Byte>>) returns (floor: Option<Floor>)
    ensures file.None? ==> floor == Some(EMPTY)
    ensures file.Some? ==> (floor.Some? <==> && |file.value| == FLOOR_SIZE && file.value[..5] == FLOOR_MAGIC
                                              && Consistent(ReadBack(file.value)))
    ensures file.Some? && floor.Some? ==> floor.value == ReadBack(file.value)
  {
    if file.None? { return Some(EMPTY); }
    var raw := file.value;
    if |raw| != FLOOR_SIZE || raw[..5] != FLOOR_MAGIC { return None; }
    hide ReadPair;
    var components: seq<ComponentFloor> := [];
    for index := 0 to 3
      invariant |components| == index
      invariant forall i :: 0 <= i < index ==> components[i] == ReadPair(raw[45 + 40 * i..85 + 40 * i])
    {
      components := components + [ReadPair(raw[45 + 40 * index..85 + 40 * index])];
    }
    var catalog := ReadPair(raw[5..45]);
    var result := Floor(catalog.generation, catalog.digest, components);
    assert components == [ReadPair(raw[45..85]), ReadPair(raw[85..125]), ReadPair(raw[125..165])];
    return if Consistent(result) then Some(result) else None;
  }

  /** Reading gives back exactly what was written. */
  lemma FloorReads(f: Floor)
    requires FloorFits(f)
    ensures Written(f)[..5] == FLOOR_MAGIC && ReadBack(Written(f)) == f
  {
    hide Span, Pair, ReadPair;
    var b, c := Written(f), f.components;
    assert b[5..45] == Pair(f.generation, f.digest) && b[45..85] == Pair(c[0].generation, c[0].digest);
    assert b[85..125] == Pair(c[1].generation, c[1].digest) && b[125..165] == Pair(c[2].generation, c[2].digest);
    PairReads(f.generation, f.digest);
    PairReads(c[0].generation, c[0].digest);
    PairReads(c[1].generation, c[1].digest);
    PairReads(c[2].generation, c[2].digest);
    assert c == [c[0], c[1], c[2]];
  }

  // ---------- the reader ----------

  /** A floor and the predecessor named by the catalog that made it. */
  datatype Hold = Hold(floor: Floor, previous: nat)

  /** Nothing falls, and one generation has one digest. */
  predicate Rises(p: Floor, n: Floor) {
    && |p.components| == |n.components| == 3
    && p.generation <= n.generation && (p.generation == n.generation ==> p.digest == n.digest)
    && forall i :: 0 <= i < 3 ==>
         && p.components[i].generation <= n.components[i].generation
         && (p.components[i].generation == n.components[i].generation ==> p.components[i] == n.components[i])
  }

  /** A strict advance names the digest held before. */
  predicate Links(p: Hold, n: Hold) {
    && Rises(p.floor, n.floor)
    && (0 < p.floor.generation < n.floor.generation ==> n.previous == p.floor.digest)
  }

  predicate Linked(held: seq<Hold>) {
    forall i :: 0 < i < |held| ==> Links(held[i - 1], held[i])
  }

  lemma {:induction false} RisesThroughout(held: seq<Hold>, i: nat, j: nat)
    requires Linked(held) && i < j < |held|
    ensures Rises(held[i].floor, held[j].floor)
  {
    if i < j - 1 {
      RisesThroughout(held, i, j - 1);
      assert Links(held[j - 1], held[j]);
    }
  }

  predicate Keeps(f: Floor) {
    FloorFits(f) && Consistent(f)
  }

  /** What an allowed inspection makes of a floor. */
  predicate Makes(input: Verified, supplied: seq<Option<Supplied>>, at: int, prior: Floor, next: Floor)
    requires |input.catalog.components| == |prior.components| == |supplied| == 3
  {
    && next.generation == input.catalog.generation && next.digest == input.digest && |next.components| == 3
    && forall i :: 0 <= i < 3 ==>
         next.components[i] == NextComponent(input.catalog.components[i], supplied[i], at, prior.components[i])
  }

  lemma MadeLinks(input: Verified, supplied: seq<Option<Supplied>>, at: int, prior: Hold, next: Floor)
    requires Usable(input) && |supplied| == 3 && Keeps(prior.floor) && Allowed(input, prior.floor)
    requires Makes(input, supplied, at, prior.floor, next)
    ensures Keeps(next) && Links(prior, Hold(next, input.catalog.previous))
  {
    hide Span, Instant;
    forall i | 0 <= i < 3
      ensures next.components[i].generation < Span(8) && next.components[i].digest < Span(32)
      ensures next.components[i].generation == 0 <==> next.components[i].digest == 0
      ensures prior.floor.components[i].generation <= next.components[i].generation
      ensures prior.floor.components[i].generation == next.components[i].generation ==>
                prior.floor.components[i] == next.components[i]
    {
      assert ValidComponent(input.catalog.components[i], i, input.catalog.notAfter);
      assert input.catalog.components[i] in input.catalog.components;
    }
  }

  /** Where in writeFloor the process died: before the temporary, with the temporary there, or after the rename. */
  datatype Death = Before | Within | Renamed

  /** How writeFloor ended: synced, renamed without being synced, given up with the temporary still there or not, or never. */
  datatype Publication = Synced | Unsynced | GivenUp(kept: bool) | Died(death: Death)

  /** The file holds the new floor. */
  predicate Lands(write: Publication) {
    write.Synced? || write.Unsynced? || write == Died(Renamed)
  }

  /** The temporary is still there. */
  predicate Leaves(write: Publication) {
    write == GivenUp(true) || write == Died(Within)
  }

  /**
   The catalog and the components accepted with it neither fall below what a file holds nor fork it, and where no
   component is accepted the file holds what the reader goes by.
   */
  predicate Extends(input: Verified, supplied: seq<Option<Supplied>>, at: int, prior: Floor, file: Floor)
    requires |input.catalog.components| == |prior.components| == |file.components| == |supplied| == 3
  {
    && input.catalog.generation >= file.generation
    && (input.catalog.generation == file.generation ==> input.digest == file.digest)
    && forall i :: 0 <= i < 3 ==>
         var k := input.catalog.components[i];
         if OutcomeOf(k, supplied[i], at) == Accepted
         then k.generation >= file.components[i].generation
              && (k.generation == file.components[i].generation ==> k.digest == file.components[i].digest)
         else file.components[i] == prior.components[i]
  }

  /** Exactly then the floor that is made follows the one in the file. */
  lemma FollowsFileExactly(input: Verified, supplied: seq<Option<Supplied>>, at: int, prior: Floor, file: Floor, next: Floor)
    requires |input.catalog.components| == |supplied| == 3 && Rises(prior, file) && Makes(input, supplied, at, prior, next)
    ensures Rises(file, next) <==> Extends(input, supplied, at, prior, file)
  {
    hide OutcomeOf;
    forall i | 0 <= i < 3
      ensures var k, f, n := input.catalog.components[i], file.components[i], next.components[i];
              f.generation <= n.generation && (f.generation == n.generation ==> f == n)
              <==> if OutcomeOf(k, supplied[i], at) == Accepted
                   then k.generation >= f.generation && (k.generation == f.generation ==> k.digest == f.digest)
                   else f == prior.components[i]
    {
      assert next.components[i] == NextComponent(input.catalog.components[i], supplied[i], at, prior.components[i]);
    }
  }

  /** What the reader allows always follows its own floor, so a file that holds it is not forked. */
  lemma AllowedExtendsOwn(input: Verified, supplied: seq<Option<Supplied>>, at: int, prior: Floor)
    requires Usable(input) && |supplied| == 3 && Keeps(prior) && Allowed(input, prior)
    ensures Extends(input, supplied, at, prior, prior)
  {
    hide Span, Instant, OutcomeOf;
    forall i | 0 <= i < 3 ensures input.catalog.components[i].generation > 0 {
      assert ValidComponent(input.catalog.components[i], i, input.catalog.notAfter);
    }
  }

  class Reader {
    var file: Option<seq<Byte>>
    var leftover: bool
    var live: bool
    var floor: Floor

    /** Every floor the reader went by, and what the file holds. */
    ghost var held: seq<Hold>
    ghost var disk: Hold

    ghost predicate Valid()
      reads this
    {
      && Keeps(floor) && held != [] && held[|held| - 1].floor == floor && Linked(held)
      && Keeps(disk.floor) && (disk == held[|held| - 1] || Links(held[|held| - 1], disk))
      && (file.None? ==> disk.floor == EMPTY)
      && (file.Some? ==> file.value == Written(disk.floor))
    }

    constructor ()
      ensures Valid() && live && !leftover && file.None? && floor == EMPTY && held == [Hold(EMPTY, 0)] && disk == Hold(EMPTY, 0)
    {
      live, leftover, file, floor, held, disk := true, false, None, EMPTY, [Hold(EMPTY, 0)], Hold(EMPTY, 0);
      EmptyKeeps();
    }

    /**
     Reader.Inspect: the result is given only once the next floor is on disk. A write that took effect without being
     confirmed leaves the file one step ahead of the reader. Such a file is forked by the next inspection exactly if the
     next catalog does not extend it.
     */
    method Inspect(input: Option<Verified>, supplied: seq<Option<Supplied>>, at: int, write: Publication)
      returns (outcomes: Option<seq<Outcome>>)
      requires Valid() && (input.Some? ==> Usable(input.value)) && |supplied| == 3
      modifies this
      ensures Valid()
      ensures input.Some? ==> |old(floor).components| == |old(disk).floor.components| == |input.value.catalog.components| == 3
      ensures outcomes.Some? <==> && old(live) && write.Synced?
                                  && input.Some? && Current(input.value, at) && Allowed(input.value, old(floor))
      ensures outcomes.Some? ==> Makes(input.value, supplied, at, old(floor), floor) && disk.floor == floor
      ensures outcomes.Some? ==> |outcomes.value| == 3 && forall i :: 0 <= i < 3 ==>
                outcomes.value[i] == OutcomeOf(input.value.catalog.components[i], supplied[i], at)
      ensures outcomes.Some? ==> |floor.components| == 3 && forall i :: 0 <= i < 3 ==>
                var k := input.value.catalog.components[i];
                if Genuine(k, supplied[i], at)
                then outcomes.value[i] == Accepted && floor.components[i] == ComponentFloor(k.generation, k.digest)
                else outcomes.value[i] != Accepted && floor.components[i] == old(floor).components[i]
      ensures outcomes.None? ==> floor == old(floor) && held == old(held)
      ensures old(live) && input.Some? && Current(input.value, at) && Allowed(input.value, old(floor)) ==>
                && live == !write.Died? && (leftover <==> Leaves(write) || (write == Died(Before) && old(leftover)))
                && (if Lands(write)
                    then && Makes(input.value, supplied, at, old(floor), disk.floor)
                         && (Rises(old(disk).floor, disk.floor)
                             <==> Extends(input.value, supplied, at, old(floor), old(disk).floor))
                    else file == old(file) && disk == old(disk))
      ensures !(old(live) && input.Some? && Current(input.value, at) && Allowed(input.value, old(floor))) ==>
                live == old(live) && leftover == old(leftover) && file == old(file) && disk == old(disk)
      ensures held == if outcomes.Some? then old(held) + [disk] else old(held)
    {
      hide Fits, Keeps, Written, Links, Rises, Extends, Allowed, Current, Usable, OutcomeOf, Genuine;
      UsableShape(input);
      KeepsShape(floor);
      KeepsShape(disk.floor);
      if !live { return None; }
      var next: Floor;
      outcomes, next := Examine(input, supplied, at, floor);
      if outcomes.None? { return; }
      ghost var last := held[|held| - 1];
      MadeLinks(input.value, supplied, at, last, next);
      SelfLinks(disk);
      LinkedRises(last, disk);
      FollowsFileExactly(input.value, supplied, at, floor, disk.floor, next);
      forall i | 0 <= i < 3
        ensures OutcomeOf(input.value.catalog.components[i], supplied[i], at) == Accepted
                <==> Genuine(input.value.catalog.components[i], supplied[i], at)
      {
        AcceptedIsGenuine(input.value.catalog.components[i], supplied[i], at);
      }
      Publish(Hold(next, input.value.catalog.previous), write);
      if !write.Synced? { return None; }
    }

    /** writeFloor, and the floor adopted once it is through. */
    method Publish(next: Hold, write: Publication)
      requires Valid() && live && Keeps(next.floor) && Links(held[|held| - 1], next)
      modifies this
      ensures Valid() && live == !write.Died? && (leftover <==> Leaves(write) || (write == Died(Before) && old(leftover)))
      ensures disk == if Lands(write) then next else old(disk)
      ensures !Lands(write) ==> file == old(file)
      ensures floor == if write.Synced? then next.floor else old(floor)
      ensures held == if write.Synced? then old(held) + [disk] else old(held)
    {
      hide Keeps, Written, Links;
      KeepsShape(next.floor);
      SelfLinks(next);
      live := !write.Died?;
      leftover := Leaves(write) || (write == Died(Before) && leftover);
      if Lands(write) { file, disk := Some(Written(next.floor)), next; }
      if write.Synced? { floor, held := next.floor, held + [disk]; }
    }

    /** OpenReader on the same root, once the process before it is gone: it opens exactly if no temporary is left. */
    method Reopen() returns (ok: bool)
      requires Valid()
      modifies this
      ensures Valid() && disk == old(disk) && file == old(file) && leftover == old(leftover)
      ensures ok == live == !leftover
      ensures floor == if ok then disk.floor else old(floor)
      ensures held == if ok then old(held) + [disk] else old(held)
    {
      hide Rises, Keeps, ReadBack, Written;
      live := false;
      if leftover { return false; }
      DiskReads(disk.floor);
      var read := ReadFloor(file);
      if read.None? { return false; }
      SelfLinks(disk);
      live, floor, held := true, read.value, held + [disk];
      ok := true;
    }
  }

  lemma EmptyKeeps()
    ensures Keeps(EMPTY)
  {
    SpanGrows(8);
    SpanGrows(32);
    hide Span;
  }

  lemma KeepsShape(f: Floor)
    requires Keeps(f)
    ensures |f.components| == 3 && FloorFits(f)
  {
  }

  lemma UsableShape(input: Option<Verified>)
    requires input.Some? ==> Usable(input.value)
    ensures input.Some? ==> |input.value.catalog.components| == 3
  {
  }

  lemma LinkedRises(p: Hold, n: Hold)
    requires Keeps(p.floor) && (n == p || Links(p, n))
    ensures Rises(p.floor, n.floor)
  {
    if n == p { SelfLinks(p); }
  }

  lemma SelfLinks(h: Hold)
    requires Keeps(h.floor)
    ensures Links(h, h)
  {
  }

  datatype Event = Look(input: Option<Verified>, supplied: seq<Option<Supplied>>, at: int, write: Publication) | Open

  predicate Proper(e: Event) {
    e.Look? ==> (e.input.Some? ==> Usable(e.input.value)) && |e.supplied| == 3
  }

  /**
   Any run of inspections and reopenings, whatever happens to the writes: along the floors the reader goes by, no
   generation falls, one generation has one digest, and every strict advance of the catalog names the digest held
   before. The file is the reader's floor for as long as no write takes effect unconfirmed, and the root can be opened
   for as long as no write leaves its temporary behind.
   */
  method Run(events: seq<Event>) returns (reader: Reader)
    requires forall e <- events :: Proper(e)
    ensures fresh(reader) && reader.Valid()
    ensures forall i :: 0 < i < |reader.held| ==> Links(reader.held[i - 1], reader.held[i])
    ensures forall i, j :: 0 <= i < j < |reader.held| ==> Rises(reader.held[i].floor, reader.held[j].floor)
    ensures (forall e <- events :: e.Look? && Lands(e.write) ==> e.write.Synced?) ==> reader.disk.floor == reader.floor
    ensures (forall e <- events :: e.Look? ==> !Leaves(e.write)) ==> !reader.leftover
  {
    hide Keeps, Rises, Usable, Makes, Written, Extends, Current;
    reader := new Reader();
    for n := 0 to |events|
      invariant fresh(reader) && reader.Valid()
      invariant (forall i :: 0 <= i < n ==> events[i].Look? && Lands(events[i].write) ==> events[i].write.Synced?) ==>
                  reader.disk.floor == reader.floor
      invariant (forall i :: 0 <= i < n ==> events[i].Look? ==> !Leaves(events[i].write)) ==> !reader.leftover
    {
      assert Proper(events[n]);
      match events[n]
      case Look(input, supplied, at, write) =>
        var _ := reader.Inspect(input, supplied, at, write);
      case Open =>
        var _ := reader.Reopen();
    }
    forall i, j | 0 <= i < j < |reader.held| ensures Rises(reader.held[i].floor, reader.held[j].floor) {
      RisesThroughout(reader.held, i, j);
    }
  }

  /** A root whose process died over its temporary is refused by every later process, and nothing in it changes. */
  method Stranded(reader: Reader, events: seq<Event>) returns (given: seq<Option<seq<Outcome>>>)
    requires reader.Valid() && reader.leftover && !reader.live && forall e <- events :: Proper(e)
    modifies reader
    ensures reader.Valid() && reader.leftover && !reader.live
    ensures |given| == |events| && forall g <- given :: g.None?
    ensures reader.file == old(reader.file) && reader.floor == old(reader.floor) && reader.held == old(reader.held)
  {
    hide Keeps, Rises, Usable, Makes, Written, Extends, Allowed, Current;
    given := [];
    for n := 0 to |events|
      invariant reader.Valid() && reader.leftover && !reader.live
      invariant |given| == n && forall g <- given :: g.None?
      invariant reader.file == old(reader.file) && reader.floor == old(reader.floor) && reader.held == old(reader.held)
    {
      assert Proper(events[n]);
      match events[n]
      case Look(input, supplied, at, write) =>
        var outcomes := reader.Inspect(input, supplied, at, write);
        given := given + [outcomes];
      case Open =>
        var _ := reader.Reopen();
        given := given + [None];
    }
  }

  /** One inspection is enough to get there. */
  method StrandedRun() returns (reader: Reader)
    ensures fresh(reader) && reader.Valid() && reader.leftover && !reader.live
  {
    hide Usable, Sample, Keeps, Extends, Current;
    reader := new Reader();
    SampleIsUsable(1, 0, 7);
    var _ := reader.Inspect(Some(Verified(Sample(1, 0), 7)), [None, None, None], EPOCH + 5, Died(Within));
  }

  /** The catalog is the first one, or the one held, or a later one that names the one held. */
  predicate Continues(input: Verified, prior: Floor) {
    || prior.generation == 0
    || (input.catalog.generation == prior.generation && input.digest == prior.digest)
    || (input.catalog.generation > prior.generation && input.catalog.previous == prior.digest)
  }

  /** No component falls behind the floor or forks it. */
  predicate Upholds(input: Verified, prior: Floor) {
    |input.catalog.components| == |prior.components| == 3 && forall i :: 0 <= i < 3 ==>
      var k, p := input.catalog.components[i], prior.components[i];
      k.generation > p.generation || (k.generation == p.generation && k.digest == p.digest)
  }

  lemma AllowedExactly(input: Verified, prior: Floor)
    requires Usable(input) && Keeps(prior)
    ensures |input.catalog.components| == |prior.components| == 3
    ensures Allowed(input, prior) <==> Continues(input, prior) && Upholds(input, prior)
  {
    hide Span, Instant;
    forall i | 0 <= i < 3 ensures input.catalog.components[i].generation > 0 {
      assert ValidComponent(input.catalog.components[i], i, input.catalog.notAfter);
    }
  }

  /**
   With a write that goes through, a live reader takes a catalog that is valid at the clock exactly if it continues the
   one held and upholds its components.
   */
  method Takes(reader: Reader, input: Verified, supplied: seq<Option<Supplied>>, at: int)
    returns (outcomes: Option<seq<Outcome>>)
    requires reader.Valid() && reader.live && Usable(input) && |supplied| == 3
    requires at != 0 && Instant(input.catalog.notBefore) <= at < Instant(input.catalog.notAfter)
    modifies reader
    ensures reader.Valid() && (outcomes.Some? <==> Continues(input, old(reader.floor)) && Upholds(input, old(reader.floor)))
    ensures outcomes.None? ==> reader.floor == old(reader.floor) && reader.disk == old(reader.disk)
    ensures outcomes.Some? ==>
              && reader.live && !reader.leftover && reader.disk.floor == reader.floor
              && reader.floor.generation == input.catalog.generation && reader.floor.digest == input.digest
  {
    hide Keeps, Rises, Usable, Written, Extends, Links, OutcomeOf, Genuine;
    AllowedExactly(input, reader.floor);
    hide Allowed, Continues, Upholds;
    outcomes := reader.Inspect(Some(input), supplied, at, Synced);
  }

  /** A valid catalog of the given generation after the given predecessor. */
  function Sample(generation: nat, previous: nat): Catalog {
    Catalog([65], generation, 0, 9, previous,
            [Component(1, 1, 1, 9, 1, 1), Component(2, 1, 1, 9, 1, 1), Component(3, 1, 1, 9, 1, 1)])
  }

  lemma SampleIsUsable(generation: nat, previous: nat, digest: nat)
    requires 0 < generation < 256 && previous < 256 && digest < 256
    ensures var v := Verified(Sample(generation, previous), digest);
            && Usable(v) && Current(v, EPOCH + 5)
            && v.catalog.generation == generation && |v.catalog.components| == 3
  {
    SpanGrows(8);
    SpanGrows(4);
    SpanGrows(32);
  }

  /** Two catalogs of one generation: an unconfirmed write that did take effect lets the file change its digest. */
  method ForkedFile() returns (first: Option<seq<Byte>>, second: Option<seq<Byte>>)
    ensures first.Some? && second.Some? && |first.value| == |second.value| == FLOOR_SIZE
    ensures ReadBack(first.value).generation == ReadBack(second.value).generation == 1
    ensures ReadBack(first.value).digest != ReadBack(second.value).digest
  {
    hide Usable, Sample, Keeps, ReadBack, Extends, Current;
    var reader := new Reader();
    var nothing: seq<Option<Supplied>> := [None, None, None];
    SampleIsUsable(1, 0, 7);
    SampleIsUsable(1, 1, 8);
    var a, b := Verified(Sample(1, 0), 7), Verified(Sample(1, 1), 8);
    var none := reader.Inspect(Some(a), nothing, EPOCH + 5, Unsynced);
    first := reader.file;
    DiskReads(reader.disk.floor);
    var some := reader.Inspect(Some(b), nothing, EPOCH + 5, Synced);
    second := reader.file;
    DiskReads(reader.disk.floor);
  }

  lemma DiskReads(f: Floor)
    requires Keeps(f)
    ensures FloorFits(f) && Consistent(f) && ReadBack(Written(f)) == f && Written(f)[..5] == FLOOR_MAGIC
  {
    hide Written, ReadBack;
    FloorReads(f);
  }
}
