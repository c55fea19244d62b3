/**
 The credential chain of one service authority: immutable vault records, its entry in the floor file it shares with all
 other authorities, and an issuance that writes the successor record first and the floor second. A record identifier
 is a hash of its parent's identifier and of the request, taken to be collision-free, so the model names a record by
 the two.
 */
module ServiceCredential {
  import opened Common
  import opened TextOrder
  import opened AuthorityFloor
  import opened FloorText
  import FloorStore

  datatype Request = Request(instance: nat, introduction: nat, notBefore: int, notAfter: int)

  datatype Id = Root | Next(parent: Id, request: Request)

  datatype Credential = Credential(generation: nat, request: Request)

  const GENERATION := "credential-generation"
  const NOT_AFTER := "credential-not-after"
  const MAXIMUM_LIFETIME := 24 * 3600
  const MAXIMUM_HORIZON := 48 * 3600

  function MarksAt(generation: nat, notAfter: nat): Marks {
    Marks(generation + 1, generation, [Watermark(GENERATION, generation), Watermark(NOT_AFTER, notAfter)])
  }

  /** serviceCredentialValidity. */
  function Validity(r: Request, now: int): (bool, bool) {
    if r.notBefore < 0 || r.notAfter < 0 || r.notAfter <= r.notBefore then (false, false)
    else if now < 0 || r.notAfter - r.notBefore > MAXIMUM_LIFETIME then (false, false)
    else if r.notAfter <= now then (true, true)
    else (false, r.notAfter - now <= MAXIMUM_HORIZON)
  }

  /** A supported request lasts a day at most and ends within two. */
  lemma Limits(r: Request, now: int)
    ensures Validity(r, now).1 ==> 0 <= now && 0 <= r.notBefore < r.notAfter <= r.notBefore + 86400
    ensures Validity(r, now).1 ==> r.notAfter <= now + 172800
    ensures Validity(r, now) == (false, true) ==> now < r.notAfter
  {
  }

  /** The conditions of serviceSuccessor. */
  predicate Admits(source: Marks, r: Request) {
    && source.generation != UINT64_LIMIT - 1 && source.revision != UINT64_LIMIT - 1
    && |source.watermarks| == 2
    && source.watermarks[0].domain == GENERATION && source.watermarks[1].domain == NOT_AFTER
    && source.watermarks[0].value != UINT64_LIMIT - 1 && source.watermarks[1].value < INT64_LIMIT
    && source.generation == source.watermarks[0].value + 1 && source.revision == source.watermarks[0].value
    && r.notBefore >= source.watermarks[1].value
    && r.notAfter > r.notBefore
  }

  function Successor(source: Marks, r: Request): Marks
    requires Admits(source, r)
  {
    Marks(source.generation + 1, source.revision + 1,
          [Watermark(GENERATION, source.watermarks[0].value + 1), Watermark(NOT_AFTER, r.notAfter)])
  }

  lemma SuccessorIsNext(generation: nat, notAfter: nat, r: Request)
    requires Admits(MarksAt(generation, notAfter), r)
    ensures Successor(MarksAt(generation, notAfter), r) == MarksAt(generation + 1, r.notAfter)
    ensures Higher(MarksAt(generation + 1, r.notAfter), MarksAt(generation, notAfter))
  {
    AdvancedIsHigher(MarksAt(generation, notAfter), MarksAt(generation + 1, r.notAfter));
  }

  /** The floor file takes these marks. */
  lemma MarksAreValid(generation: nat, notAfter: nat)
    ensures ValidWatermarks(MarksAt(generation, notAfter).watermarks)
  {
    DomainsAreOrdered();
    DomainIsPrintable(GENERATION);
    DomainIsPrintable(NOT_AFTER);
    hide Before, ValidWatermarks;
    PairIsValid(Watermark(GENERATION, generation), Watermark(NOT_AFTER, notAfter));
  }

  predicate Printable(domain: string) {
    0 < |domain| <= MAXIMUM_DOMAIN && forall c <- domain :: '!' <= c <= '~'
  }

  lemma PairIsValid(a: Watermark, b: Watermark)
    requires Printable(a.domain) && Printable(b.domain) && Before(a.domain, b.domain)
    ensures ValidWatermarks([a, b])
  {
    hide Before;
  }

  lemma EntryIsValid(binding: Binding, generation: nat, notAfter: nat)
    requires FloorStore.ValidBinding(binding)
    ensures FloorStore.ValidFloor(Floor(binding, MarksAt(generation, notAfter)))
  {
    hide ValidWatermarks;
    MarksAreValid(generation, notAfter);
  }

  lemma DomainsAreOrdered()
    ensures Before(GENERATION, NOT_AFTER)
  {
    hide Before;
    FirstDecides("generation", "not-after");
    AfterSharedPrefix("credential-", "generation", "not-after");
    assert GENERATION == "credential-" + "generation" && NOT_AFTER == "credential-" + "not-after";
  }

  lemma DomainIsPrintable(domain: string)
    requires domain == GENERATION || domain == NOT_AFTER
    ensures Printable(domain)
  {
  }

  // ---------- records and generations ----------

  /** The floors so far: generation k was entered with the NotAfter `ends[k]`, and every one lies beyond the last. */
  predicate Rise(ends: seq<nat>) {
    |ends| > 0 && forall i, j :: 0 <= i < j < |ends| ==> ends[i] < ends[j]
  }

  /** The record stands at the floor of its generation. */
  predicate OnChain(marks: Marks, ends: seq<nat>) {
    marks.revision < |ends| && marks == MarksAt(marks.revision, ends[marks.revision])
  }

  /** Every record was made for a request its parent admits, at a time when the parent stood at the floor. */
  ghost predicate Linked(records: map<Id, Marks>, ends: seq<nat>) {
    && Root in records && records[Root] == MarksAt(0, 0) && |ends| > 0 && ends[0] == 0
    && forall p: Id, r: Request {:trigger Next(p, r)} | Next(p, r) in records ::
         && p in records && OnChain(records[p], ends)
         && Admits(records[p], r) && records[Next(p, r)] == Successor(records[p], r)
  }

  /** Each generation was entered through one record. */
  predicate Owned(owners: seq<Id>, records: map<Id, Marks>, ends: seq<nat>) {
    && |owners| == |ends|
    && forall k :: 0 <= k < |ends| ==> owners[k] in records && records[owners[k]] == MarksAt(k, ends[k])
  }

  /** A credential is given out under the record that holds its generation, once that is the floor. */
  predicate Backed(released: set<Id>, records: map<Id, Marks>, ends: seq<nat>) {
    forall id <- released :: id.Next? && id in records && OnChain(records[id], ends)
  }

  function CredentialOf(id: Id, records: map<Id, Marks>): Credential
    requires id.Next? && id in records
  {
    Credential(records[id].revision, id.request)
  }

  ghost predicate Sound(records: map<Id, Marks>, ends: seq<nat>, owners: seq<Id>, released: set<Id>) {
    Rise(ends) && Linked(records, ends) && Owned(owners, records, ends) && Backed(released, records, ends)
  }

  /** A new record under a parent at the floor. */
  lemma Recorded(records: map<Id, Marks>, ends: seq<nat>, owners: seq<Id>, released: set<Id>, id: Id, r: Request)
    requires Sound(records, ends, owners, released) && Next(id, r) !in records
    requires id in records && OnChain(records[id], ends) && Admits(records[id], r)
    ensures Sound(records[Next(id, r) := Successor(records[id], r)], ends, owners, released)
  {
    hide Admits, Successor, OnChain, MarksAt;
    LinkedRecords(records, ends, id, r);
    hide Linked, Rise;
  }

  lemma LinkedRecords(records: map<Id, Marks>, ends: seq<nat>, id: Id, r: Request)
    requires Linked(records, ends) && Next(id, r) !in records
    requires id in records && OnChain(records[id], ends) && Admits(records[id], r)
    ensures Linked(records[Next(id, r) := Successor(records[id], r)], ends)
  {
    hide Admits, Successor, OnChain, MarksAt;
  }

  lemma LinkedGrows(records: map<Id, Marks>, ends: seq<nat>, end: nat)
    requires Linked(records, ends)
    ensures Linked(records, ends + [end])
  {
    hide Admits, Successor, MarksAt;
    assert forall k :: 0 <= k < |ends| ==> (ends + [end])[k] == ends[k];
  }

  lemma BackedGrows(released: set<Id>, records: map<Id, Marks>, ends: seq<nat>, end: nat)
    requires Backed(released, records, ends)
    ensures Backed(released, records, ends + [end])
  {
    hide MarksAt;
    assert forall k :: 0 <= k < |ends| ==> (ends + [end])[k] == ends[k];
  }

  /** A new generation, entered through an existing record whose parent stands at the last one. */
  lemma Entered(records: map<Id, Marks>, ends: seq<nat>, owners: seq<Id>, released: set<Id>, id: Id, r: Request)
    requires Sound(records, ends, owners, released) && Next(id, r) in records
    requires records[id] == MarksAt(|ends| - 1, ends[|ends| - 1])
    ensures r.notAfter >= 0 && Sound(records, ends + [r.notAfter], owners + [Next(id, r)], released)
    ensures records[Next(id, r)] == MarksAt(|ends|, r.notAfter)
    ensures Higher(MarksAt(|ends|, r.notAfter), records[id])
  {
    hide Higher;
    SuccessorIsNext(|ends| - 1, ends[|ends| - 1], r);
    assert r.notAfter > ends[|ends| - 1];
    hide Admits, Successor, MarksAt;
    LinkedGrows(records, ends, r.notAfter);
    BackedGrows(released, records, ends, r.notAfter);
    hide Linked, Backed;
    assert Rise(ends + [r.notAfter]);
    assert Owned(owners + [Next(id, r)], records, ends + [r.notAfter]);
  }

  lemma Backs(records: map<Id, Marks>, ends: seq<nat>, owners: seq<Id>, released: set<Id>, id: Id, r: Request)
    requires Sound(records, ends, owners, released) && Next(id, r) in records && OnChain(records[Next(id, r)], ends)
    ensures Sound(records, ends, owners, released + {Next(id, r)})
  {
  }

  /** A record already there holds what its request would create. */
  lemma RecordsAgree(records: map<Id, Marks>, ends: seq<nat>, owners: seq<Id>, released: set<Id>, id: Id, r: Request)
    requires Sound(records, ends, owners, released)
    ensures |ends| > 0
    ensures id in records && Admits(records[id], r) ==> Successor(records[id], r) != records[id]
    ensures id in records && Admits(records[id], r) ==>
              Successor(records[id], r).revision == records[id].revision + 1
              && |records[id].watermarks| == 2 && records[id].watermarks[0].value == records[id].revision
    ensures Next(id, r) in records ==>
              id in records && Admits(records[id], r) && records[Next(id, r)] == Successor(records[id], r)
  {
  }

  const MAXIMUM_RECORDS := 1024

  class Vault {
    const store: FloorStore.Store
    const binding: Binding
    var records: map<Id, Marks>
    /** How many records of other authorities the vault holds, and whether a temporary was left among its records. */
    var foreign: nat
    var leftover: bool

    ghost var ends: seq<nat>
    ghost var owners: seq<Id>
    ghost var released: set<Id>

    /** Where the floor file has this authority. */
    function Stands(): Marks
      reads store
    {
      FloorStore.Standing(store.floors, binding)
    }

    /** reserveRecordSpace: no entry that is not a record, and fewer than 1,024 that are. */
    predicate HasRoom()
      reads this
    {
      !leftover && |records| + foreign < MAXIMUM_RECORDS
    }

    ghost predicate Valid()
      reads this, store
    {
      && Sound(records, ends, owners, released) && |ends| > 0
      && FloorStore.ValidBinding(binding) && FloorStore.Orderly(store.floors)
      && FloorStore.FloorFor(store.floors, binding) == Some(MarksAt(|ends| - 1, ends[|ends| - 1]))
    }

    constructor (store: FloorStore.Store, binding: Binding)
      requires FloorStore.ValidBinding(binding)
      requires FloorStore.Orderly(store.floors) && FloorStore.FloorFor(store.floors, binding) == Some(MarksAt(0, 0))
      ensures Valid() && this.store == store && this.binding == binding
      ensures records == map[Root := MarksAt(0, 0)] && ends == [0] && released == {} && owners == [Root]
      ensures foreign == 0 && !leftover
    {
      this.store, this.binding, records := store, binding, map[Root := MarksAt(0, 0)];
      foreign, leftover := 0, false;
      ends, owners, released := [0], [Root], {};
    }

    /**
     issueServiceCredential. With the floor file readable, a credential is given out in exactly two cases: its parent
     stands at the floor, the request has not expired and record and floor are both confirmed; or its own record is
     already there and stands at the floor. The first case alone changes anything. A record is written only if the
     vault has room for it, and a process that dies over its temporary takes that room away.
     */
    method Issue(id: Id, r: Request, now: int, filing: Filing, advance: Write) returns (credential: Option<Credential>)
      requires Valid()
      modifies this, store
      ensures Valid() && foreign == old(foreign)
      ensures var write := Effective(old(HasRoom()), filing);
              && credential == Issued(old(records), old(store.floors), binding, id, r, now, write, advance)
              && records == RecordsAfter(old(records), old(store.floors), binding, id, r, now, write)
              && store.floors == FloorsAfter(old(records), old(store.floors), binding, id, r, now, write, advance)
              && owners == if Enters(old(records), old(store.floors), binding, id, r, now, write) && advance != Lost
                           then old(owners) + [Next(id, r)] else old(owners)
      ensures leftover <==> old(leftover) || (Creates(old(records), old(store.floors), binding, id, r, now)
                                              && old(HasRoom()) && filing == Dropped(true))
      ensures credential.Some? ==> Next(id, r) in records && credential.value == CredentialOf(Next(id, r), records)
      ensures released == if credential.Some? then old(released) + {Next(id, r)} else old(released)
      ensures credential.Some? ==> 0 <= r.notBefore < r.notAfter <= r.notBefore + 86400 && 0 <= now
      ensures credential.Some? ==> r.notAfter <= now + 172800
      ensures credential.Some? && old(records)[id] == old(Stands()) ==> now < r.notAfter
      ensures old(ends) <= ends
    {
      hide Sound, Issued, RecordsAfter, FloorsAfter, Creates, Enters;
      var room := HasRoom();
      credential := Proceed(id, r, now, Effective(room, filing), room && filing == Dropped(true), advance);
    }

    /** The same once it is decided how the write of a record would end and whether it would leave its temporary. */
    method Proceed(id: Id, r: Request, now: int, write: Write, stranded: bool, advance: Write)
      returns (credential: Option<Credential>)
      requires Valid() && (stranded ==> write == Lost)
      modifies this, store
      ensures Valid() && foreign == old(foreign)
      ensures credential == Issued(old(records), old(store.floors), binding, id, r, now, write, advance)
      ensures records == RecordsAfter(old(records), old(store.floors), binding, id, r, now, write)
      ensures store.floors == FloorsAfter(old(records), old(store.floors), binding, id, r, now, write, advance)
      ensures owners == if Enters(old(records), old(store.floors), binding, id, r, now, write) && advance != Lost
                        then old(owners) + [Next(id, r)] else old(owners)
      ensures leftover <==> old(leftover) || (Creates(old(records), old(store.floors), binding, id, r, now) && stranded)
      ensures credential.Some? ==> Next(id, r) in records && credential.value == CredentialOf(Next(id, r), records)
      ensures released == if credential.Some? then old(released) + {Next(id, r)} else old(released)
      ensures credential.Some? ==> 0 <= r.notBefore < r.notAfter <= r.notBefore + 86400 && 0 <= now
      ensures credential.Some? ==> r.notAfter <= now + 172800
      ensures credential.Some? && old(records)[id] == old(Stands()) ==> now < r.notAfter
      ensures old(ends) <= ends
    {
      hide Sound, Admits, Successor, Validity, Issued, RecordsAfter, FloorsAfter, FloorStore.ValidBinding;
      hide FloorStore.Readable, FloorStore.Orderly, FloorStore.Confirmed, FloorStore.Moved, FloorStore.Standing;
      RecordsAgree(records, ends, owners, released, id, r);
      Cases(records, store.floors, binding, id, r, now, write, advance);
      Limits(r, now);
      var (expired, supported) := Validity(r, now);
      if !supported || (expired && Next(id, r) !in records) { return None; }
      if id !in records || !Admits(records[id], r) { return None; }
      if !FloorStore.Readable(store.floors) { return None; }
      var source, successor, floor := records[id], Successor(records[id], r), Stands();
      if (source != floor && successor != floor) || (expired && successor != floor) { return None; }
      if source == floor {
        var served := Serve(id, r, write, stranded, advance);
        if !served { return None; }
      } else if Next(id, r) !in records || records[Next(id, r)] != successor {
        return None;
      }
      Release(id, r);
      return Some(Credential(source.watermarks[0].value + 1, r));
    }

    ghost method Release(id: Id, r: Request)
      requires Valid() && Next(id, r) in records && records[Next(id, r)] == Stands()
      modifies `released
      ensures Valid() && released == old(released) + {Next(id, r)}
    {
      hide Sound, FloorStore.ValidBinding, FloorStore.Orderly;
      Backs(records, ends, owners, released, id, r);
      released := released + {Next(id, r)};
    }

    /** The two writes under a parent that stands at the floor: the record, unless it is already there, then the floor. */
    method Serve(id: Id, r: Request, write: Write, stranded: bool, advance: Write) returns (ok: bool)
      requires Valid() && id in records && records[id] == Stands() && Admits(records[id], r)
      requires FloorStore.Readable(store.floors) && (stranded ==> write == Lost)
      modifies `records, `leftover, `ends, `owners, store
      ensures Valid() && (leftover <==> old(leftover) || (Next(id, r) !in old(records) && stranded))
      ensures ok <==> && (Next(id, r) in old(records) || write == Done)
                      && FloorStore.Confirmed(old(store.floors), Floor(binding, Successor(old(records)[id], r)), advance)
      ensures records == if Next(id, r) in old(records) || write == Lost then old(records)
                         else old(records)[Next(id, r) := Successor(old(records)[id], r)]
      ensures store.floors == if Next(id, r) in old(records) || write == Done
                              then FloorStore.Moved(old(store.floors), Floor(binding, Successor(old(records)[id], r)), advance)
                              else old(store.floors)
      ensures owners == if (Next(id, r) in old(records) || write == Done) && advance != Lost then old(owners) + [Next(id, r)]
                        else old(owners)
      ensures ok ==> Next(id, r) in records && records[Next(id, r)] == Stands()
      ensures old(ends) <= ends
    {
      hide Sound, Admits, Successor, Higher, FloorStore.ValidBinding;
      hide FloorStore.Readable, FloorStore.Orderly, FloorStore.Confirmed, FloorStore.Moved;
      RecordsAgree(records, ends, owners, released, id, r);
      if Next(id, r) !in records {
        var written := Record(id, r, write, stranded);
        if !written { return false; }
      }
      RecordsAgree(records, ends, owners, released, id, r);
      ok := Advance(id, r, advance);
    }

    /** ensureServiceSuccessor, where there is no record yet. */
    method Record(id: Id, r: Request, write: Write, stranded: bool) returns (ok: bool)
      requires Valid() && id in records && records[id] == Stands() && Admits(records[id], r) && Next(id, r) !in records
      requires stranded ==> write == Lost
      modifies `records, `leftover
      ensures Valid() && (ok <==> write == Done) && leftover == (old(leftover) || stranded)
      ensures records == if write == Lost then old(records)
                         else old(records)[Next(id, r) := Successor(old(records)[id], r)]
    {
      hide Sound, Admits, Successor, FloorStore.ValidBinding, FloorStore.Orderly;
      Recorded(records, ends, owners, released, id, r);
      leftover := leftover || stranded;
      if write == Lost { return false; }
      records := records[Next(id, r) := Successor(records[id], r)];
      ok := write == Done;
    }

    /** advanceFloor, onto a record whose parent stands at the floor. */
    method Advance(id: Id, r: Request, advance: Write) returns (ok: bool)
      requires Valid() && Next(id, r) in records && id in records && records[id] == Stands()
      requires FloorStore.Readable(store.floors)
      modifies `ends, `owners, store
      ensures Valid()
      ensures ok <==> FloorStore.Confirmed(old(store.floors), Floor(binding, records[Next(id, r)]), advance)
      ensures store.floors == FloorStore.Moved(old(store.floors), Floor(binding, records[Next(id, r)]), advance)
      ensures owners == if advance == Lost then old(owners) else old(owners) + [Next(id, r)]
      ensures ends == if advance == Lost then old(ends) else old(ends) + [r.notAfter]
      ensures ok ==> records[Next(id, r)] == Stands()
    {
      hide Sound, Admits, Successor, Higher, MarksAt, FloorStore.ValidBinding;
      hide FloorStore.Readable, FloorStore.Orderly, FloorStore.Confirmed, FloorStore.Moved;
      Entered(records, ends, owners, released, id, r);
      EntryIsValid(binding, |ends|, r.notAfter);
      ok := store.AdvanceKnown(Floor(binding, records[Next(id, r)]), advance);
      if advance != Lost { ends, owners := ends + [r.notAfter], owners + [Next(id, r)]; }
    }
  }

  function Effective(room: bool, filing: Filing): Write {
    if !room then Lost
    else match filing
         case Filed => Done
         case Doubtful => Unconfirmed
         case Dropped(_) => Lost
  }

  /** The request may be served for the first time: the file is readable and its parent stands at the floor. */
  predicate Serves(records: map<Id, Marks>, floors: seq<Floor>, binding: Binding, id: Id, r: Request, now: int) {
    && FloorStore.Readable(floors) && id in records && records[id] == FloorStore.Standing(floors, binding)
    && Admits(records[id], r) && Validity(r, now) == (false, true)
  }

  predicate Creates(records: map<Id, Marks>, floors: seq<Floor>, binding: Binding, id: Id, r: Request, now: int) {
    Serves(records, floors, binding, id, r, now) && Next(id, r) !in records
  }

  /** The call gets as far as the floor. */
  predicate Enters(records: map<Id, Marks>, floors: seq<Floor>, binding: Binding, id: Id, r: Request, now: int, write: Write) {
    Serves(records, floors, binding, id, r, now) && (Next(id, r) in records || write == Done)
  }

  /** The request was served before, and nothing has happened since. */
  predicate Repeats(records: map<Id, Marks>, floors: seq<Floor>, binding: Binding, id: Id, r: Request, now: int) {
    && FloorStore.Readable(floors)
    && Next(id, r) in records && records[Next(id, r)] == FloorStore.Standing(floors, binding) && Validity(r, now).1
  }

  predicate Issues(records: map<Id, Marks>, floors: seq<Floor>, binding: Binding, id: Id, r: Request, now: int, write: Write,
                   advance: Write) {
    || (Enters(records, floors, binding, id, r, now, write)
        && FloorStore.Confirmed(floors, Floor(binding, Successor(records[id], r)), advance))
    || Repeats(records, floors, binding, id, r, now)
  }

  function Issued(records: map<Id, Marks>, floors: seq<Floor>, binding: Binding, id: Id, r: Request, now: int, write: Write,
                  advance: Write): Option<Credential> {
    if id in records && Issues(records, floors, binding, id, r, now, write, advance)
    then Some(Credential(records[id].revision + 1, r)) else None
  }

  function RecordsAfter(records: map<Id, Marks>, floors: seq<Floor>, binding: Binding, id: Id, r: Request, now: int,
                        write: Write): map<Id, Marks> {
    if Creates(records, floors, binding, id, r, now) && write != Lost
    then records[Next(id, r) := Successor(records[id], r)] else records
  }

  function FloorsAfter(records: map<Id, Marks>, floors: seq<Floor>, binding: Binding, id: Id, r: Request, now: int,
                       write: Write, advance: Write): seq<Floor> {
    if Enters(records, floors, binding, id, r, now, write)
    then FloorStore.Moved(floors, Floor(binding, Successor(records[id], r)), advance) else floors
  }

  /** What a call does, by the case it falls into. */
  lemma Cases(records: map<Id, Marks>, floors: seq<Floor>, binding: Binding, id: Id, r: Request, now: int, write: Write,
              advance: Write)
    requires Next(id, r) in records ==>
               id in records && Admits(records[id], r) && records[Next(id, r)] == Successor(records[id], r)
    requires id in records && Admits(records[id], r) ==> Successor(records[id], r) != records[id]
    ensures Serves(records, floors, binding, id, r, now) ==>
              && RecordsAfter(records, floors, binding, id, r, now, write)
                 == (if Next(id, r) in records || write == Lost then records
                     else records[Next(id, r) := Successor(records[id], r)])
              && FloorsAfter(records, floors, binding, id, r, now, write, advance)
                 == (if Next(id, r) in records || write == Done
                     then FloorStore.Moved(floors, Floor(binding, Successor(records[id], r)), advance) else floors)
              && Issued(records, floors, binding, id, r, now, write, advance)
                 == (if (Next(id, r) in records || write == Done)
                        && FloorStore.Confirmed(floors, Floor(binding, Successor(records[id], r)), advance)
                     then Some(Credential(records[id].revision + 1, r)) else None)
    ensures !Serves(records, floors, binding, id, r, now) ==>
              && RecordsAfter(records, floors, binding, id, r, now, write) == records
              && FloorsAfter(records, floors, binding, id, r, now, write, advance) == floors
              && Issued(records, floors, binding, id, r, now, write, advance)
                 == (if Repeats(records, floors, binding, id, r, now) then Some(Credential(records[id].revision + 1, r))
                     else None)
  {
    hide Admits, Successor, Validity, FloorStore.Readable, FloorStore.Confirmed, FloorStore.Moved, FloorStore.Standing;
  }

  // ---------- what holds of the credentials given out ----------

  /** Credentials of different generations are never valid together, and those of one generation end together. */
  predicate Apart(a: Credential, b: Credential) {
    && (a.generation < b.generation ==> a.request.notAfter <= b.request.notBefore)
    && (a.generation == b.generation ==> a.request.notAfter == b.request.notAfter)
  }

  lemma GivenOutApart(records: map<Id, Marks>, ends: seq<nat>, owners: seq<Id>, released: set<Id>, a: Id, b: Id)
    requires Sound(records, ends, owners, released) && a in released && b in released
    ensures Apart(CredentialOf(a, records), CredentialOf(b, records))
  {
    Placed(records, ends, owners, released, a);
    Placed(records, ends, owners, released, b);
  }

  /** A credential starts no earlier than the last generation ended, and ends as its own generation does. */
  lemma Placed(records: map<Id, Marks>, ends: seq<nat>, owners: seq<Id>, released: set<Id>, id: Id)
    requires Sound(records, ends, owners, released) && id in released
    ensures id.Next? && id in records && 0 < records[id].revision < |ends|
    ensures ends[records[id].revision - 1] <= id.request.notBefore < id.request.notAfter == ends[records[id].revision]
  {
    ReleasedIsRecorded(records, ends, owners, released, id);
    hide Sound, MarksAt;
    assert id == Next(id.parent, id.request);
    Child(records, ends, owners, released, id.parent, id.request);
    var k := records[id.parent].revision;
    MarksTell(k + 1, id.request.notAfter, records[id].revision, ends[records[id].revision]);
  }

  lemma MarksTell(g: nat, notAfter: nat, h: nat, other: nat)
    requires MarksAt(g, notAfter) == MarksAt(h, other)
    ensures g == h && notAfter == other
  {
    assert MarksAt(g, notAfter).watermarks[1] == MarksAt(h, other).watermarks[1];
  }

  lemma ReleasedIsRecorded(records: map<Id, Marks>, ends: seq<nat>, owners: seq<Id>, released: set<Id>, id: Id)
    requires Sound(records, ends, owners, released) && id in released
    ensures id.Next? && id in records && OnChain(records[id], ends)
  {
    hide Linked, Owned, OnChain;
  }

  /** Every record made a generation: no issuance stopped between its two writes. */
  predicate Tidy(records: map<Id, Marks>, owners: seq<Id>) {
    forall id <- records :: id in owners
  }

  lemma TidyIsUnique(records: map<Id, Marks>, ends: seq<nat>, owners: seq<Id>, released: set<Id>, a: Id, b: Id)
    requires Sound(records, ends, owners, released) && Tidy(records, owners) && a in released && b in released
    requires records[a].revision == records[b].revision
    ensures a == b
  {
    var i :| 0 <= i < |owners| && owners[i] == a;
    var j :| 0 <= j < |owners| && owners[j] == b;
  }

  /**
   Exactly when the present generation can be given out for a request: its record is there, below the generation
   before, and ends when the generation does. Two such records exist only if one was left by an interruption.
   */
  lemma PresentGeneration(records: map<Id, Marks>, ends: seq<nat>, owners: seq<Id>, released: set<Id>,
                          floors: seq<Floor>, binding: Binding, p: Id, r: Request, now: int, write: Write, advance: Write)
    requires Sound(records, ends, owners, released) && |ends| > 0
    requires FloorStore.Standing(floors, binding) == MarksAt(|ends| - 1, ends[|ends| - 1])
    ensures (p in records && Issues(records, floors, binding, p, r, now, write, advance)
             && records[p].revision + 1 == |ends| - 1)
            <==> (FloorStore.Readable(floors) && Next(p, r) in records && records[p].revision == |ends| - 2
                  && r.notAfter == ends[|ends| - 1] && Validity(r, now).1)
  {
    hide Sound, Higher, Validity, Admits, FloorStore.Readable, FloorStore.Confirmed, FloorStore.Standing;
    if Next(p, r) in records { Child(records, ends, owners, released, p, r); }
  }

  lemma Child(records: map<Id, Marks>, ends: seq<nat>, owners: seq<Id>, released: set<Id>, p: Id, r: Request)
    requires Sound(records, ends, owners, released) && Next(p, r) in records
    ensures p in records && OnChain(records[p], ends)
    ensures r.notAfter >= 0 && records[Next(p, r)] == MarksAt(records[p].revision + 1, r.notAfter)
    ensures ends[records[p].revision] <= r.notBefore < r.notAfter
  {
    hide Higher;
    SuccessorIsNext(records[p].revision, ends[records[p].revision], r);
  }

  /** A call of this authority; an advance of another one in the same floor file; or its work on the vault's records. */
  datatype Event =
    | Call(id: Id, request: Request, now: int, filing: Filing, advance: Write)
    | Other(floor: Floor, write: Write)
    | Files(foreign: nat, stranded: bool)

  predicate Proper(e: Event, binding: Binding) {
    e.Other? ==> FloorStore.ValidFloor(e.floor) && e.floor.binding != binding
  }

  /** Nothing separates the record from the floor. */
  predicate Undisturbed(e: Event) {
    e.Call? ==> e.filing.Dropped? || (e.filing.Filed? && e.advance != Lost)
  }

  /** A credential was given out for this call, under this record. */
  predicate Given(e: Event, credential: Option<Credential>, id: Id, records: map<Id, Marks>, released: set<Id>) {
    credential.Some? ==>
      && e.Call? && credential.value.request == e.request
      && id in released && id.Next? && id in records && credential.value == CredentialOf(id, records)
  }

  method Perform(vault: Vault, e: Event) returns (credential: Option<Credential>, ghost id: Id)
    requires vault.Valid() && Proper(e, vault.binding)
    modifies vault, vault.store
    ensures vault.Valid()
    ensures Given(e, credential, id, vault.records, vault.released)
    ensures old(vault.released) <= vault.released
    ensures forall i <- old(vault.records) :: i in vault.records && vault.records[i] == old(vault.records)[i]
    ensures Undisturbed(e) && old(Tidy(vault.records, vault.owners)) ==> Tidy(vault.records, vault.owners)
    ensures old(vault.leftover) ==> vault.leftover && vault.records == old(vault.records)
    ensures credential.Some? ==> id == Next(e.id, e.request)
    ensures credential.Some? ==>
              0 <= credential.value.request.notBefore < credential.value.request.notAfter
                <= credential.value.request.notBefore + 86400
  {
    hide Sound, Admits, Successor, Validity, FloorStore.ValidBinding;
    hide FloorStore.Readable, FloorStore.Orderly, FloorStore.Confirmed, FloorStore.Moved, FloorStore.ValidFloor;
    match e
    case Call(parent, request, now, filing, advance) =>
      credential := vault.Issue(parent, request, now, filing, advance);
      id := Next(parent, request);
    case Other(floor, write) =>
      credential, id := None, Root;
      var _ := vault.store.AdvanceOther(floor, write, vault.binding);
    case Files(foreign, stranded) =>
      credential, id := None, Root;
      vault.foreign, vault.leftover := foreign, vault.leftover || stranded;
  }

  lemma StillGiven(e: Event, credential: Option<Credential>, id: Id, records: map<Id, Marks>, released: set<Id>,
                   later: map<Id, Marks>, more: set<Id>)
    requires Given(e, credential, id, records, released) && released <= more
    requires forall i <- records :: i in later && later[i] == records[i]
    ensures Given(e, credential, id, later, more)
  {
  }

  /**
   Any run, with stale identifiers, retries, any clock, any interruption, and other authorities moving their floors in
   the same file. If nothing ever separates a record from its floor, every generation belongs to one request.
   */
  method Run(events: seq<Event>, store: FloorStore.Store, binding: Binding)
    returns (vault: Vault, credentials: seq<Option<Credential>>)
    requires FloorStore.ValidBinding(binding) && forall e <- events :: Proper(e, binding)
    requires FloorStore.Orderly(store.floors) && FloorStore.FloorFor(store.floors, binding) == Some(MarksAt(0, 0))
    modifies store
    ensures fresh(vault) && vault.Valid() && |credentials| == |events|
    ensures forall i :: 0 <= i < |events| && credentials[i].Some? ==>
              events[i].Call? && credentials[i].value.request == events[i].request
    ensures forall c <- credentials :: c.Some? ==>
              0 <= c.value.request.notBefore < c.value.request.notAfter <= c.value.request.notBefore + 86400
    ensures forall a <- credentials, b <- credentials :: a.Some? && b.Some? ==> Apart(a.value, b.value)
    ensures (forall e <- events :: Undisturbed(e)) ==>
              forall a <- credentials, b <- credentials ::
                a.Some? && b.Some? && a.value.generation == b.value.generation ==> a == b
  {
    hide Sound, Apart, MarksAt, Proper, FloorStore.ValidBinding, Given, Tidy, FloorStore.Orderly;
    RootIsTidy();
    vault := new Vault(store, binding);
    credentials := [];
    ghost var ids: seq<Id> := [];
    for i := 0 to |events|
      invariant fresh(vault) && vault.Valid() && |credentials| == |ids| == i
      invariant vault.store == store && vault.binding == binding
      invariant forall c <- credentials :: c.Some? ==>
                  0 <= c.value.request.notBefore < c.value.request.notAfter <= c.value.request.notBefore + 86400
      invariant forall j :: 0 <= j < i ==> Given(events[j], credentials[j], ids[j], vault.records, vault.released)
      invariant (forall j :: 0 <= j < i ==> Undisturbed(events[j])) ==> Tidy(vault.records, vault.owners)
    {
      ghost var records, released := vault.records, vault.released;
      assert events[i] in events;
      var credential, id := Perform(vault, events[i]);
      forall j | 0 <= j < i ensures Given(events[j], credentials[j], ids[j], vault.records, vault.released) {
        StillGiven(events[j], credentials[j], ids[j], records, released, vault.records, vault.released);
      }
      credentials, ids := credentials + [credential], ids + [id];
    }
    GivenApart(events, credentials, ids, vault.records, vault.ends, vault.owners, vault.released);
  }

  lemma RootIsTidy()
    ensures Tidy(map[Root := MarksAt(0, 0)], [Root])
  {
  }

  lemma GivenApart(events: seq<Event>, credentials: seq<Option<Credential>>, ids: seq<Id>, records: map<Id, Marks>,
                   ends: seq<nat>, owners: seq<Id>, released: set<Id>)
    requires Sound(records, ends, owners, released) && |credentials| == |ids| == |events|
    requires forall j :: 0 <= j < |events| ==> Given(events[j], credentials[j], ids[j], records, released)
    ensures forall i :: 0 <= i < |events| && credentials[i].Some? ==>
              events[i].Call? && credentials[i].value.request == events[i].request
    ensures forall a <- credentials, b <- credentials :: a.Some? && b.Some? ==> Apart(a.value, b.value)
    ensures Tidy(records, owners) ==>
              forall a <- credentials, b <- credentials ::
                a.Some? && b.Some? && a.value.generation == b.value.generation ==> a == b
  {
    hide Sound, Apart, Tidy;
    forall i, j | 0 <= i < |events| && 0 <= j < |events| && credentials[i].Some? && credentials[j].Some?
      ensures Apart(credentials[i].value, credentials[j].value)
      ensures Tidy(records, owners) && credentials[i].value.generation == credentials[j].value.generation ==>
                credentials[i] == credentials[j]
    {
      assert Given(events[i], credentials[i], ids[i], records, released);
      assert Given(events[j], credentials[j], ids[j], records, released);
      GivenOutApart(records, ends, owners, released, ids[i], ids[j]);
      if Tidy(records, owners) && credentials[i].value.generation == credentials[j].value.generation {
        TidyIsUnique(records, ends, owners, released, ids[i], ids[j]);
      }
    }
  }

  // ---------- one generation for two requests ----------

  lemma SampleEntryIsSmall(generation: nat, notAfter: nat)
    requires generation < 9 && notAfter < 10
    ensures Weight(Floor(FloorStore.ZeroBinding(Kind.Service), MarksAt(generation, notAfter))) <= 3000
  {
    hide Weight;
    SmallEntry(Floor(FloorStore.ZeroBinding(Kind.Service), MarksAt(generation, notAfter)));
  }

  lemma SampleIsAdmitted(r: Request)
    requires r.notBefore == 1 && r.notAfter == 9
    ensures Admits(MarksAt(0, 0), r) && Validity(r, 2) == (false, true)
    ensures MarksAt(0, 0).revision == 0 && Higher(MarksAt(1, 9), MarksAt(0, 0))
    ensures Successor(MarksAt(0, 0), r) == MarksAt(1, 9)
  {
    hide Higher;
    SuccessorIsNext(0, 0, r);
  }

  /** A service authority just created, alone in its vault and in the floor file. */
  method SampleVault() returns (vault: Vault)
    ensures fresh(vault) && fresh(vault.store) && vault.Valid() && vault.foreign == 0 && !vault.leftover
    ensures vault.binding == FloorStore.ZeroBinding(Kind.Service) && vault.records == map[Root := MarksAt(0, 0)]
    ensures vault.store.floors == [Floor(vault.binding, MarksAt(0, 0))] && FloorStore.Readable(vault.store.floors)
    ensures vault.Stands() == MarksAt(0, 0) && vault.ends == [0]
  {
    hide FloorStore.Readable, FloorStore.ValidFloor, FloorStore.ValidBinding, FloorStore.ZeroBinding, Sound, Weight, MarksAt;
    hide FloorStore.Orderly;
    var f := Floor(FloorStore.ZeroBinding(Kind.Service), MarksAt(0, 0));
    FloorStore.ZeroBindingIsValid(Kind.Service);
    SampleEntryIsSmall(0, 0);
    EntryIsValid(f.binding, 0, 0);
    var store := FloorStore.Alone(f);
    FloorStore.OneIsOrderly(f);
    vault := new Vault(store, f.binding);
  }

  /** An interruption can give one generation to two requests that end together. */
  method SharedGeneration() returns (first: Option<Credential>, second: Option<Credential>)
    ensures first.Some? && second.Some? && first.value.generation == second.value.generation == 1
    ensures first.value.request != second.value.request
  {
    hide FloorStore.Readable, FloorStore.Orderly, FloorStore.Moved, FloorStore.Confirmed, FloorStore.ValidFloor;
    hide FloorStore.ValidBinding, FloorStore.ZeroBinding, Sound, Weight, MarksAt, Higher, Admits, Validity, Successor;
    var a, b := Request(1, 1, 1, 9), Request(2, 2, 1, 9);
    var vault := SampleVault();
    ghost var f, g := Floor(vault.binding, MarksAt(0, 0)), Floor(vault.binding, MarksAt(1, 9));
    FloorStore.ZeroBindingIsValid(Kind.Service);
    SampleEntryIsSmall(1, 9);
    EntryIsValid(vault.binding, 1, 9);
    SampleIsAdmitted(a);
    SampleIsAdmitted(b);
    FloorStore.AloneMoves(f, g);
    var none := vault.Issue(Root, a, 2, Filed, Lost);
    LostMoves([f], g);
    first := vault.Issue(Root, b, 2, Filed, Done);
    second := vault.Issue(Root, a, 2, Filed, Done);
  }

  lemma LostMoves(floors: seq<Floor>, f: Floor)
    ensures FloorStore.Moved(floors, f, Lost) == floors && !FloorStore.Confirmed(floors, f, Lost)
  {
  }

  // ---------- a vault with a temporary left among its records ----------

  /** No record is ever made again; only requests whose record was there can still be served. */
  method Littered(vault: Vault, events: seq<Event>) returns (credentials: seq<Option<Credential>>)
    requires vault.Valid() && vault.leftover && forall e <- events :: Proper(e, vault.binding)
    modifies vault, vault.store
    ensures vault.Valid() && vault.leftover && vault.records == old(vault.records) && |credentials| == |events|
    ensures forall i :: 0 <= i < |events| && credentials[i].Some? ==>
              events[i].Call? && Next(events[i].id, events[i].request) in old(vault.records)
  {
    hide Sound, MarksAt, Proper, FloorStore.ValidBinding, Tidy, FloorStore.Orderly;
    credentials := [];
    for n := 0 to |events|
      invariant vault.Valid() && vault.leftover && vault.records == old(vault.records) && |credentials| == n
      invariant forall i :: 0 <= i < n && credentials[i].Some? ==>
                  events[i].Call? && Next(events[i].id, events[i].request) in old(vault.records)
    {
      assert events[n] in events;
      var credential, id := Perform(vault, events[n]);
      credentials := credentials + [credential];
    }
  }

  /** The first issuance, killed over its temporary, gets there with nothing but the root. */
  method LitteredRun() returns (vault: Vault)
    ensures fresh(vault) && fresh(vault.store) && vault.Valid() && vault.leftover && vault.records.Keys == {Root}
  {
    hide FloorStore.Readable, FloorStore.Orderly, FloorStore.ValidBinding, FloorStore.ZeroBinding, Sound, MarksAt;
    hide Higher, Admits, Validity, Successor, Issued, Enters, FloorsAfter;
    vault := SampleVault();
    var r := Request(1, 1, 1, 9);
    SampleIsAdmitted(r);
    var none := vault.Issue(Root, r, 2, Dropped(true), Done);
  }
}
