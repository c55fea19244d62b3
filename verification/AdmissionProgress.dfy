/**
 What the admission authority does give out: a fresh request within the budget, a request that has its allocation, and
 the first request of all after its issuance was cut off between ledger and floor.
 */
module AdmissionProgress {
  import opened Common
  import opened AuthorityFloor
  import opened FloorText
  import FloorStore
  import opened BigEndian
  import opened AdmissionJournal
  import opened AdmissionJournalCodec
  import opened AdmissionAuthority

  /** The fields of a request for the hour of the clock, at a time when the floor file can be read. */
  predicate WellPut(r: Request, now: nat) {
    && 0 < r.id < Span(32) && (r.role == 1 || r.role == 2)
    && r.maxima.0 <= 65536 && r.maxima.1 <= 65536 && r.maxima.2 <= 65536
    && 0 < r.notBefore < Span(8) && r.notBefore % 3600 == 0 && r.notAfter == r.notBefore + 3600
    && r.notBefore <= now < r.notAfter
  }

  /** The tokens a request asks for. */
  function Asked(r: Request): nat {
    r.maxima.0 + r.maxima.1 + r.maxima.2
  }

  lemma WellPutIsTimely(r: Request, now: nat)
    requires WellPut(r, now) && Asked(r) > 0
    ensures Timely(r, now)
  {
    hide Span;
    assert now - now % 3600 == r.notBefore;
  }

  /** What an hour may still give to a role. */
  function Allowance(role: nat): nat {
    if role == 1 then 4096 else 16384
  }

  lemma BudgetLeft(held: seq<Allocation>, books: map<nat, seq<Allocation>>, r: Request, digest: Request -> nat,
                   asked: set<Request>)
    requires Booked(held, books, digest, asked) && Asked(r) > 0 && r.notBefore > 0 && (r.role == 1 || r.role == 2)
    requires forall a <- held :: a.window == r.notBefore ==> a.id != r.id
    requires Granted(ForWindow(held, r.notBefore), r.role) + Asked(r) <= Allowance(r.role)
    ensures Fresh(held, AllocationOf(r, digest))
  {
    var a := AllocationOf(r, digest);
    HeldIsSound(held, books, digest, asked);
    ForWindowMembers(held, r.notBefore);
    ForWindowOfOne(held, r.notBefore);
    var kept := ForWindow(held, r.notBefore);
    KeptIsWithin(held, kept);
    hide ForWindow;
    GrantedAppends(kept, a, USER);
    GrantedAppends(kept, a, PUBLISHER);
    TotalIsGranted(kept);
  }

  lemma KeptIsWithin(held: seq<Allocation>, kept: seq<Allocation>)
    requires WithinBudget(held) && (kept == held || kept == [])
    ensures WithinBudget(kept)
  {
  }

  /** A fresh request within the budget of its hour is given out, and the authority moves on by one. */
  method GrantsFresh(vault: Vault, r: Request, now: nat) returns (permission: Option<Request>)
    requires vault.Valid() && r in vault.asked && WellPut(r, now) && Asked(r) > 0
    requires vault.ledger.Some? ==> vault.ledger.value.marks == vault.Stands()
    requires forall a <- vault.held :: a.window <= r.notBefore && (a.window == r.notBefore ==> a.id != r.id)
    requires Granted(ForWindow(vault.held, r.notBefore), r.role) + Asked(r) <= Allowance(r.role)
    requires FloorStore.Readable(vault.store.floors) && vault.Stands().revision + 2 < UINT64_LIMIT
    requires FloorStore.Fits(vault.store.floors, Floor(vault.binding, MarksAt(vault.Stands().revision + 1)))
    modifies vault, vault.store
    ensures vault.Valid() && permission == Some(r)
    ensures vault.Stands() == MarksAt(old(vault.Stands().revision) + 1)
  {
    hide Decodable, Fresh, Booked, Covered, CollisionFree, Decoded, ForWindow, Granted, WellPut;
    hide FloorStore.Readable, FloorStore.Orderly, FloorStore.Fits, FloorStore.ValidFloor, FloorStore.Advanced;
    WellPutIsTimely(r, now);
    WellPutHasFields(r, now);
    BudgetLeft(vault.held, vault.books, r, vault.digest, vault.asked);
    NotYet(vault.held, r, vault.digest);
    ghost var source := vault.current;
    EntryIsValid(vault.binding, source.marks.revision + 1);
    NextFollows(source.marks.revision);
    FloorStore.KnownBindingAdvances(vault.store.floors, NextEntry(vault.binding, source), Done);
    permission := vault.Issue(Some(r), now, Done, Done, Done);
  }

  lemma WellPutHasFields(r: Request, now: nat)
    requires WellPut(r, now)
    ensures r.notBefore > 0 && (r.role == 1 || r.role == 2)
  {
  }

  lemma NotYet(held: seq<Allocation>, r: Request, digest: Request -> nat)
    requires forall a <- held :: a.window == r.notBefore ==> a.id != r.id
    ensures AllocationOf(r, digest) !in held
  {
  }

  /** A request that has its allocation is given out again within its hour, and nothing changes. */
  method GrantsAgain(vault: Vault, r: Request, now: nat, write: Write, advance: Write) returns (permission: Option<Request>)
    requires vault.Valid() && r in vault.asked && WellPut(r, now) && Asked(r) > 0
    requires vault.ledger.Some? && vault.ledger.value.marks == vault.Stands()
    requires AllocationOf(r, vault.digest) in vault.held && FloorStore.Readable(vault.store.floors)
    modifies vault, vault.store
    ensures vault.Valid() && permission == Some(r)
    ensures vault.ledger == old(vault.ledger) && vault.store.floors == old(vault.store.floors)
  {
    hide Decodable, Fresh, Covered, CollisionFree, Decoded, WellPut, Sound;
    hide FloorStore.Readable, FloorStore.Orderly, FloorStore.Fits, FloorStore.ValidFloor, FloorStore.Advanced;
    WellPutIsTimely(r, now);
    OneHour(vault.held, vault.books, vault.digest, vault.asked, AllocationOf(r, vault.digest));
    permission := vault.Issue(Some(r), now, Done, write, advance);
  }

  lemma OneHour(held: seq<Allocation>, books: map<nat, seq<Allocation>>, digest: Request -> nat, asked: set<Request>,
                a: Allocation)
    requires Booked(held, books, digest, asked) && a in held
    ensures forall b <- held :: b.window <= a.window
  {
    HeldIsSound(held, books, digest, asked);
  }

  /** A ledger one step ahead of the base is taken over, and the floor follows it. */
  method Adopts(vault: Vault) returns (source: Option<Authority>)
    requires vault.Valid() && vault.ledger.Some? && vault.ledger.value.marks == MarksAt(1) && vault.Stands() == MarksAt(0)
    requires FloorStore.Readable(vault.store.floors)
    requires FloorStore.Fits(vault.store.floors, Floor(vault.binding, MarksAt(1)))
    modifies vault, vault.store
    ensures vault.Valid() && source == old(vault.ledger) == vault.ledger && vault.Stands() == MarksAt(1)
    ensures FloorStore.Readable(vault.store.floors)
  {
    hide Booked, Covered, CollisionFree, Decoded, Sound;
    hide FloorStore.Readable, FloorStore.Orderly, FloorStore.Fits, FloorStore.ValidFloor, FloorStore.Advanced;
    EntryIsValid(vault.binding, 1);
    NextFollows(0);
    FloorStore.KnownBindingAdvances(vault.store.floors, Floor(vault.binding, MarksAt(1)), Done);
    source := vault.Open(Done);
  }

  /** The first issuance of all dies between ledger and floor, and the same request is given out on the next call. */
  method AdoptedRun() returns (first: Option<Request>, second: Option<Request>, vault: Vault)
    ensures fresh(vault) && fresh(vault.store) && vault.Valid()
    ensures first.None? && second == Some(SampleRequest(1)) && vault.Stands() == MarksAt(1)
  {
    hide FloorStore.ValidBinding, CollisionFree, Decodable, Weight, Booked, Covered, Decoded, Fresh, Extended;
    hide FloorStore.Fits, FloorStore.Readable, FloorStore.Orderly, FloorStore.Advanced;
    hide FloorStore.ValidFloor, FloorStore.ZeroBinding, Grantable, Reserved;
    vault := SampleVault();
    var r := SampleRequest(1);
    ghost var a := AllocationOf(r, SampleDigest);
    SampleIsAskable();
    SamplesFit(a, AllocationOf(SampleRequest(2), SampleDigest));
    FirstGrant(r, SampleDigest);
    SampleEntryIsSmall(1);
    ghost var f := Floor(FloorStore.ZeroBinding(Kind.Admission), MarksAt(1));
    EntryIsValid(FloorStore.ZeroBinding(Kind.Admission), 1);
    NextFollows(0);
    FloorStore.AloneMoves(Floor(FloorStore.ZeroBinding(Kind.Admission), BASE.marks), f);
    first := vault.Issue(Some(r), HOUR, Done, Done, Lost);
    HasAllocation(vault.ledger.value, r, SampleDigest);
    second := vault.Issue(Some(r), HOUR, Done, Done, Done);
  }

  lemma HasAllocation(ledger: Authority, r: Request, digest: Request -> nat)
    requires Decoded(ledger.journal) == Some([AllocationOf(r, digest)])
    ensures Grantable(r, ledger, digest) && Reserved(r, ledger, digest)
  {
    hide Decoded;
  }
}
