/**
 The admission authority of one vault: a base record, one replaceable ledger envelope, and its entry in the floor file
 it shares with all other authorities. Issuing writes the ledger first and the floor second, and either write may be
 cut short. Envelopes are transparent and digests are collision-free among the requests ever presented.
 */
module AdmissionAuthority {
  import opened Common
  import opened AuthorityFloor
  import opened FloorText
  import FloorStore
  import opened BigEndian
  import opened AdmissionJournal
  import opened AdmissionJournalCodec

  /** A decoded and holder-verified permission request; `rest` stands for the fields custody only passes through. */
  datatype Request = Request(id: nat, role: nat, maxima: (nat, nat, nat), notBefore: nat, notAfter: nat, rest: nat)

  /** An authority state: its marks and the bytes of its journal. */
  datatype Authority = Authority(marks: Marks, journal: seq<Byte>)

  const DOMAIN := "admission-allocation-sequence"
  const HOUR := 3600

  /** DecodePermissionRequest. */
  predicate Decodable(r: Request) {
    && 0 < r.id < Span(32) && (r.role == USER || r.role == PUBLISHER)
    && r.maxima.0 <= 65536 && r.maxima.1 <= 65536 && r.maxima.2 <= 65536
    && r.maxima.0 + r.maxima.1 + r.maxima.2 > 0
    && r.notBefore < Span(8) && r.notBefore % HOUR == 0 && r.notAfter == r.notBefore + HOUR
  }

  /** permissionTokens: a total over the 32-bit range counts as none. */
  function PermissionTokens(r: Request): nat {
    var total := r.maxima.0 + r.maxima.1 + r.maxima.2;
    if total >= UINT32_LIMIT then 0 else total
  }

  function AllocationOf(r: Request, digest: Request -> nat): Allocation {
    Allocation(r.notBefore, r.role, PermissionTokens(r), r.id, digest(r))
  }

  /** SHA-256, on the requests ever presented. */
  predicate CollisionFree(digest: Request -> nat, asked: set<Request>) {
    && (forall r <- asked :: 0 < digest(r) < Span(32))
    && (forall r <- asked, s <- asked :: digest(r) == digest(s) ==> r == s)
  }

  function MarksAt(sequence: nat): Marks {
    Marks(sequence + 1, sequence, [Watermark(DOMAIN, sequence)])
  }

  /** admissionLedgerFollowsFloor. */
  predicate Follows(state: Marks, floor: Marks) {
    && state.generation == (floor.generation + 1) % UINT64_LIMIT
    && state.revision == (floor.revision + 1) % UINT64_LIMIT
    && |state.watermarks| == |floor.watermarks|
    && forall i :: 0 <= i < |floor.watermarks| ==>
         && state.watermarks[i].domain == floor.watermarks[i].domain
         && state.watermarks[i].value == (floor.watermarks[i].value + 1) % UINT64_LIMIT
  }

  lemma NextFollows(sequence: nat)
    requires sequence + 2 < UINT64_LIMIT
    ensures Higher(MarksAt(sequence + 1), MarksAt(sequence)) && Follows(MarksAt(sequence + 1), MarksAt(sequence))
    ensures MarksAt(sequence + 1) != MarksAt(sequence)
  {
    AdvancedIsHigher(MarksAt(sequence), MarksAt(sequence + 1));
  }

  /** The floor file takes these marks. */
  lemma MarksAreValid(sequence: nat)
    ensures ValidWatermarks(MarksAt(sequence).watermarks)
  {
  }

  lemma EntryIsValid(binding: Binding, sequence: nat)
    requires FloorStore.ValidBinding(binding)
    ensures FloorStore.ValidFloor(Floor(binding, MarksAt(sequence)))
  {
    MarksAreValid(sequence);
  }

  // ---------- one journal ----------

  /** The allocation was made for some request. */
  predicate Made(a: Allocation, digest: Request -> nat, asked: set<Request>) {
    exists r <- asked :: Decodable(r) && a == AllocationOf(r, digest)
  }

  /** The allocations of one hour, as an issuance may leave them. */
  predicate Sound(journal: seq<Allocation>, window: nat, digest: Request -> nat, asked: set<Request>) {
    && (forall a <- journal :: a.window == window && Made(a, digest, asked))
    && DistinctIds(journal) && WithinBudget(journal)
  }

  /** The journal an issuance writes: the allocations of the requested hour and the new one, by identifier. */
  function Extended(journal: seq<Allocation>, a: Allocation): seq<Allocation> {
    SortById(ForWindow(journal, a.window) + [a])
  }

  predicate Fresh(journal: seq<Allocation>, a: Allocation) {
    && (forall b <- ForWindow(journal, a.window) :: b.id != a.id)
    && WithinBudget(ForWindow(journal, a.window) + [a])
  }

  lemma AscendingIsDistinct(journal: seq<Allocation>)
    requires Ascending(journal)
    ensures DistinctIds(journal)
  {
  }

  lemma SortDistinct(journal: seq<Allocation>)
    requires DistinctIds(journal)
    ensures DistinctIds(SortById(journal))
  {
    SortOrders(journal);
    AscendingIsDistinct(SortById(journal));
  }

  lemma ExtendedIsSound(journal: seq<Allocation>, window: nat, r: Request, digest: Request -> nat, asked: set<Request>)
    requires Sound(journal, window, digest, asked) && r in asked && Decodable(r) && Fresh(journal, AllocationOf(r, digest))
    ensures Sound(Extended(journal, AllocationOf(r, digest)), r.notBefore, digest, asked)
    ensures AllocationOf(r, digest) in Extended(journal, AllocationOf(r, digest))
    ensures r.notBefore == window ==> forall b <- journal :: b in Extended(journal, AllocationOf(r, digest))
  {
    hide SortById, WithinBudget, ForWindow, Decodable;
    var a := AllocationOf(r, digest);
    ForWindowOfOne(journal, a.window);
    var kept := ForWindow(journal, a.window);
    assert kept == if a.window == window then journal else [];
    assert DistinctIds(kept + [a]);
    SortMembers(kept + [a]);
    SortDistinct(kept + [a]);
    assert Made(a, digest, asked);
    assert forall b <- kept + [a] :: b.window == a.window && Made(b, digest, asked);
  }

  // ---------- sums over distinct permissions ----------

  lemma {:induction false} GrantedSplits(a: seq<Allocation>, b: seq<Allocation>, role: nat)
    ensures Granted(a + b, role) == Granted(a, role) + Granted(b, role)
  {
    if a == [] {
      assert a + b == b;
    } else {
      GrantedSplits(a[1..], b, role);
      assert (a + b)[1..] == a[1..] + b;
    }
  }

  /** Some of the entries of a list cannot add up to more than all of them. */
  lemma {:induction false} PartIsNoMore(part: seq<Allocation>, whole: seq<Allocation>, role: nat)
    requires NoRepeats(part) && forall a <- part :: a in whole
    ensures Granted(part, role) <= Granted(whole, role)
  {
    if part != [] {
      var a, rest := part[0], part[1..];
      assert a in whole;
      var i :| 0 <= i < |whole| && whole[i] == a;
      var others := whole[..i] + whole[i + 1..];
      assert whole == whole[..i] + ([a] + whole[i + 1..]);
      GrantedSplits(whole[..i], [a] + whole[i + 1..], role);
      GrantedSplits([a], whole[i + 1..], role);
      GrantedSplits(whole[..i], whole[i + 1..], role);
      forall b | b in rest ensures b in others {
        assert b in whole && b != a;
      }
      PartIsNoMore(rest, others, role);
      assert Granted([a], role) + Granted([], role) == if a.role == role then a.tokens else 0;
    }
  }

  function Allocations(requests: seq<Request>, digest: Request -> nat): (a: seq<Allocation>)
    ensures |a| == |requests|
    ensures forall i :: 0 <= i < |requests| ==> a[i] == AllocationOf(requests[i], digest)
  {
    seq(|requests|, i requires 0 <= i < |requests| => AllocationOf(requests[i], digest))
  }

  /** The tokens a list of permissions is worth to one role. */
  function Worth(requests: seq<Request>, role: nat): nat {
    if requests == [] then 0
    else (if requests[0].role == role then requests[0].maxima.0 + requests[0].maxima.1 + requests[0].maxima.2 else 0)
         + Worth(requests[1..], role)
  }

  lemma {:induction false} WorthIsGranted(requests: seq<Request>, role: nat, digest: Request -> nat)
    requires forall r <- requests :: Decodable(r)
    ensures Worth(requests, role) == Granted(Allocations(requests, digest), role)
  {
    if requests != [] {
      assert requests[0] in requests;
      WorthIsGranted(requests[1..], role, digest);
      assert Allocations(requests, digest)[1..] == Allocations(requests[1..], digest);
    }
  }

  // ---------- the books of all hours ----------

  function Hour(held: seq<Allocation>): nat {
    if held == [] then 0 else held[0].window
  }

  /** What was ever allocated, hour by hour: the journal holds the books of the newest hour. */
  predicate Booked(held: seq<Allocation>, books: map<nat, seq<Allocation>>, digest: Request -> nat, asked: set<Request>) {
    && (held == [] ==> books == map[])
    && (held != [] ==> Hour(held) in books && books[Hour(held)] == held)
    && forall w <- books :: w <= Hour(held) && Sound(books[w], w, digest, asked)
  }

  lemma HeldIsSound(held: seq<Allocation>, books: map<nat, seq<Allocation>>, digest: Request -> nat, asked: set<Request>)
    requires Booked(held, books, digest, asked)
    ensures Sound(held, Hour(held), digest, asked)
  {
  }

  /** Every permission ever released has its allocation in the books of its hour. */
  predicate Covered(released: set<Request>, books: map<nat, seq<Allocation>>, digest: Request -> nat, asked: set<Request>) {
    forall r <- released ::
      && r in asked && Decodable(r)
      && r.notBefore in books && AllocationOf(r, digest) in books[r.notBefore]
  }

  lemma Again(released: set<Request>, books: map<nat, seq<Allocation>>, r: Request, digest: Request -> nat, asked: set<Request>)
    requires Covered(released, books, digest, asked) && r in asked && Decodable(r)
    requires r.notBefore in books && AllocationOf(r, digest) in books[r.notBefore]
    ensures Covered(released + {r}, books, digest, asked)
  {
  }

  /** Entering one more allocation keeps the books and everything they cover. */
  lemma Enter(held: seq<Allocation>, books: map<nat, seq<Allocation>>, released: set<Request>, r: Request,
              digest: Request -> nat, asked: set<Request>)
    requires Booked(held, books, digest, asked) && Covered(released, books, digest, asked)
    requires r in asked && Decodable(r) && Fresh(held, AllocationOf(r, digest))
    requires forall b <- held :: b.window <= r.notBefore
    ensures var next := Extended(held, AllocationOf(r, digest));
            && next != [] && Hour(next) == r.notBefore
            && Booked(next, books[r.notBefore := next], digest, asked)
            && Covered(released + {r}, books[r.notBefore := next], digest, asked)
            && Covered(released, books[r.notBefore := next], digest, asked)
  {
    hide Fresh, Extended, Decodable, WithinBudget;
    var a := AllocationOf(r, digest);
    var next := Extended(held, a);
    HeldIsSound(held, books, digest, asked);
    if held != [] { assert held[0] in held; }
    ExtendedIsSound(held, Hour(held), r, digest, asked);
    assert next[0] in next;
    forall s | s in released ensures AllocationOf(s, digest) in books[r.notBefore := next][s.notBefore] {
      if s.notBefore == r.notBefore { assert books[s.notBefore] == held; }
    }
  }

  // ---------- the authority ----------

  const BASE := Authority(MarksAt(0), [])

  /** What openCurrentAdmissionAuthority reads when the floor allows it: the ledger if there is one, else the base. */
  function Shown(ledger: Option<Authority>): Authority {
    if ledger.Some? then ledger.value else BASE
  }

  /** The ledger ran ahead of its floor: an issuance stopped between its two writes. */
  predicate Orphaned(ledger: Option<Authority>, floor: Marks) {
    ledger.Some? && ledger.value.marks != floor
  }

  /**
   When opening succeeds: the floor file is readable, and an orphaned ledger stands over the base alone and its advance
   is confirmed.
   */
  predicate Opens(ledger: Option<Authority>, floors: seq<Floor>, binding: Binding, adopt: Write) {
    var floor := FloorStore.Standing(floors, binding);
    && FloorStore.Readable(floors)
    && (Orphaned(ledger, floor) ==>
          floor == BASE.marks && FloorStore.Confirmed(floors, Floor(binding, ledger.value.marks), adopt))
  }

  function OpenedFloors(ledger: Option<Authority>, floors: seq<Floor>, binding: Binding, adopt: Write): seq<Floor> {
    var floor := FloorStore.Standing(floors, binding);
    if Orphaned(ledger, floor) && floor == BASE.marks
    then FloorStore.Moved(floors, Floor(binding, ledger.value.marks), adopt) else floors
  }

  /** Over the base nothing was released yet, and the books of an adoptable ledger are its journal. */
  lemma AdoptFirst(l: Authority, held: seq<Allocation>, books: map<nat, seq<Allocation>>, released: set<Request>,
                   digest: Request -> nat, asked: set<Request>)
    requires Adoptable(l, digest, asked) && Holds(BASE, held)
    requires Booked(held, books, digest, asked) && Covered(released, books, digest, asked)
    ensures var j := Decoded(l.journal).value;
            Booked(j, map[Hour(j) := j], digest, asked) && Covered(released, map[Hour(j) := j], digest, asked)
  {
    hide Sound;
    assert released == {};
  }

  /** The journal bytes hold exactly these allocations. */
  ghost predicate Holds(state: Authority, held: seq<Allocation>) {
    Decoded(state.journal) == Some(held)
  }

  class Vault {
    const digest: Request -> nat
    ghost const asked: set<Request>
    const store: FloorStore.Store
    const binding: Binding
    var ledger: Option<Authority>

    /** The state the floor acknowledges, the allocations in it, all allocations by hour, all permissions given out. */
    ghost var current: Authority
    ghost var held: seq<Allocation>
    ghost var books: map<nat, seq<Allocation>>
    ghost var released: set<Request>

    /** The ledger is the acknowledged state or, after an interruption, exactly one step ahead of it. */
    ghost predicate Chained()
      reads this
    {
      && var sequence := current.marks.revision;
      && sequence + 1 < UINT64_LIMIT
      && current.marks == MarksAt(sequence)
      && (sequence == 0 ==> current == BASE)
      && match ledger {
           case None => current == BASE
           case Some(l) =>
             || l == current
             || (l.marks == MarksAt(sequence + 1) && sequence + 2 < UINT64_LIMIT
                 && (sequence == 0 ==> Adoptable(l, digest, asked)))
         }
    }

    /** The entry of this authority is the floor of the acknowledged state, whether the file can be read or not. */
    ghost predicate Acknowledged()
      reads this, store
    {
      && FloorStore.ValidBinding(binding) && FloorStore.Orderly(store.floors)
      && FloorStore.FloorFor(store.floors, binding) == Some(current.marks)
    }

    /** Where the floor file has this authority. */
    function Stands(): Marks
      reads store
    {
      FloorStore.Standing(store.floors, binding)
    }

    ghost predicate Valid()
      reads this, store
    {
      && CollisionFree(digest, asked)
      && Chained()
      && Acknowledged()
      && Holds(current, held)
      && Booked(held, books, digest, asked)
      && Covered(released, books, digest, asked)
    }

    constructor (digest: Request -> nat, ghost asked: set<Request>, store: FloorStore.Store, binding: Binding)
      requires CollisionFree(digest, asked) && FloorStore.ValidBinding(binding)
      requires FloorStore.Orderly(store.floors) && FloorStore.FloorFor(store.floors, binding) == Some(BASE.marks)
      ensures Valid() && this.digest == digest && this.asked == asked && this.store == store && this.binding == binding
      ensures ledger == None && released == {}
    {
      this.digest, this.asked, this.store, this.binding := digest, asked, store, binding;
      ledger := None;
      current, held, books, released := BASE, [], map[], {};
    }

    /** openCurrentAdmissionAuthority. */
    method Open(adopt: Write) returns (source: Option<Authority>)
      requires Valid()
      modifies this, store
      ensures Valid() && ledger == old(ledger) && released == old(released)
      ensures source == if Opens(ledger, old(store.floors), binding, adopt) then Some(Shown(ledger)) else None
      ensures source.Some? ==> source.value == current && FloorStore.Readable(store.floors)
      ensures store.floors == OpenedFloors(ledger, old(store.floors), binding, adopt)
    {
      hide CollisionFree, Booked, Covered, Decoded, Sound;
      hide FloorStore.Readable, FloorStore.Orderly, FloorStore.Confirmed, FloorStore.Moved, FloorStore.ValidFloor;
      NextFollows(0);
      var floor := FloorStore.Standing(store.floors, binding);
      if !FloorStore.Readable(store.floors) {
        UnreadableStays(store.floors, binding, Shown(ledger).marks, adopt);
        return None;
      }
      if ledger.None? { return if floor == BASE.marks then Some(BASE) else None; }
      if ledger.value.marks == floor { return ledger; }
      if floor != BASE.marks || !Follows(ledger.value.marks, floor) { return None; }
      EntryIsValid(binding, 1);
      var advanced := store.AdvanceKnown(Floor(binding, ledger.value.marks), adopt);
      if adopt != Lost {
        AdoptFirst(ledger.value, held, books, released, digest, asked);
        current, held := ledger.value, Decoded(ledger.value.journal).value;
        books := map[Hour(held) := held];
      }
      return if advanced then ledger else None;
    }

    /**
     issueAdmissionPermission. A permission is released exactly when the request is for the present hour, the
     authority opens, no newer hour is booked, and either the same request was allocated before or its allocation is
     new, fits the budget and both writes are confirmed. An interruption leaves the ledger at most one step ahead.
     */
    method Issue(request: Option<Request>, now: nat, adopt: Write, write: Write, advance: Write)
      returns (permission: Option<Request>)
      requires Valid() && (request.Some? ==> request.value in asked)
      modifies this, store
      ensures Valid()
      ensures permission.Some? <==>
              && request.Some? && Timely(request.value, now) && Opens(old(ledger), old(store.floors), binding, adopt)
              && Grantable(request.value, Shown(old(ledger)), digest)
              && (Reserved(request.value, Shown(old(ledger)), digest)
                  || (write.Done? && FloorStore.Confirmed(OpenedFloors(old(ledger), old(store.floors), binding, adopt),
                                                          NextEntry(binding, Shown(old(ledger))), advance)))
      ensures permission.Some? ==> permission == request && released == old(released) + {request.value}
      ensures permission.Some? ==> request.value.notBefore <= now < request.value.notBefore + 3600
      ensures permission.None? ==> released == old(released)
      ensures Reserves(request, old(ledger), old(store.floors), binding, now, adopt, digest) && write != Lost ==>
                ledger.Some? && IsSuccessor(ledger.value, Shown(old(ledger)), request.value, digest)
      ensures !Reserves(request, old(ledger), old(store.floors), binding, now, adopt, digest) || write == Lost ==>
                ledger == old(ledger)
      ensures store.floors ==
              if request.None? || !Timely(request.value, now) then old(store.floors)
              else if Reserves(request, old(ledger), old(store.floors), binding, now, adopt, digest) && write == Done
              then FloorStore.Moved(OpenedFloors(old(ledger), old(store.floors), binding, adopt),
                                    NextEntry(binding, Shown(old(ledger))), advance)
              else OpenedFloors(old(ledger), old(store.floors), binding, adopt)
    {
      hide Decodable, Fresh, Extended, Grantable, Reserved, Booked, Covered, CollisionFree, Decoded;
      hide FloorStore.Readable, FloorStore.Orderly, FloorStore.Confirmed, FloorStore.Moved, FloorStore.ValidFloor;
      hide Opens, OpenedFloors;
      if request.None? || !Decodable(request.value) { return None; }
      var r := request.value;
      if r.notBefore != now - now % HOUR { return None; }
      var source := Open(adopt);
      if source.None? { return None; }
      var verdict := Consider(source.value, r, digest, asked, held, books);
      if verdict.Refused? { return None; }
      if verdict.Repeated? {
        Again(released, books, r, digest, asked);
        released := released + {r};
        return request;
      }
      var ok := Commit(r, source.value, verdict.journal, write, advance);
      return if ok then request else None;
    }

    /** writeAdmissionSuccessor, then advanceFloor; only after both is the permission given out. */
    method Commit(r: Request, source: Authority, journal: seq<Byte>, write: Write, advance: Write) returns (ok: bool)
      requires Valid() && source == current && source == Shown(ledger) && FloorStore.Readable(store.floors)
      requires r in asked && Decodable(r) && Fresh(held, AllocationOf(r, digest))
      requires (forall b <- held :: b.window <= r.notBefore) && source.marks.generation < UINT64_LIMIT - 1
      requires Decoded(journal) == Some(Extended(held, AllocationOf(r, digest)))
      modifies this, store
      ensures Valid()
      ensures ledger == if write == Lost then old(ledger)
                        else Some(Authority(MarksAt(source.marks.revision + 1), journal))
      ensures store.floors == if write == Done
                              then FloorStore.Moved(old(store.floors), NextEntry(binding, source), advance)
                              else old(store.floors)
      ensures ok <==> write == Done && FloorStore.Confirmed(old(store.floors), NextEntry(binding, source), advance)
      ensures released == if ok then old(released) + {r} else old(released)
    {
      hide Decodable, Fresh, Extended, Booked, Covered, CollisionFree, Decoded;
      hide FloorStore.Readable, FloorStore.Orderly, FloorStore.Confirmed, FloorStore.Moved, FloorStore.ValidFloor;
      Enter(held, books, released, r, digest, asked);
      ghost var next := Extended(held, AllocationOf(r, digest));
      HeldIsSound(next, books[r.notBefore := next], digest, asked);
      var successor := Authority(MarksAt(source.marks.revision + 1), journal);
      NextFollows(source.marks.revision);
      if write == Lost { return false; }
      ledger := Some(successor);
      if write == Unconfirmed { return false; }
      EntryIsValid(binding, source.marks.revision + 1);
      ok := store.AdvanceKnown(NextEntry(binding, source), advance);
      if advance != Lost { current, held, books := successor, next, books[r.notBefore := next]; }
      if ok { released := released + {r}; }
    }
  }

  /** The floor an issuance moves to. */
  function NextEntry(binding: Binding, source: Authority): Floor {
    Floor(binding, MarksAt(source.marks.revision + 1))
  }

  lemma UnreadableStays(floors: seq<Floor>, binding: Binding, marks: Marks, write: Write)
    requires !FloorStore.Readable(floors)
    ensures FloorStore.Moved(floors, Floor(binding, marks), write) == floors
  {
    hide FloorStore.Readable;
  }

  /** The request names the present hour. */
  predicate Timely(r: Request, now: nat) {
    Decodable(r) && r.notBefore == now - now % HOUR
  }

  /** The request already has its allocation. */
  ghost predicate Reserved(r: Request, source: Authority, digest: Request -> nat) {
    Decoded(source.journal).Some? && AllocationOf(r, digest) in Decoded(source.journal).value
  }

  /** The allocations in this state leave room for the request, or already hold it. */
  ghost predicate Grantable(r: Request, source: Authority, digest: Request -> nat) {
    && Decoded(source.journal).Some?
    && var held := Decoded(source.journal).value;
    && (forall b <- held :: b.window <= r.notBefore)
    && (Reserved(r, source, digest)
        || (Fresh(held, AllocationOf(r, digest)) && source.marks.generation < UINT64_LIMIT - 1))
  }

  /** The call gets as far as writing a new ledger. */
  ghost predicate Reserves(request: Option<Request>, ledger: Option<Authority>, floors: seq<Floor>, binding: Binding,
                           now: nat, adopt: Write, digest: Request -> nat)
  {
    && request.Some? && Timely(request.value, now) && Opens(ledger, floors, binding, adopt)
    && Grantable(request.value, Shown(ledger), digest) && !Reserved(request.value, Shown(ledger), digest)
  }

  /** The one state that may follow: one step on, with the journal of the requested hour extended. */
  ghost predicate IsSuccessor(next: Authority, source: Authority, r: Request, digest: Request -> nat) {
    && Decoded(source.journal).Some?
    && next.marks == MarksAt(source.marks.revision + 1)
    && Decoded(next.journal) == Some(Extended(Decoded(source.journal).value, AllocationOf(r, digest)))
  }

  /** What the journal says about a request: no, the permission it already has, or the journal that reserves it. */
  datatype Verdict = Refused | Repeated | Reserve(journal: seq<Byte>)

  method Consider(source: Authority, r: Request, digest: Request -> nat, ghost asked: set<Request>,
                  ghost held: seq<Allocation>, ghost books: map<nat, seq<Allocation>>)
    returns (verdict: Verdict)
    requires source.marks.generation < UINT64_LIMIT
    requires Holds(source, held) && Booked(held, books, digest, asked)
    requires CollisionFree(digest, asked) && r in asked && Decodable(r)
    ensures verdict.Refused? <==> !Grantable(r, source, digest)
    ensures verdict.Repeated? <==> Grantable(r, source, digest) && Reserved(r, source, digest)
    ensures verdict.Repeated? ==> r.notBefore in books && AllocationOf(r, digest) in books[r.notBefore]
    ensures verdict.Reserve? ==>
              && Fresh(held, AllocationOf(r, digest)) && (forall b <- held :: b.window <= r.notBefore)
              && source.marks.generation < UINT64_LIMIT - 1
              && Decoded(verdict.journal) == Some(Extended(held, AllocationOf(r, digest)))
  {
    hide Decodable, Decoded, Fits, ForWindow, WithinBudget, Image, SortById, Made, CollisionFree, Canonical;
    var allocations := Decode(source.journal);
    var regressed := WindowRegressed(allocations.value, r.notBefore);
    if regressed { return Refused; }
    var kept := SelectWindow(allocations.value, r.notBefore);
    ForWindowMembers(held, r.notBefore);
    var a := AllocationOf(r, digest);
    var found := Find(kept, r.id);
    if found.Some? {
      Retry(r, found.value, held, books, digest, asked);
      return if found.value.digest == a.digest then Repeated else Refused;
    }
    var within := CheckBudget(kept + [a]);
    TokensPositive(kept, a);
    if a.tokens == 0 || !within || source.marks.generation == UINT64_LIMIT - 1 { return Refused; }
    HeldIsSound(held, books, digest, asked);
    Persists(source.journal, held, Hour(held), r, digest, asked);
    var journal := Encode(kept + [a]);
    return Reserve(journal.value);
  }

  lemma TokensPositive(kept: seq<Allocation>, a: Allocation)
    ensures WithinBudget(kept + [a]) ==> a.tokens > 0
  {
    assert a in kept + [a];
  }

  method Find(allocations: seq<Allocation>, id: nat) returns (found: Option<Allocation>)
    ensures found.None? <==> forall a <- allocations :: a.id != id
    ensures found.Some? ==> found.value in allocations && found.value.id == id
  {
    for i := 0 to |allocations|
      invariant forall a <- allocations[..i] :: a.id != id
    {
      if allocations[i].id == id { return Some(allocations[i]); }
    }
    return None;
  }

  /** A ledger one step ahead of the base can be taken over as it is. */
  ghost predicate Adoptable(l: Authority, digest: Request -> nat, asked: set<Request>) {
    && Decoded(l.journal).Some?
    && var j := Decoded(l.journal).value;
    && j != [] && Sound(j, Hour(j), digest, asked)
  }

  /** An allocation found under the identifier of a request is its own exactly when the digests agree. */
  lemma Retry(r: Request, found: Allocation, held: seq<Allocation>, books: map<nat, seq<Allocation>>,
              digest: Request -> nat, asked: set<Request>)
    requires CollisionFree(digest, asked) && Booked(held, books, digest, asked)
    requires r in asked && Decodable(r)
    requires found in held && found.window == r.notBefore && found.id == r.id
    ensures found.digest == digest(r) ==> found == AllocationOf(r, digest)
    ensures AllocationOf(r, digest) in held ==> found == AllocationOf(r, digest)
    ensures r.notBefore in books && books[r.notBefore] == held
  {
    hide Decodable, WithinBudget;
    assert held[0] in held;
    assert Made(found, digest, asked);
  }

  lemma HeldFits(raw: seq<Byte>, held: seq<Allocation>)
    requires Decoded(raw) == Some(held)
    ensures (forall a <- held :: Fits(a) && a.id != 0 && a.digest != 0) && DistinctIds(held)
  {
    hide Fits, WithinBudget;
    if raw != [] {
      assert IsImage(raw, held);
      AscendingIsDistinct(held);
    }
  }

  lemma AllocationFits(r: Request, digest: Request -> nat, asked: set<Request>)
    requires CollisionFree(digest, asked) && r in asked && Decodable(r)
    ensures Fits(AllocationOf(r, digest)) && AllocationOf(r, digest).id != 0 && AllocationOf(r, digest).digest != 0
  {
    assert Span(1) == 256 * Span(0);
    assert Span(2) == 256 * Span(1);
    assert Span(3) == 256 * Span(2);
    assert Span(4) == 256 * Span(3);
  }

  /** Encoding the extended journal and decoding it again loses nothing. */
  lemma Persists(raw: seq<Byte>, held: seq<Allocation>, window: nat, r: Request, digest: Request -> nat, asked: set<Request>)
    requires Decoded(raw) == Some(held) && Sound(held, window, digest, asked)
    requires CollisionFree(digest, asked) && r in asked && Decodable(r) && Fresh(held, AllocationOf(r, digest))
    ensures var allocations := ForWindow(held, r.notBefore) + [AllocationOf(r, digest)];
            && (forall a <- allocations :: Fits(a)) && DistinctIds(allocations)
            && |SortById(allocations)| < Span(4) && (forall a <- SortById(allocations) :: Fits(a))
            && Decoded(Image(SortById(allocations))) == Some(Extended(held, AllocationOf(r, digest)))
  {
    hide Fits, Decoded, SortById, ForWindow, WithinBudget, Decodable, Image, Made;
    var kept := ForWindow(held, r.notBefore);
    HeldFits(raw, held);
    AllocationFits(r, digest, asked);
    ForWindowOfOne(held, r.notBefore);
    assert kept == if r.notBefore == window then held else [];
    EncodingDecodesExactly(kept + [AllocationOf(r, digest)]);
  }

  // ---------- the quota, over whole runs ----------

  lemma AllocationsDiffer(batch: seq<Request>, digest: Request -> nat, asked: set<Request>)
    requires CollisionFree(digest, asked) && NoRepeats(batch) && forall r <- batch :: r in asked
    ensures NoRepeats(Allocations(batch, digest))
  {
    forall i, j | 0 <= i < j < |batch| ensures Allocations(batch, digest)[i] != Allocations(batch, digest)[j] {
      assert batch[i] in batch && batch[j] in batch;
    }
  }

  /** Different permissions of one hour never add up to more than the budget of their role. */
  lemma Quota(batch: seq<Request>, window: nat, released: set<Request>, held: seq<Allocation>,
              books: map<nat, seq<Allocation>>, digest: Request -> nat, asked: set<Request>)
    requires CollisionFree(digest, asked) && Booked(held, books, digest, asked) && Covered(released, books, digest, asked)
    requires NoRepeats(batch) && forall r <- batch :: r in released && r.notBefore == window
    ensures Worth(batch, USER) <= MAXIMUM_USER && Worth(batch, PUBLISHER) <= MAXIMUM_PUBLISHER
  {
    hide Decodable, AllocationOf;
    if batch != [] {
      assert batch[0] in batch;
      var part, whole := Allocations(batch, digest), books[window];
      AllocationsDiffer(batch, digest, asked);
      forall a | a in part ensures a in whole {
        var i :| 0 <= i < |part| && part[i] == a;
        assert batch[i] in batch;
      }
      PartIsNoMore(part, whole, USER);
      PartIsNoMore(part, whole, PUBLISHER);
      WorthIsGranted(batch, USER, digest);
      WorthIsGranted(batch, PUBLISHER, digest);
    }
  }

  /** A call of this authority, or an advance of another authority in the same floor file. */
  datatype Event =
    | Call(request: Option<Request>, now: nat, adopt: Write, write: Write, advance: Write)
    | Other(floor: Floor, write: Write)

  ghost predicate Proper(e: Event, binding: Binding, asked: set<Request>) {
    && (e.Call? && e.request.Some? ==> e.request.value in asked)
    && (e.Other? ==> FloorStore.ValidFloor(e.floor) && e.floor.binding != binding)
  }

  /** Different permissions of one hour, all given out. */
  predicate GivenOut(batch: seq<Request>, window: nat, permissions: seq<Option<Request>>) {
    NoRepeats(batch) && forall r <- batch :: Some(r) in permissions && r.notBefore == window
  }

  ghost predicate WithinQuota(permissions: seq<Option<Request>>) {
    forall batch: seq<Request>, window: nat | GivenOut(batch, window, permissions) ::
      Worth(batch, USER) <= 4096 && Worth(batch, PUBLISHER) <= 16384
  }

  lemma ReleasedWithinQuota(permissions: seq<Option<Request>>, released: set<Request>, held: seq<Allocation>,
                            books: map<nat, seq<Allocation>>, digest: Request -> nat, asked: set<Request>)
    requires CollisionFree(digest, asked) && Booked(held, books, digest, asked) && Covered(released, books, digest, asked)
    requires forall p <- permissions :: p.Some? ==> p.value in released
    ensures WithinQuota(permissions)
  {
    forall batch: seq<Request>, window: nat | GivenOut(batch, window, permissions)
      ensures Worth(batch, USER) <= MAXIMUM_USER && Worth(batch, PUBLISHER) <= MAXIMUM_PUBLISHER
    {
      Quota(batch, window, released, held, books, digest, asked);
    }
  }

  method Perform(vault: Vault, e: Event) returns (permission: Option<Request>)
    requires vault.Valid() && Proper(e, vault.binding, vault.asked)
    modifies vault, vault.store
    ensures vault.Valid() && old(vault.released) <= vault.released
    ensures permission.Some? ==>
              && e.Call? && permission == e.request && Timely(permission.value, e.now) && permission.value in vault.released
              && permission.value.notBefore <= e.now < permission.value.notBefore + 3600
    ensures !FloorStore.Readable(old(vault.store.floors)) ==>
              permission.None? && vault.ledger == old(vault.ledger) && vault.store.floors == old(vault.store.floors)
    ensures Orphaned(old(vault.ledger), old(vault.Stands())) && old(vault.Stands()) != BASE.marks ==>
              permission.None? && vault.ledger == old(vault.ledger) && vault.Stands() == old(vault.Stands())
  {
    hide CollisionFree, Booked, Covered, Timely, IsSuccessor, Grantable, Reserved, Decoded;
    hide FloorStore.Readable, FloorStore.Orderly, FloorStore.Confirmed, FloorStore.ValidFloor;
    match e
    case Call(request, now, adopt, write, advance) =>
      permission := vault.Issue(request, now, adopt, write, advance);
    case Other(floor, write) =>
      permission := None;
      var _ := vault.store.AdvanceOther(floor, write, vault.binding);
  }

  /**
   Any run: any requests, repeated and out of order, any clock, going back as it likes, any interruption of any write,
   and other authorities moving their floors in the same file, which may make it unreadable. The different permissions
   given out for any one hour stay within 4,096 tokens for users and 16,384 for publishers.
   */
  method Run(events: seq<Event>, digest: Request -> nat, ghost asked: set<Request>, store: FloorStore.Store, binding: Binding)
    returns (vault: Vault, permissions: seq<Option<Request>>)
    requires CollisionFree(digest, asked) && FloorStore.ValidBinding(binding)
    requires FloorStore.Orderly(store.floors) && FloorStore.FloorFor(store.floors, binding) == Some(BASE.marks)
    requires forall e <- events :: Proper(e, binding, asked)
    modifies store
    ensures fresh(vault) && vault.Valid() && |permissions| == |events|
    ensures forall i :: 0 <= i < |events| && permissions[i].Some? ==>
              && events[i].Call? && permissions[i] == events[i].request && Timely(permissions[i].value, events[i].now)
              && permissions[i].value.notBefore <= events[i].now < permissions[i].value.notBefore + 3600
    ensures WithinQuota(permissions)
  {
    hide CollisionFree, Booked, Covered, WithinQuota, Timely, Proper, FloorStore.ValidBinding;
    hide FloorStore.Readable, FloorStore.Orderly;
    vault := new Vault(digest, asked, store, binding);
    permissions := [];
    for i := 0 to |events|
      invariant fresh(vault) && vault.Valid()
      invariant vault.digest == digest && vault.asked == asked && vault.store == store && vault.binding == binding
      invariant |permissions| == i
      invariant forall j :: 0 <= j < i && permissions[j].Some? ==>
                  && events[j].Call? && permissions[j] == events[j].request && Timely(permissions[j].value, events[j].now)
                  && permissions[j].value.notBefore <= events[j].now < permissions[j].value.notBefore + 3600
                  && permissions[j].value in vault.released
    {
      assert events[i] in events;
      var permission := Perform(vault, events[i]);
      permissions := permissions + [permission];
    }
    ReleasedWithinQuota(permissions, vault.released, vault.held, vault.books, digest, asked);
  }

  /**
   An issuance interrupted between its two writes is recovered by the next call only if it was the first one ever
   (see Issue). After any later one the authority refuses every request for good.
   */
  method Interrupted(vault: Vault, events: seq<Event>) returns (permissions: seq<Option<Request>>)
    requires vault.Valid() && Orphaned(vault.ledger, vault.Stands()) && vault.Stands() != BASE.marks
    requires forall e <- events :: Proper(e, vault.binding, vault.asked)
    modifies vault, vault.store
    ensures vault.Valid() && vault.ledger == old(vault.ledger) && vault.Stands() == old(vault.Stands())
    ensures permissions == seq(|events|, _ => None)
  {
    hide CollisionFree, Booked, Covered, Timely, Proper, FloorStore.ValidBinding, FloorStore.Readable, FloorStore.Orderly;
    permissions := [];
    for i := 0 to |events|
      invariant vault.Valid() && vault.ledger == old(vault.ledger) && vault.Stands() == old(vault.Stands())
      invariant permissions == seq(i, _ => None)
    {
      assert events[i] in events;
      var permission := Perform(vault, events[i]);
      permissions := permissions + [permission];
    }
  }

  /** Once the shared file is unreadable, by whosever advance, every request is refused for good. */
  method Unreadable(vault: Vault, events: seq<Event>) returns (permissions: seq<Option<Request>>)
    requires vault.Valid() && !FloorStore.Readable(vault.store.floors)
    requires forall e <- events :: Proper(e, vault.binding, vault.asked)
    modifies vault, vault.store
    ensures vault.Valid() && vault.ledger == old(vault.ledger) && vault.store.floors == old(vault.store.floors)
    ensures permissions == seq(|events|, _ => None)
  {
    hide CollisionFree, Booked, Covered, Timely, Proper, FloorStore.ValidBinding, FloorStore.Readable, FloorStore.Orderly;
    permissions := [];
    for i := 0 to |events|
      invariant vault.Valid() && vault.ledger == old(vault.ledger) && vault.store.floors == old(vault.store.floors)
      invariant permissions == seq(i, _ => None)
    {
      assert events[i] in events;
      var permission := Perform(vault, events[i]);
      permissions := permissions + [permission];
    }
  }

  // ---------- how an authority gets there ----------

  function SampleRequest(id: nat): Request {
    Request(id, USER, (1, 0, 0), HOUR, 2 * HOUR, 0)
  }

  function SampleDigest(r: Request): nat {
    r.id
  }

  lemma SampleIsAskable()
    ensures Decodable(SampleRequest(1)) && Decodable(SampleRequest(2))
    ensures CollisionFree(SampleDigest, {SampleRequest(1), SampleRequest(2)})
  {
    SpanGrows(8);
    SpanGrows(32);
    hide Span;
  }

  lemma SampleEntryIsSmall(sequence: nat)
    requires sequence < 9
    ensures Weight(Floor(FloorStore.ZeroBinding(Kind.Admission), MarksAt(sequence))) <= 3000
  {
    hide Weight;
    SmallEntry(Floor(FloorStore.ZeroBinding(Kind.Admission), MarksAt(sequence)));
  }

  lemma SamplesFit(a: Allocation, b: Allocation)
    requires a.window == b.window != 0 && a.role == b.role == USER && a.tokens == b.tokens == 1 && a.id != b.id
    ensures Fresh([], a) && Extended([], a) == [a] && Fresh([a], b)
  {
    var none: seq<Allocation> := [];
    assert none + [a] == [a] && [a][1..] == none;
    assert SortById([a]) == Insert(a, SortById(none));
    ForWindowOfOne([a], a.window);
    GrantedAppends(none, a, USER);
    GrantedAppends(none, a, PUBLISHER);
    GrantedAppends([a], b, USER);
    GrantedAppends([a], b, PUBLISHER);
    hide Granted, Total;
  }

  lemma FirstGrant(r: Request, digest: Request -> nat)
    requires Fresh([], AllocationOf(r, digest))
    ensures Grantable(r, BASE, digest) && !Reserved(r, BASE, digest) && Decoded(BASE.journal) == Some([])
  {
    hide Fresh;
  }

  lemma SecondGrant(source: Authority, r: Request, s: Request, digest: Request -> nat)
    requires Decoded(source.journal) == Some([AllocationOf(r, digest)]) && source.marks == MarksAt(1)
    requires Fresh([AllocationOf(r, digest)], AllocationOf(s, digest)) && r.notBefore == s.notBefore && r.id != s.id
    ensures Grantable(s, source, digest) && !Reserved(s, source, digest)
  {
    hide Fresh, Decoded;
  }

  /** A vault of its own, with an authority just created. */
  method SampleVault() returns (vault: Vault)
    ensures fresh(vault) && fresh(vault.store) && vault.Valid() && vault.ledger.None?
    ensures vault.digest == SampleDigest && vault.asked == {SampleRequest(1), SampleRequest(2)}
    ensures vault.binding == FloorStore.ZeroBinding(Kind.Admission)
    ensures vault.store.floors == [Floor(vault.binding, BASE.marks)]
    ensures FloorStore.Readable(vault.store.floors)
  {
    hide FloorStore.ValidBinding, CollisionFree, Decodable, Weight, Booked, Covered, FloorStore.ZeroBinding;
    hide FloorStore.ValidFloor, FloorStore.Orderly, Document;
    var f := Floor(FloorStore.ZeroBinding(Kind.Admission), BASE.marks);
    FloorStore.ZeroBindingIsValid(Kind.Admission);
    EntryIsValid(f.binding, 0);
    SampleIsAskable();
    SampleEntryIsSmall(0);
    var store := FloorStore.Alone(f);
    vault := new Vault(SampleDigest, {SampleRequest(1), SampleRequest(2)}, store, f.binding);
  }

  /** Two issuances, the second interrupted between its writes, leave the authority where it refuses for good. */
  method InterruptedRun() returns (vault: Vault)
    ensures fresh(vault) && fresh(vault.store) && vault.Valid()
    ensures Orphaned(vault.ledger, vault.Stands()) && vault.Stands() != BASE.marks
  {
    hide FloorStore.ValidBinding, CollisionFree, Decodable, Weight, Booked, Covered, Decoded, Fresh, Extended;
    hide FloorStore.Fits, FloorStore.Readable, FloorStore.Orderly, FloorStore.Advanced;
    hide FloorStore.ValidFloor, FloorStore.ZeroBinding, Grantable, Reserved;
    vault := SampleVault();
    var r, s := SampleRequest(1), SampleRequest(2);
    ghost var a, b := AllocationOf(r, SampleDigest), AllocationOf(s, SampleDigest);
    SampleIsAskable();
    SamplesFit(a, b);
    FirstGrant(r, SampleDigest);
    SampleEntryIsSmall(1);
    ghost var f := Floor(FloorStore.ZeroBinding(Kind.Admission), MarksAt(1));
    EntryIsValid(FloorStore.ZeroBinding(Kind.Admission), 1);
    NextFollows(0);
    FloorStore.AloneMoves(Floor(FloorStore.ZeroBinding(Kind.Admission), BASE.marks), f);
    var first := vault.Issue(Some(r), HOUR, Done, Done, Done);
    assert vault.store.floors == [f];
    SecondGrant(vault.ledger.value, r, s, SampleDigest);
    var second := vault.Issue(Some(s), HOUR, Done, Done, Lost);
  }

  /** Eighty-eight other authorities, each with the watermarks it may have, lock this one out. */
  method UnreadableRun() returns (vault: Vault)
    ensures fresh(vault) && fresh(vault.store) && vault.Valid() && !FloorStore.Readable(vault.store.floors)
  {
    hide FloorStore.ValidBinding, CollisionFree, Booked, Covered, FloorStore.Readable, FloorStore.Orderly, Document;
    vault := SampleVault();
    FloorStore.OneIsUnclaimed(vault.store.floors[0]);
    FloorStore.Overfill(vault.store, vault.binding);
  }
}
