/**
 The allocations of one admission authority: their budget, their hourly windows and the journal bytes that hold them.
 A 32-byte identifier or digest is the number its bytes spell, so bytes.Compare is `<` and the zero array is 0.
 */
module AdmissionJournal {
  datatype Allocation = Allocation(window: nat, role: nat, tokens: nat, id: nat, digest: nat)

  const USER := 1
  const PUBLISHER := 2
  const MAXIMUM_USER := 4096
  const MAXIMUM_PUBLISHER := 16384
  const MAXIMUM_ISSUER := 65536
  const MAXIMUM_ENTRIES := MAXIMUM_USER + MAXIMUM_PUBLISHER
  const MAXIMUM_BYTES := 3 * 1024 * 1024
  const ENTRY_SIZE := 77

  // ---------- the budget ----------

  /** The tokens allocated to one role. */
  function Granted(allocations: seq<Allocation>, role: nat): nat {
    if allocations == [] then 0
    else (if allocations[0].role == role then allocations[0].tokens else 0) + Granted(allocations[1..], role)
  }

  function Total(allocations: seq<Allocation>): nat {
    if allocations == [] then 0 else allocations[0].tokens + Total(allocations[1..])
  }

  predicate WellFormed(a: Allocation) {
    0 < a.tokens <= MAXIMUM_ISSUER && a.window != 0 && (a.role == USER || a.role == PUBLISHER)
  }

  predicate WithinBudget(allocations: seq<Allocation>) {
    && (forall a <- allocations :: WellFormed(a))
    && Granted(allocations, USER) <= MAXIMUM_USER
    && Granted(allocations, PUBLISHER) <= MAXIMUM_PUBLISHER
    && Total(allocations) <= MAXIMUM_ISSUER
  }

  lemma {:induction false} GrantedAppends(allocations: seq<Allocation>, a: Allocation, role: nat)
    ensures Granted(allocations + [a], role) == Granted(allocations, role) + if a.role == role then a.tokens else 0
    ensures Total(allocations + [a]) == Total(allocations) + a.tokens
  {
    if allocations != [] {
      GrantedAppends(allocations[1..], a, role);
      assert (allocations + [a])[1..] == allocations[1..] + [a];
    }
  }

  /** withinAdmissionBudget: one pass with three running sums. */
  method CheckBudget(allocations: seq<Allocation>) returns (within: bool)
    ensures within <==> WithinBudget(allocations)
  {
    var user, publisher, issuer := 0, 0, 0;
    for n := 0 to |allocations|
      invariant user == Granted(allocations[..n], USER) && publisher == Granted(allocations[..n], PUBLISHER)
      invariant issuer == Total(allocations[..n])
      invariant forall i :: 0 <= i < n ==> WellFormed(allocations[i])
    {
      var a := allocations[n];
      if a.tokens == 0 || a.tokens > MAXIMUM_ISSUER || a.window == 0 || (a.role != USER && a.role != PUBLISHER) {
        assert a in allocations && !WellFormed(a);
        return false;
      }
      assert allocations[..n + 1] == allocations[..n] + [a];
      GrantedAppends(allocations[..n], a, USER);
      GrantedAppends(allocations[..n], a, PUBLISHER);
      issuer := issuer + a.tokens;
      if a.role == USER { user := user + a.tokens; } else { publisher := publisher + a.tokens; }
    }
    assert allocations[..|allocations|] == allocations;
    within := user <= MAXIMUM_USER && publisher <= MAXIMUM_PUBLISHER && issuer <= MAXIMUM_ISSUER;
  }

  lemma {:induction false} TotalIsGranted(allocations: seq<Allocation>)
    requires forall a <- allocations :: WellFormed(a)
    ensures Total(allocations) == Granted(allocations, USER) + Granted(allocations, PUBLISHER)
    ensures |allocations| <= Total(allocations)
  {
    if allocations != [] {
      assert WellFormed(allocations[0]);
      TotalIsGranted(allocations[1..]);
    }
  }

  /**
   The two role budgets alone already bound the number of entries and the encoded size, and they keep the issuer
   total so far below its own limit that the limit never decides anything.
   */
  lemma BudgetBounds(allocations: seq<Allocation>)
    requires forall a <- allocations :: WellFormed(a)
    requires Granted(allocations, USER) <= MAXIMUM_USER && Granted(allocations, PUBLISHER) <= MAXIMUM_PUBLISHER
    ensures WithinBudget(allocations)
    ensures |allocations| <= MAXIMUM_ENTRIES
    ensures 12 + ENTRY_SIZE * |allocations| <= MAXIMUM_BYTES
    ensures Total(allocations) <= MAXIMUM_ENTRIES < MAXIMUM_ISSUER
  {
    TotalIsGranted(allocations);
  }

  // ---------- windows ----------

  /** The allocations of one window, in order. */
  function ForWindow(allocations: seq<Allocation>, window: nat): seq<Allocation> {
    if allocations == [] then []
    else (if allocations[0].window == window then [allocations[0]] else []) + ForWindow(allocations[1..], window)
  }

  lemma {:induction false} ForWindowAppends(allocations: seq<Allocation>, a: Allocation, window: nat)
    ensures ForWindow(allocations + [a], window) == ForWindow(allocations, window) + if a.window == window then [a] else []
  {
    if allocations != [] {
      ForWindowAppends(allocations[1..], a, window);
      assert (allocations + [a])[1..] == allocations[1..] + [a];
    }
  }

  lemma {:induction false} ForWindowOfOne(allocations: seq<Allocation>, window: nat)
    ensures (forall a <- allocations :: a.window == window) ==> ForWindow(allocations, window) == allocations
    ensures (forall a <- allocations :: a.window != window) ==> ForWindow(allocations, window) == []
  {
    if allocations != [] { ForWindowOfOne(allocations[1..], window); }
  }

  /** admissionAllocationsForWindow. */
  lemma {:induction false} ForWindowMembers(allocations: seq<Allocation>, window: nat)
    ensures forall a :: a in ForWindow(allocations, window) <==> a in allocations && a.window == window
  {
    if allocations != [] { ForWindowMembers(allocations[1..], window); }
  }

  method SelectWindow(allocations: seq<Allocation>, window: nat) returns (current: seq<Allocation>)
    ensures current == ForWindow(allocations, window)
  {
    current := [];
    for n := 0 to |allocations|
      invariant current == ForWindow(allocations[..n], window)
    {
      assert allocations[..n + 1] == allocations[..n] + [allocations[n]];
      ForWindowAppends(allocations[..n], allocations[n], window);
      if allocations[n].window == window { current := current + [allocations[n]]; }
    }
    assert allocations[..|allocations|] == allocations;
  }

  /** admissionAllocationWindowRegressed. */
  method WindowRegressed(allocations: seq<Allocation>, window: nat) returns (regressed: bool)
    ensures regressed <==> exists a <- allocations :: a.window > window
  {
    for n := 0 to |allocations|
      invariant forall i :: 0 <= i < n ==> allocations[i].window <= window
    {
      if allocations[n].window > window { return true; }
    }
    regressed := false;
  }

  // ---------- order by identifier ----------

  predicate Ascending(allocations: seq<Allocation>) {
    forall i, j :: 0 <= i < j < |allocations| ==> allocations[i].id < allocations[j].id
  }

  predicate DistinctIds(allocations: seq<Allocation>) {
    forall i, j :: 0 <= i < j < |allocations| ==> allocations[i].id != allocations[j].id
  }

  function Insert(a: Allocation, sorted: seq<Allocation>): seq<Allocation> {
    if sorted == [] then [a]
    else if a.id <= sorted[0].id then [a] + sorted
    else [sorted[0]] + Insert(a, sorted[1..])
  }

  function SortById(allocations: seq<Allocation>): seq<Allocation> {
    if allocations == [] then [] else Insert(allocations[0], SortById(allocations[1..]))
  }

  lemma {:induction false} InsertKeeps(a: Allocation, sorted: seq<Allocation>)
    ensures multiset(Insert(a, sorted)) == multiset(sorted) + multiset{a}
    ensures |Insert(a, sorted)| == |sorted| + 1
  {
    if sorted != [] && a.id > sorted[0].id {
      InsertKeeps(a, sorted[1..]);
      assert sorted == [sorted[0]] + sorted[1..];
    }
  }

  lemma {:induction false} InsertGrants(a: Allocation, sorted: seq<Allocation>, role: nat)
    ensures Granted(Insert(a, sorted), role) == Granted(sorted, role) + if a.role == role then a.tokens else 0
    ensures Total(Insert(a, sorted)) == Total(sorted) + a.tokens
  {
    if sorted != [] && a.id > sorted[0].id {
      InsertGrants(a, sorted[1..], role);
      assert Insert(a, sorted)[1..] == Insert(a, sorted[1..]);
    } else {
      assert Insert(a, sorted)[1..] == sorted;
    }
  }

  lemma {:induction false} SortKeeps(allocations: seq<Allocation>)
    ensures multiset(SortById(allocations)) == multiset(allocations)
    ensures |SortById(allocations)| == |allocations|
  {
    if allocations != [] {
      SortKeeps(allocations[1..]);
      InsertKeeps(allocations[0], SortById(allocations[1..]));
      assert allocations == [allocations[0]] + allocations[1..];
    }
  }

  lemma {:induction false} SortGrants(allocations: seq<Allocation>, role: nat)
    ensures Granted(SortById(allocations), role) == Granted(allocations, role)
    ensures Total(SortById(allocations)) == Total(allocations)
  {
    if allocations != [] {
      SortGrants(allocations[1..], role);
      InsertGrants(allocations[0], SortById(allocations[1..]), role);
    }
  }

  lemma SortMembers(allocations: seq<Allocation>)
    ensures forall a :: a in SortById(allocations) <==> a in allocations
    ensures WithinBudget(SortById(allocations)) <==> WithinBudget(allocations)
  {
    SortKeeps(allocations);
    SortGrants(allocations, USER);
    SortGrants(allocations, PUBLISHER);
    forall a ensures a in SortById(allocations) <==> a in allocations {
      assert a in SortById(allocations) <==> a in multiset(SortById(allocations));
      assert a in allocations <==> a in multiset(allocations);
    }
  }

  lemma {:induction false} InsertMembers(a: Allocation, sorted: seq<Allocation>)
    ensures forall b :: b in Insert(a, sorted) <==> b == a || b in sorted
  {
    if sorted != [] {
      InsertMembers(a, sorted[1..]);
      assert sorted == [sorted[0]] + sorted[1..];
    }
  }

  lemma FirstAscends(first: Allocation, rest: seq<Allocation>)
    requires Ascending(rest) && forall b <- rest :: first.id < b.id
    ensures Ascending([first] + rest)
  {
  }

  lemma {:induction false} InsertOrders(a: Allocation, sorted: seq<Allocation>)
    requires Ascending(sorted) && forall b <- sorted :: b.id != a.id
    ensures Ascending(Insert(a, sorted))
  {
    if sorted != [] {
      var first, rest := sorted[0], sorted[1..];
      assert sorted == [first] + rest;
      assert first in sorted && forall b <- rest :: b in sorted && first.id < b.id;
      if a.id > first.id {
        InsertOrders(a, rest);
        InsertMembers(a, rest);
        FirstAscends(first, Insert(a, rest));
      } else {
        FirstAscends(a, sorted);
      }
    }
  }

  /** Sorting orders the identifiers strictly exactly when no two are equal. */
  lemma {:induction false} SortOrders(allocations: seq<Allocation>)
    ensures Ascending(SortById(allocations)) <==> DistinctIds(allocations)
  {
    if DistinctIds(allocations) {
      SortAscends(allocations);
    } else {
      var i, j :| 0 <= i < j < |allocations| && allocations[i].id == allocations[j].id;
      SortKeeps(allocations);
      RepeatedId(allocations, SortById(allocations), i, j);
    }
  }

  lemma {:induction false} SortAscends(allocations: seq<Allocation>)
    requires DistinctIds(allocations)
    ensures Ascending(SortById(allocations))
  {
    if allocations != [] {
      SortAscends(allocations[1..]);
      SortMembers(allocations[1..]);
      InsertOrders(allocations[0], SortById(allocations[1..]));
    }
  }

  /** A rearrangement of a list with a repeated identifier repeats it too. */
  lemma RepeatedId(allocations: seq<Allocation>, sorted: seq<Allocation>, i: nat, j: nat)
    requires i < j < |allocations| && allocations[i].id == allocations[j].id
    requires multiset(sorted) == multiset(allocations)
    ensures !Ascending(sorted)
  {
    var a, b := allocations[i], allocations[j];
    assert allocations == allocations[..i] + [a] + allocations[i + 1..j] + [b] + allocations[j + 1..];
    if a == b {
      assert multiset(sorted)[a] >= 2;
      TwoPlaces(sorted, a);
    } else {
      assert a in multiset(sorted) && b in multiset(sorted);
      assert a in sorted && b in sorted;
    }
  }

  lemma {:induction false} TwoPlaces(s: seq<Allocation>, a: Allocation)
    requires multiset(s)[a] >= 2
    ensures exists i, j :: 0 <= i < j < |s| && s[i] == a && s[j] == a
  {
    assert s == [s[0]] + s[1..];
    if s[0] == a {
      assert a in multiset(s[1..]);
      assert a in s[1..];
      var k :| 0 <= k < |s[1..]| && s[1..][k] == a;
      assert s[0] == a && s[k + 1] == a;
    } else {
      TwoPlaces(s[1..], a);
      var i, j :| 0 <= i < j < |s[1..]| && s[1..][i] == a && s[1..][j] == a;
      assert s[i + 1] == a && s[j + 1] == a;
    }
  }
}
