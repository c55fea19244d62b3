/**
 The authority-floor file: one sorted list for all bindings, rewritten as a whole on every advance. It behaves as a
 map from bindings to strictly rising marks for as long as it holds at most 1,024 bindings in at most 1 MiB of text.
 */
module FloorStore {
  import opened Common
  import opened TextOrder
  import opened AuthorityFloor
  import opened FloorText

  const MAXIMUM_FLOORS := 1024

  predicate ValidHex(text: string) {
    |text| == 64 && forall c <- text :: '0' <= c <= '9' || 'a' <= c <= 'f'
  }

  predicate ValidFloor(f: Floor) {
    ValidBinding(f.binding) && ValidWatermarks(f.marks.watermarks)
  }

  predicate ValidBinding(binding: Binding) {
    ValidHex(binding.environment) && ValidHex(binding.network) && ValidHex(binding.root) && ValidHex(binding.commitment)
  }

  /** floorKey: plain concatenation, with the kind of varying length in the middle. */
  function Key(f: Floor): string {
    f.binding.environment + f.binding.network + f.binding.root + KindText(f.binding.kind) + f.binding.commitment
  }

  /** The concatenation still tells every two bindings apart. */
  lemma KeyInjective(f: Floor, g: Floor)
    requires ValidFloor(f) && ValidFloor(g) && Key(f) == Key(g)
    ensures f.binding == g.binding
  {
    var k, n := Key(f), |KindText(f.binding.kind)|;
    assert n == |KindText(g.binding.kind)|;
    assert f.binding.environment == k[..64] == g.binding.environment;
    assert f.binding.network == k[64..128] == g.binding.network;
    assert f.binding.root == k[128..192] == g.binding.root;
    assert KindText(f.binding.kind) == k[192..192 + n] == KindText(g.binding.kind);
    assert f.binding.commitment == k[192 + n..] == g.binding.commitment;
  }

  predicate Ascending(floors: seq<Floor>) {
    forall i, j :: 0 <= i < j < |floors| ==> Before(Key(floors[i]), Key(floors[j]))
  }

  /** Valid entries in strictly ascending order of their keys. */
  predicate Orderly(floors: seq<Floor>) {
    (forall f <- floors :: ValidFloor(f)) && Ascending(floors)
  }

  /** What readFloors accepts. */
  predicate Readable(floors: seq<Floor>) {
    |floors| <= MAXIMUM_FLOORS && |Document(floors)| <= MAXIMUM_BYTES && Orderly(floors)
  }

  /** floorFor: the first entry of a binding. */
  function FloorFor(floors: seq<Floor>, binding: Binding): Option<Marks> {
    if floors == [] then None
    else if floors[0].binding == binding then Some(floors[0].marks)
    else FloorFor(floors[1..], binding)
  }

  /** The list with the entry of this binding replaced, or appended when it is new. */
  function Replaced(floors: seq<Floor>, f: Floor): seq<Floor> {
    if floors == [] then [f]
    else if floors[0].binding == f.binding then [f] + floors[1..]
    else [floors[0]] + Replaced(floors[1..], f)
  }

  function Insert(f: Floor, floors: seq<Floor>): seq<Floor> {
    if floors == [] then [f]
    else if Before(Key(f), Key(floors[0])) then [f] + floors
    else [floors[0]] + Insert(f, floors[1..])
  }

  function Sort(floors: seq<Floor>): seq<Floor> {
    if floors == [] then [] else Insert(floors[0], Sort(floors[1..]))
  }

  function Advanced(floors: seq<Floor>, f: Floor): seq<Floor> {
    Sort(Replaced(floors, f))
  }

  // ---------- a list without repeated bindings is a map ----------

  predicate Distinct(floors: seq<Floor>) {
    forall i, j :: 0 <= i < j < |floors| ==> floors[i].binding != floors[j].binding
  }

  lemma AscendingIsDistinct(floors: seq<Floor>)
    requires Ascending(floors)
    ensures Distinct(floors)
  {
    forall i, j | 0 <= i < j < |floors| ensures floors[i].binding != floors[j].binding {
      BeforeIrreflexive(Key(floors[i]));
    }
  }

  lemma {:induction false} FloorForFinds(floors: seq<Floor>, binding: Binding)
    requires Distinct(floors)
    ensures forall f <- floors :: f.binding == binding ==> FloorFor(floors, binding) == Some(f.marks)
    ensures FloorFor(floors, binding).Some? ==> Floor(binding, FloorFor(floors, binding).value) in floors
  {
    if floors != [] {
      FloorForFinds(floors[1..], binding);
      assert floors == [floors[0]] + floors[1..];
    }
  }

  lemma {:induction false} ReplacedMembers(floors: seq<Floor>, f: Floor)
    requires Distinct(floors)
    ensures forall g :: g in Replaced(floors, f) <==> g == f || (g in floors && g.binding != f.binding)
    ensures Distinct(Replaced(floors, f))
  {
    if floors != [] {
      var first, rest := floors[0], floors[1..];
      assert floors == [first] + rest;
      if first.binding != f.binding {
        ReplacedMembers(rest, f);
        assert forall g <- Replaced(rest, f) :: g.binding != first.binding;
      }
    }
  }

  lemma {:induction false} ReplacedLookup(floors: seq<Floor>, f: Floor, binding: Binding)
    ensures |Replaced(floors, f)| == if FloorFor(floors, f.binding).Some? then |floors| else |floors| + 1
    ensures FloorFor(Replaced(floors, f), binding) == if binding == f.binding then Some(f.marks) else FloorFor(floors, binding)
  {
    if floors != [] && floors[0].binding != f.binding { ReplacedLookup(floors[1..], f, binding); }
  }

  // ---------- sorting keeps the entries and orders the keys ----------

  predicate FreshKey(f: Floor, floors: seq<Floor>) {
    forall g <- floors :: Key(g) != Key(f)
  }

  lemma {:induction false} InsertSorts(f: Floor, floors: seq<Floor>)
    requires Ascending(floors) && FreshKey(f, floors)
    ensures Ascending(Insert(f, floors)) && |Insert(f, floors)| == |floors| + 1
    ensures forall g :: g in Insert(f, floors) <==> g == f || g in floors
  {
    hide Before, Key;
    if floors != [] {
      var first, rest := floors[0], floors[1..];
      assert floors == [first] + rest;
      if Before(Key(f), Key(first)) {
        forall j | 0 <= j < |rest| ensures Before(Key(f), Key(rest[j])) {
          assert rest[j] == floors[j + 1];
          BeforeTransitive(Key(f), Key(first), Key(rest[j]));
        }
      } else {
        InsertSorts(f, rest);
        BeforeTotal(Key(f), Key(first));
        assert forall g <- rest :: Before(Key(first), Key(g));
      }
    }
  }

  lemma {:induction false} SortSorts(floors: seq<Floor>)
    requires Distinct(floors) && forall f <- floors :: ValidFloor(f)
    ensures Ascending(Sort(floors)) && |Sort(floors)| == |floors|
    ensures forall g :: g in Sort(floors) <==> g in floors
  {
    if floors != [] {
      var first, rest := floors[0], floors[1..];
      assert floors == [first] + rest;
      SortSorts(rest);
      forall g | g in Sort(rest) ensures Key(g) != Key(first) {
        if Key(g) == Key(first) { KeyInjective(g, first); }
      }
      InsertSorts(first, Sort(rest));
    }
  }

  lemma SameFirst(a: seq<Floor>, b: seq<Floor>)
    requires Ascending(a) && Ascending(b) && (forall f :: f in a <==> f in b) && a != []
    ensures b != [] && a[0] == b[0]
  {
    hide Before, Key;
    assert a[0] in a;
    assert a[0] in b;
    assert b[0] in a;
    var i :| 0 <= i < |b| && b[i] == a[0];
    var j :| 0 <= j < |a| && a[j] == b[0];
    if i > 0 && j > 0 {
      BeforeTransitive(Key(a[0]), Key(b[0]), Key(a[0]));
      BeforeIrreflexive(Key(a[0]));
    }
  }

  /** Any ascending arrangement of the same entries is the same list, whatever algorithm produced it. */
  lemma {:induction false} AscendingIsUnique(a: seq<Floor>, b: seq<Floor>)
    requires Ascending(a) && Ascending(b) && forall f :: f in a <==> f in b
    ensures a == b
  {
    hide Before, Key;
    assert b != [] ==> b[0] in b;
    if a != [] {
      SameFirst(a, b);
      TailElements(a, b);
      TailElements(b, a);
      AscendingIsUnique(a[1..], b[1..]);
      assert a == [a[0]] + a[1..] && b == [b[0]] + b[1..];
    }
  }

  lemma TailElements(a: seq<Floor>, b: seq<Floor>)
    requires Ascending(a) && a != [] && b != [] && a[0] == b[0] && forall f :: f in a ==> f in b
    ensures forall f :: f in a[1..] ==> f in b[1..]
  {
    hide Before, Key;
    forall f | f in a[1..] ensures f in b[1..] {
      var k :| 1 <= k < |a| && a[k] == f;
      BeforeIrreflexive(Key(a[0]));
      assert f in b && f != b[0];
      assert b == [b[0]] + b[1..];
    }
  }

  // ---------- one advance ----------

  /** An advance changes its own binding and no other, keeps one entry per binding, and keeps the keys in order. */
  lemma AdvancedIsUpdate(floors: seq<Floor>, f: Floor, binding: Binding)
    requires Orderly(floors) && ValidFloor(f)
    ensures Orderly(Advanced(floors, f))
    ensures FloorFor(Advanced(floors, f), binding) == if binding == f.binding then Some(f.marks) else FloorFor(floors, binding)
    ensures |Advanced(floors, f)| == if FloorFor(floors, f.binding).Some? then |floors| else |floors| + 1
  {
    hide Before, Key;
    AscendingIsDistinct(floors);
    ReplacedMembers(floors, f);
    ReplacedLookup(floors, f, binding);
    var replaced := Replaced(floors, f);
    SortSorts(replaced);
    AscendingIsDistinct(Sort(replaced));
    FloorForFinds(replaced, binding);
    FloorForFinds(Sort(replaced), binding);
  }

  /** What the binding takes up already. */
  function Held(floors: seq<Floor>, binding: Binding): nat {
    var marks := FloorFor(floors, binding);
    if marks.Some? then Weight(Floor(binding, marks.value)) else 0
  }

  lemma {:induction false} ReplacedOccupies(floors: seq<Floor>, f: Floor)
    ensures Occupied(Replaced(floors, f)) == Occupied(floors) + Weight(f) - Held(floors, f.binding)
    ensures Held(floors, f.binding) <= Occupied(floors)
  {
    hide Weight;
    if floors != [] {
      if floors[0].binding == f.binding {
        assert floors[0] == Floor(f.binding, floors[0].marks);
      } else {
        ReplacedOccupies(floors[1..], f);
      }
    }
  }

  lemma {:induction false} InsertOccupies(f: Floor, floors: seq<Floor>)
    ensures Occupied(Insert(f, floors)) == Weight(f) + Occupied(floors)
  {
    hide Weight, Before, Key;
    if floors != [] { InsertOccupies(f, floors[1..]); }
  }

  lemma {:induction false} SortOccupies(floors: seq<Floor>)
    ensures Occupied(Sort(floors)) == Occupied(floors)
  {
    hide Weight, Insert;
    if floors != [] {
      SortOccupies(floors[1..]);
      InsertOccupies(floors[0], Sort(floors[1..]));
    }
  }

  /** There is an entry left for the floor, and its text leaves the file within its limit. */
  predicate Fits(floors: seq<Floor>, f: Floor) {
    && (FloorFor(floors, f.binding).Some? || |floors| < MAXIMUM_FLOORS)
    && |OPENING| + Occupied(floors) + Weight(f) + |CLOSING| <= MAXIMUM_BYTES + Held(floors, f.binding) + 1
  }

  /**
   The file stays readable exactly when the floor fits: a new binding needs one of 1,024 entries, and even a known one
   needs room for the domains and digits it gained.
   */
  lemma AdvancedIsReadableExactly(floors: seq<Floor>, f: Floor)
    requires Orderly(floors) && |floors| <= MAXIMUM_FLOORS && ValidFloor(f)
    ensures Readable(Advanced(floors, f)) <==> Fits(floors, f)
  {
    hide Weight, Sort, Replaced, Document, Orderly;
    AdvancedIsUpdate(floors, f, f.binding);
    ReplacedOccupies(floors, f);
    SortOccupies(Replaced(floors, f));
    DocumentSize(Advanced(floors, f));
  }

  /** An advance is due: the file is readable and the state passes the floor it has, if any. */
  predicate Due(floors: seq<Floor>, f: Floor) {
    && Readable(floors)
    && (FloorFor(floors, f.binding).Some? ==> Higher(f.marks, FloorFor(floors, f.binding).value))
  }

  // ---------- the floor of one authority ----------

  /** Where a binding stands, by its entry. */
  function Standing(floors: seq<Floor>, binding: Binding): Marks {
    var marks := FloorFor(floors, binding);
    if marks.Some? then marks.value else Marks(0, 0, [])
  }

  /** The file after an advance that passes its own floor, and whether the advance is confirmed. */
  function Moved(floors: seq<Floor>, f: Floor, write: Write): seq<Floor> {
    if Readable(floors) && write != Lost then Advanced(floors, f) else floors
  }

  predicate Confirmed(floors: seq<Floor>, f: Floor, write: Write) {
    Readable(floors) && write == Done && Fits(floors, f)
  }

  /**
   For an authority that has its floor the file is a variable of its own: an advance moves it exactly if the file is
   readable, no other binding is touched, and the file is readable afterwards exactly if what was gained fits.
   */
  lemma KnownBindingAdvances(floors: seq<Floor>, f: Floor, write: Write)
    requires Orderly(floors) && ValidFloor(f) && FloorFor(floors, f.binding).Some?
    requires Higher(f.marks, Standing(floors, f.binding))
    ensures Due(floors, f) <==> Readable(floors)
    ensures Orderly(Moved(floors, f, write))
    ensures FloorFor(Moved(floors, f, write), f.binding)
            == if Readable(floors) && write != Lost then Some(f.marks) else FloorFor(floors, f.binding)
    ensures forall other :: other != f.binding ==> FloorFor(Moved(floors, f, write), other) == FloorFor(floors, other)
    ensures Readable(floors) && write != Lost ==> (Readable(Moved(floors, f, write)) <==> Fits(floors, f))
  {
    hide Advanced, Fits, Document, Orderly, Higher;
    if Readable(floors) {
      AdvancedIsReadableExactly(floors, f);
      AdvancedIsUpdate(floors, f, f.binding);
      forall other ensures other != f.binding ==> FloorFor(Advanced(floors, f), other) == FloorFor(floors, other) {
        AdvancedIsUpdate(floors, f, other);
      }
    }
  }

  lemma {:induction false} ReplacedAt(floors: seq<Floor>, f: Floor, index: nat)
    requires index <= |floors| && forall i :: 0 <= i < index ==> floors[i].binding != f.binding
    requires index < |floors| ==> floors[index].binding == f.binding
    ensures Replaced(floors, f) == if index < |floors| then floors[index := f] else floors + [f]
  {
    if index > 0 {
      var first, rest := floors[0], floors[1..];
      assert floors == [first] + rest;
      ReplacedAt(rest, f, index - 1);
      assert Replaced(floors, f) == [first] + Replaced(rest, f);
      if index < |floors| {
        assert floors[index := f] == [first] + rest[index - 1 := f];
      } else {
        assert floors + [f] == [first] + (rest + [f]);
      }
    } else if floors != [] {
      assert floors[0 := f] == [f] + floors[1..];
    }
  }

  /** The loop of advanceFloor that overwrites the entry in place or appends it. */
  method Replace(floors: seq<Floor>, f: Floor) returns (next: seq<Floor>)
    ensures next == Replaced(floors, f)
  {
    for index := 0 to |floors|
      invariant forall i :: 0 <= i < index ==> floors[i].binding != f.binding
    {
      if floors[index].binding == f.binding {
        ReplacedAt(floors, f, index);
        return floors[index := f];
      }
    }
    ReplacedAt(floors, f, |floors|);
    next := floors + [f];
  }

  class Store {
    var floors: seq<Floor>

    constructor ()
      ensures floors == []
    {
      floors := [];
    }

    /**
     advanceFloor. Unless the advance is due and the write takes effect the file is left alone. Success is exactly a
     due advance that fits and was confirmed; one that overfills the file is reported as a failure after the file has
     been replaced.
     */
    method AdvanceFloor(f: Floor, write: Write) returns (ok: bool)
      requires ValidFloor(f)
      modifies this
      ensures floors == if Due(old(floors), f) && write != Lost then Advanced(old(floors), f) else old(floors)
      ensures ok <==> Due(old(floors), f) && write == Done && Fits(old(floors), f)
      ensures Due(old(floors), f) && write != Lost ==> (Readable(floors) <==> Fits(old(floors), f))
    {
      hide Document, Weight, Advanced, Fits, Higher, ValidHex, ValidWatermarks;
      if !Readable(floors) { return false; }
      var previous := FloorFor(floors, f.binding);
      if previous.Some? {
        ValidIsSorted(f.marks.watermarks);
        var higher := StrictlyHigher(f.marks, previous.value);
        if !higher { return false; }
      }
      AdvancedIsReadableExactly(floors, f);
      var next := Replace(floors, f);
      next := Sort(next);
      assert next == Advanced(floors, f) by { SortIsAdvanced(floors, f); }
      if write == Lost { return false; }
      floors := next;
      if write == Unconfirmed { return false; }
      ok := Readable(floors);
    }

    /** advanceFloor, for a binding that passes the floor it has. */
    method AdvanceKnown(f: Floor, write: Write) returns (ok: bool)
      requires Orderly(floors) && ValidFloor(f) && FloorFor(floors, f.binding).Some?
      requires Higher(f.marks, Standing(floors, f.binding))
      modifies this
      ensures Orderly(floors) && floors == Moved(old(floors), f, write)
      ensures ok <==> Confirmed(old(floors), f, write)
      ensures ok ==> write == Done && Readable(floors)
      ensures FloorFor(floors, f.binding)
              == if Readable(old(floors)) && write != Lost then Some(f.marks) else FloorFor(old(floors), f.binding)
    {
      hide Document, Weight, Advanced, Fits, Higher, Orderly, ValidFloor;
      KnownBindingAdvances(floors, f, write);
      ok := AdvanceFloor(f, write);
    }

    /** An advance of some other binding leaves this one where it stands. */
    method AdvanceOther(f: Floor, write: Write, watched: Binding) returns (ok: bool)
      requires Orderly(floors) && ValidFloor(f) && f.binding != watched
      modifies this
      ensures Orderly(floors) && FloorFor(floors, watched) == FloorFor(old(floors), watched)
      ensures !Readable(old(floors)) ==> floors == old(floors)
    {
      hide Document, Weight, Advanced, Fits, Higher, Orderly, ValidFloor;
      AdvancedIsUpdate(floors, f, watched);
      ok := AdvanceFloor(f, write);
    }
  }

  lemma SortIsAdvanced(floors: seq<Floor>, f: Floor)
    ensures Sort(Replaced(floors, f)) == Advanced(floors, f)
  {
  }

  // ---------- any run of advances ----------

  /** The chain of marks a binding has had so far ends in its entry; the file is lost only by overfilling. */
  predicate Tracks(floors: seq<Floor>, watched: Binding, chain: seq<Marks>) {
    && Rising(chain) && Orderly(floors)
    && FloorFor(floors, watched) == (if chain == [] then None else Some(chain[|chain| - 1]))
    && (!Readable(floors) ==> |floors| == MAXIMUM_FLOORS + 1 || |Document(floors)| > MAXIMUM_BYTES)
  }

  lemma AdvanceTracks(floors: seq<Floor>, f: Floor, watched: Binding, chain: seq<Marks>)
    requires Due(floors, f) && ValidFloor(f) && Tracks(floors, watched, chain)
    ensures Tracks(Advanced(floors, f), watched, if f.binding == watched then chain + [f.marks] else chain)
  {
    hide Document, Advanced, Orderly;
    AdvancedIsUpdate(floors, f, watched);
    AdvancedIsUpdate(floors, f, f.binding);
  }

  /**
   Any run of advances over any bindings, each possibly failing at any point: the successive floors of every binding
   form a strictly rising chain that ends in its entry, and only too many bindings or too much text lose the file.
   */
  method Advances(requests: seq<(Floor, Write)>, watched: Binding) returns (store: Store, ghost chain: seq<Marks>)
    requires forall r <- requests :: ValidFloor(r.0)
    ensures fresh(store)
    ensures Tracks(store.floors, watched, chain)
  {
    store := new Store();
    chain := [];
    EmptyIsReadable();
    for n := 0 to |requests|
      invariant fresh(store) && Tracks(store.floors, watched, chain)
    {
      hide Advanced, Tracks, Due, ValidFloor, Fits;
      var (f, write) := requests[n];
      ghost var before := store.floors;
      var ok := store.AdvanceFloor(f, write);
      if store.floors != before {
        AdvanceTracks(before, f, watched, chain);
        if f.binding == watched { chain := chain + [f.marks]; }
      }
    }
  }

  lemma EmptyIsReadable()
    ensures Readable([])
  {
    DocumentSize([]);
  }

  /** A small floor fits into a file that holds nothing but its own binding. */
  lemma SmallFits(floors: seq<Floor>, f: Floor)
    requires Weight(f) <= 3000 && (floors == [] || (|floors| == 1 && floors[0].binding == f.binding))
    ensures Fits(floors, f)
  {
    hide Weight;
    if floors != [] {
      assert Occupied(floors) == Weight(floors[0]) + Occupied(floors[1..]);
      assert floors[0] == Floor(f.binding, floors[0].marks);
    }
  }

  lemma AloneAdvances(floors: seq<Floor>, f: Floor)
    requires floors == [] || (|floors| == 1 && floors[0].binding == f.binding)
    ensures Advanced(floors, f) == [f]
  {
    assert Replaced(floors, f) == [f];
    assert [f][1..] == [];
    assert Sort([f]) == Insert(f, Sort([]));
  }

  function ZeroBinding(kind: Kind): Binding {
    var zeros := seq(64, _ => '0');
    Binding(zeros, zeros, zeros, kind, zeros)
  }

  lemma ZeroBindingIsValid(kind: Kind)
    ensures ValidBinding(ZeroBinding(kind))
  {
  }

  lemma OneIsOrderly(f: Floor)
    requires ValidFloor(f)
    ensures Orderly([f]) && FloorFor([f], f.binding) == Some(f.marks)
  {
    hide ValidFloor;
  }

  /** A file of one small floor. */
  method Alone(f: Floor) returns (store: Store)
    requires ValidFloor(f) && Weight(f) <= 3000
    ensures fresh(store) && store.floors == [f]
    ensures Readable([f]) && FloorFor([f], f.binding) == Some(f.marks)
  {
    hide ValidFloor, Weight, Fits, Readable, Advanced;
    store := new Store();
    EmptyIsReadable();
    SmallFits([], f);
    AloneAdvances([], f);
    OneIsOrderly(f);
    var _ := store.AdvanceFloor(f, Done);
  }

  lemma AloneMoves(g: Floor, f: Floor)
    requires Readable([g]) && ValidFloor(f) && f.binding == g.binding && Higher(f.marks, g.marks) && Weight(f) <= 3000
    ensures Moved([g], f, Done) == [f] && Confirmed([g], f, Done)
    ensures Readable([f]) && FloorFor([f], f.binding) == Some(f.marks)
  {
    hide ValidFloor, Weight, Fits, Document, Higher;
    SmallFits([g], f);
    AloneAdvances([g], f);
    OneIsOrderly(f);
    KnownBindingAdvances([g], f, Done);
  }

  // ---------- text alone can fill the file ----------

  /** The longest domain: sixty-three characters that are written with six each, and one to tell it apart. */
  function HeavyDomain(i: nat): string
    requires i < MAXIMUM_WATERMARKS
  {
    seq(63, _ => '<') + [('!' as int + i) as char]
  }

  function HeavyMarks(): Marks {
    Marks(1, 0, seq(MAXIMUM_WATERMARKS, i requires 0 <= i < MAXIMUM_WATERMARKS => Watermark(HeavyDomain(i), 0)))
  }

  lemma HeavyIsValid()
    ensures ValidWatermarks(HeavyMarks().watermarks)
  {
    forall i | 0 < i < MAXIMUM_WATERMARKS ensures Before(HeavyDomain(i - 1), HeavyDomain(i)) {
      AfterSharedPrefix(seq(63, _ => '<'), [('!' as int + i - 1) as char], [('!' as int + i) as char]);
    }
    hide Before;
  }

  lemma {:induction false} EscapedSize(text: string, n: nat)
    requires n <= |text| && forall i :: 0 <= i < n ==> text[i] == '<'
    ensures |Escaped(text)| >= 6 * n
  {
    if n > 0 { EscapedSize(text[1..], n - 1); }
  }

  lemma {:induction false} SeparatedAtLeast(parts: seq<string>, each: nat)
    requires forall i :: 0 <= i < |parts| ==> |parts[i]| >= each
    ensures |Separated(parts)| >= each * |parts|
  {
    if |parts| > 1 { SeparatedAtLeast(parts[1..], each); }
  }

  lemma HeavyWeight(binding: Binding)
    ensures Weight(Floor(binding, HeavyMarks())) > 12000
  {
    hide Escaped, Separated;
    var texts := WatermarkTexts(HeavyMarks().watermarks);
    forall i | 0 <= i < |texts| ensures |texts[i]| >= 378 {
      EscapedSize(HeavyDomain(i), 63);
    }
    SeparatedAtLeast(texts, 378);
  }

  lemma {:induction false} OccupiedAtLeast(floors: seq<Floor>, each: nat)
    requires forall i :: 0 <= i < |floors| ==> Weight(floors[i]) > each
    ensures Occupied(floors) >= (each + 1) * |floors|
  {
    hide Weight;
    if floors != [] { OccupiedAtLeast(floors[1..], each); }
  }

  const CROWD := 88

  /** Eighty-eight bindings with such watermarks are too much text to read, whatever their order. */
  lemma CrowdedOut(floors: seq<Floor>)
    requires |floors| >= CROWD && forall f <- floors :: f.marks == HeavyMarks()
    ensures |Document(floors)| > MAXIMUM_BYTES
  {
    hide Weight, Document, HeavyMarks;
    forall i | 0 <= i < |floors| ensures Weight(floors[i]) > 12000 {
      assert floors[i] in floors && floors[i] == Floor(floors[i].binding, HeavyMarks());
      HeavyWeight(floors[i].binding);
    }
    OccupiedAtLeast(floors, 12000);
    DocumentSize(floors);
  }

  function HexDigit(n: nat): char
    requires n < 16
  {
    if n < 10 then ('0' as int + n) as char else ('a' as int + n - 10) as char
  }

  /** Name authorities of one network, told apart by the first two digits of their commitment. */
  function HeavyBinding(i: nat): Binding
    requires i < CROWD
  {
    ZeroBinding(Kind.Name).(commitment := [HexDigit(i / 16), HexDigit(i % 16)] + seq(62, _ => '0'))
  }

  lemma HeavyBindingIsValid(i: nat)
    requires i < CROWD
    ensures ValidFloor(Floor(HeavyBinding(i), HeavyMarks()))
  {
    HeavyIsValid();
    hide ValidWatermarks, HeavyMarks;
  }

  lemma Quotient(i: nat, j: nat)
    requires i != j
    ensures i / 16 != j / 16 || i % 16 != j % 16
  {
  }

  lemma HeavyBindingsDiffer(i: nat, j: nat)
    requires i < CROWD && j < CROWD && i != j
    ensures HeavyBinding(i) != HeavyBinding(j)
  {
    Quotient(i, j);
    assert HeavyBinding(i).commitment[0] == HexDigit(i / 16) && HeavyBinding(i).commitment[1] == HexDigit(i % 16);
    assert HeavyBinding(j).commitment[0] == HexDigit(j / 16) && HeavyBinding(j).commitment[1] == HexDigit(j % 16);
  }

  /** The bindings from the i-th on have no floor yet. */
  predicate Unclaimed(floors: seq<Floor>, i: nat) {
    forall j :: i <= j < CROWD ==> FloorFor(floors, HeavyBinding(j)).None?
  }

  lemma HeavyStep(floors: seq<Floor>, i: nat)
    requires Orderly(floors) && i < CROWD && Unclaimed(floors, i)
    ensures var next := Advanced(floors, Floor(HeavyBinding(i), HeavyMarks()));
            Orderly(next) && Occupied(next) > Occupied(floors) + 12000 && Unclaimed(next, i + 1) && |next| == |floors| + 1
  {
    hide Weight, Sort, Replaced, Orderly, HeavyMarks, HeavyBinding;
    var f := Floor(HeavyBinding(i), HeavyMarks());
    HeavyBindingIsValid(i);
    HeavyWeight(f.binding);
    AdvancedIsUpdate(floors, f, f.binding);
    ReplacedOccupies(floors, f);
    SortOccupies(Replaced(floors, f));
    forall j | i < j < CROWD ensures FloorFor(Advanced(floors, f), HeavyBinding(j)).None? {
      HeavyBindingsDiffer(i, j);
      AdvancedIsUpdate(floors, f, HeavyBinding(j));
    }
  }

  lemma TooLong(floors: seq<Floor>)
    requires Orderly(floors) && |floors| <= MAXIMUM_FLOORS
    ensures Readable(floors) <==> |Document(floors)| <= MAXIMUM_BYTES
    ensures Occupied(floors) >= CROWD * 12000 ==> !Readable(floors)
  {
    hide Document, Orderly;
    DocumentSize(floors);
  }

  /** Eighty-eight advances, each valid and each written, make any file unreadable by its text alone. */
  method Overfill(store: Store, watched: Binding)
    requires Orderly(store.floors) && |store.floors| + CROWD <= MAXIMUM_FLOORS && Unclaimed(store.floors, 0)
    requires watched.kind != Kind.Name
    modifies store
    ensures Orderly(store.floors) && |store.floors| <= MAXIMUM_FLOORS && |Document(store.floors)| > MAXIMUM_BYTES
    ensures !Readable(store.floors) && FloorFor(store.floors, watched) == FloorFor(old(store.floors), watched)
  {
    hide Readable, Orderly, Advanced, Document, Weight, HeavyMarks, ValidFloor, Unclaimed, Fits;
    for i := 0 to CROWD
      invariant Orderly(store.floors) && |store.floors| <= |old(store.floors)| + i
      invariant FloorFor(store.floors, watched) == FloorFor(old(store.floors), watched)
      invariant Readable(store.floors) ==> Occupied(store.floors) >= 12000 * i && Unclaimed(store.floors, i)
    {
      var f := Floor(HeavyBinding(i), HeavyMarks());
      HeavyBindingIsValid(i);
      if Readable(store.floors) {
        HeavyStep(store.floors, i);
        AdvancedIsUpdate(store.floors, f, watched);
        ClaimedNext(store.floors, i);
      }
      var _ := store.AdvanceFloor(f, Done);
    }
    TooLong(store.floors);
  }

  lemma ClaimedNext(floors: seq<Floor>, i: nat)
    requires Unclaimed(floors, i) && i < CROWD
    ensures FloorFor(floors, HeavyBinding(i)).None?
  {
  }

  lemma OneIsUnclaimed(f: Floor)
    requires f.binding.kind != Kind.Name
    ensures Unclaimed([f], 0)
  {
  }
}
