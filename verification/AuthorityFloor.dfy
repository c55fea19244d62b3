/** What an authority floor compares: generation, revision and a sorted list of named watermarks. */
module AuthorityFloor {
  import opened Common
  import opened TextOrder

  datatype Watermark = Watermark(domain: string, value: nat)

  /** The part of an authority state that its floor retains. */
  datatype Marks = Marks(generation: nat, revision: nat, watermarks: seq<Watermark>)

  predicate SortedDomains(watermarks: seq<Watermark>) {
    forall i, j :: 0 <= i < j < |watermarks| ==> Before(watermarks[i].domain, watermarks[j].domain)
  }

  /** Some watermark of the list carries this domain with a higher value. */
  predicate Exceeds(watermarks: seq<Watermark>, previous: Watermark) {
    exists w <- watermarks :: w.domain == previous.domain && w.value > previous.value
  }

  /** What strictlyHigher decides, said without its search. */
  predicate Higher(state: Marks, floor: Marks) {
    && state.generation > floor.generation
    && state.revision > floor.revision
    && forall previous <- floor.watermarks :: Exceeds(state.watermarks, previous)
  }

  const MAXIMUM_WATERMARKS := 32
  const MAXIMUM_DOMAIN := 64

  /** validWatermarks: bounded, printable, and each domain strictly after its neighbour. */
  predicate ValidWatermarks(watermarks: seq<Watermark>) {
    && 0 < |watermarks| <= MAXIMUM_WATERMARKS
    && (forall w <- watermarks :: 0 < |w.domain| <= MAXIMUM_DOMAIN && forall c <- w.domain :: '!' <= c <= '~')
    && forall i :: 0 < i < |watermarks| ==> Before(watermarks[i - 1].domain, watermarks[i].domain)
  }

  /** Comparing neighbours is enough. */
  lemma ValidIsSorted(watermarks: seq<Watermark>)
    requires ValidWatermarks(watermarks)
    ensures SortedDomains(watermarks)
  {
    forall i, j | 0 <= i < j < |watermarks| ensures Before(watermarks[i].domain, watermarks[j].domain) {
      NeighboursSort(watermarks, i, j);
    }
  }

  lemma {:induction false} NeighboursSort(watermarks: seq<Watermark>, i: nat, j: nat)
    requires forall n :: 0 < n < |watermarks| ==> Before(watermarks[n - 1].domain, watermarks[n].domain)
    requires i < j < |watermarks|
    ensures Before(watermarks[i].domain, watermarks[j].domain)
  {
    if i + 1 < j {
      NeighboursSort(watermarks, i, j - 1);
      BeforeTransitive(watermarks[i].domain, watermarks[j - 1].domain, watermarks[j].domain);
    }
  }

  /** The first domain not before the wanted one is the only place where it can be. */
  lemma FirstNotBefore(watermarks: seq<Watermark>, previous: Watermark, index: nat)
    requires SortedDomains(watermarks) && index <= |watermarks|
    requires forall i :: 0 <= i < index ==> Before(watermarks[i].domain, previous.domain)
    requires forall i :: index <= i < |watermarks| ==> !Before(watermarks[i].domain, previous.domain)
    ensures Exceeds(watermarks, previous) <==>
            index < |watermarks| && watermarks[index].domain == previous.domain && watermarks[index].value > previous.value
  {
    BeforeIrreflexive(previous.domain);
    if Exceeds(watermarks, previous) {
      var i :| 0 <= i < |watermarks| && watermarks[i].domain == previous.domain && watermarks[i].value > previous.value;
    }
  }

  /** sort.Search for the first domain not before the wanted one. */
  method Search(watermarks: seq<Watermark>, domain: string) returns (index: nat)
    requires SortedDomains(watermarks)
    ensures index <= |watermarks|
    ensures forall i :: 0 <= i < index ==> Before(watermarks[i].domain, domain)
    ensures forall i :: index <= i < |watermarks| ==> !Before(watermarks[i].domain, domain)
  {
    var lo, hi := 0, |watermarks|;
    while lo < hi
      invariant 0 <= lo <= hi <= |watermarks|
      invariant forall i :: 0 <= i < lo ==> Before(watermarks[i].domain, domain)
      invariant forall i :: hi <= i < |watermarks| ==> !Before(watermarks[i].domain, domain)
    {
      var middle := (lo + hi) / 2;
      if Before(watermarks[middle].domain, domain) {
        forall i | 0 <= i < middle ensures Before(watermarks[i].domain, domain) {
          BeforeTransitive(watermarks[i].domain, watermarks[middle].domain, domain);
        }
        lo := middle + 1;
      } else {
        forall i | middle < i < |watermarks| ensures !Before(watermarks[i].domain, domain) {
          if Before(watermarks[i].domain, domain) {
            BeforeTransitive(watermarks[middle].domain, watermarks[i].domain, domain);
          }
        }
        hi := middle;
      }
    }
    index := lo;
  }

  /** strictlyHigher: the binary search finds exactly the watermark of the same domain, if there is one. */
  method StrictlyHigher(state: Marks, floor: Marks) returns (higher: bool)
    requires SortedDomains(state.watermarks)
    ensures higher <==> Higher(state, floor)
  {
    if state.generation <= floor.generation || state.revision <= floor.revision { return false; }
    for n := 0 to |floor.watermarks|
      invariant forall previous <- floor.watermarks[..n] :: Exceeds(state.watermarks, previous)
    {
      var previous := floor.watermarks[n];
      var index := Search(state.watermarks, previous.domain);
      FirstNotBefore(state.watermarks, previous, index);
      if index == |state.watermarks| || state.watermarks[index].domain != previous.domain
         || state.watermarks[index].value <= previous.value
      {
        return false;
      }
      assert floor.watermarks[..n + 1] == floor.watermarks[..n] + [previous];
    }
    assert floor.watermarks[..|floor.watermarks|] == floor.watermarks;
    higher := true;
  }

  /** No state is strictly higher than its own floor. */
  lemma HigherIrreflexive(marks: Marks)
    ensures !Higher(marks, marks)
  {
  }

  /** A chain of advances is an advance; in particular no domain is dropped on the way. */
  lemma HigherTransitive(a: Marks, b: Marks, c: Marks)
    requires Higher(b, a) && Higher(c, b)
    ensures Higher(c, a)
  {
    forall previous | previous in a.watermarks ensures Exceeds(c.watermarks, previous) {
      var w :| w in b.watermarks && w.domain == previous.domain && w.value > previous.value;
      assert Exceeds(c.watermarks, w);
    }
  }

  /** Successive floors of one binding: each strictly higher than the one before. */
  predicate Rising(chain: seq<Marks>) {
    forall i :: 0 < i < |chain| ==> Higher(chain[i], chain[i - 1])
  }

  lemma {:induction false} RisingThroughout(chain: seq<Marks>, i: nat, j: nat)
    requires Rising(chain) && i < j < |chain|
    ensures Higher(chain[j], chain[i])
  {
    if i + 1 < j {
      RisingThroughout(chain, i, j - 1);
      HigherTransitive(chain[i], chain[j - 1], chain[j]);
    }
  }

  /** advancedWatermarks, for a recovered authority: every value one higher, refused when one cannot rise. */
  method AdvancedWatermarks(values: seq<Watermark>) returns (next: Option<seq<Watermark>>)
    ensures next.None? <==> !ValidWatermarks(values) || exists w <- values :: w.value >= UINT64_LIMIT - 1
    ensures next.Some? ==> |next.value| == |values|
    ensures next.Some? ==> forall i :: 0 <= i < |values| ==>
              next.value[i] == Watermark(values[i].domain, values[i].value + 1)
  {
    if !ValidWatermarks(values) { return None; }
    var copy := values;
    for n := 0 to |values|
      invariant |copy| == |values| && copy[n..] == values[n..]
      invariant forall i :: 0 <= i < n ==> values[i].value < UINT64_LIMIT - 1
      invariant forall i :: 0 <= i < n ==> copy[i] == Watermark(values[i].domain, values[i].value + 1)
    {
      assert copy[n] == copy[n..][0] == values[n..][0];
      if copy[n].value >= UINT64_LIMIT - 1 { return None; }
      copy := copy[n := copy[n].(value := copy[n].value + 1)];
    }
    next := Some(copy);
  }

  /** Raising the generation, the revision and every watermark always passes the floor they came from. */
  lemma AdvancedIsHigher(floor: Marks, state: Marks)
    requires state.generation > floor.generation && state.revision > floor.revision
    requires |state.watermarks| == |floor.watermarks|
    requires forall i :: 0 <= i < |floor.watermarks| ==>
               && state.watermarks[i].domain == floor.watermarks[i].domain
               && state.watermarks[i].value > floor.watermarks[i].value
    ensures Higher(state, floor)
  {
    forall previous | previous in floor.watermarks ensures Exceeds(state.watermarks, previous) {
      var i :| 0 <= i < |floor.watermarks| && floor.watermarks[i] == previous;
      assert state.watermarks[i] in state.watermarks;
    }
  }
}
