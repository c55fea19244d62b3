/**
 Committee sampling of the R-149 analyses: how many hostile members a uniformly drawn committee has, and when two
 certificates of one jury must share honest members.
 */
module Committees {
  import opened Binomial
  import opened FiniteSets

  // ---------- the samples themselves ----------

  /** The committees of a size with exactly k hostile members. */
  function Samples(population: set<nat>, hostile: set<nat>, size: nat, k: nat): set<set<nat>> {
    set s | s <= population && |s| == size && |s * hostile| == k
  }

  /** The number the distribution is built from: choose the hostile members and, independently, the others. */
  function Weight(hostile: nat, others: nat, size: nat, k: nat): nat {
    if k <= size then Choose(hostile, k) * Choose(others, size - k) else 0
  }

  function WithMember(groups: set<set<nat>>, x: nat): set<set<nat>> {
    set s <- groups :: s + {x}
  }

  lemma AddedApart(s: set<nat>, t: set<nat>, x: nat)
    requires x !in s && x !in t && s + {x} == t + {x}
    ensures s == t
  {
    assert s == (s + {x}) - {x};
    assert t == (t + {x}) - {x};
  }

  lemma WithMemberSplits(groups: set<set<nat>>, s: set<nat>, x: nat)
    requires s in groups && forall t <- groups :: x !in t
    ensures WithMember(groups, x) == WithMember(groups - {s}, x) + {s + {x}}
    ensures s + {x} !in WithMember(groups - {s}, x)
  {
    if s + {x} in WithMember(groups - {s}, x) {
      var t :| t in groups - {s} && t + {x} == s + {x};
      AddedApart(s, t, x);
    }
  }

  lemma {:induction false} WithMemberSize(groups: set<set<nat>>, x: nat)
    requires forall s <- groups :: x !in s
    ensures |WithMember(groups, x)| == |groups|
  {
    if groups != {} {
      var s :| s in groups;
      WithMemberSplits(groups, s, x);
      hide WithMember;
      WithMemberSize(groups - {s}, x);
    }
  }

  /** The samples that leave a given member out. */
  lemma WithoutMember(population: set<nat>, hostile: set<nat>, size: nat, k: nat, x: nat)
    ensures Samples(population - {x}, hostile - {x}, size, k) == set s <- Samples(population, hostile, size, k) | x !in s
  {
    forall s: set<nat> | x !in s ensures s * (hostile - {x}) == s * hostile {}
    var left := Samples(population - {x}, hostile - {x}, size, k);
    var right := set s <- Samples(population, hostile, size, k) | x !in s;
    forall s ensures s in left <==> s in right {}
  }

  lemma Removed(s: set<nat>, hostile: set<nat>, x: nat)
    requires x in s
    ensures |s - {x}| == |s| - 1 && |s * hostile| == |(s - {x}) * (hostile - {x})| + if x in hostile then 1 else 0
  {
    assert (s - {x}) * (hostile - {x}) == s * hostile - {x};
  }

  lemma ShrinksToSample(population: set<nat>, hostile: set<nat>, size: nat, k: nat, x: nat, s: set<nat>)
    requires size > 0 && (x in hostile ==> k > 0) && x in s && s in Samples(population, hostile, size, k)
    ensures s - {x} in Samples(population - {x}, hostile - {x}, size - 1, if x in hostile then k - 1 else k)
  {
    Removed(s, hostile, x);
  }

  lemma GrowsToSample(population: set<nat>, hostile: set<nat>, size: nat, k: nat, x: nat, t: set<nat>)
    requires x in population && size > 0 && (x in hostile ==> k > 0)
    requires t in Samples(population - {x}, hostile - {x}, size - 1, if x in hostile then k - 1 else k)
    ensures t + {x} in Samples(population, hostile, size, k)
  {
    Removed(t + {x}, hostile, x);
    assert (t + {x}) - {x} == t;
  }

  /** The samples that have a given member: it joins the samples of the rest. */
  lemma HavingMember(population: set<nat>, hostile: set<nat>, size: nat, k: nat, x: nat)
    requires x in population && hostile <= population && size > 0 && (x in hostile ==> k > 0)
    ensures WithMember(Samples(population - {x}, hostile - {x}, size - 1, if x in hostile then k - 1 else k), x)
            == set s <- Samples(population, hostile, size, k) | x in s
  {
    hide Samples;
    var smaller := Samples(population - {x}, hostile - {x}, size - 1, if x in hostile then k - 1 else k);
    var having := set s <- Samples(population, hostile, size, k) | x in s;
    forall s | s in having ensures s in WithMember(smaller, x) {
      ShrinksToSample(population, hostile, size, k, x, s);
      assert s == (s - {x}) + {x};
    }
    forall s | s in WithMember(smaller, x) ensures s in having {
      var t :| t in smaller && s == t + {x};
      GrowsToSample(population, hostile, size, k, x, t);
    }
  }

  lemma NoneHaving(population: set<nat>, hostile: set<nat>, size: nat, k: nat, x: nat)
    requires size == 0 || (x in hostile && k == 0)
    ensures (set s <- Samples(population, hostile, size, k) | x in s) == {}
  {
    forall s | s in Samples(population, hostile, size, k) ensures x !in s {
      if x in s { Removed(s, hostile, x); }
    }
  }

  lemma Halves(groups: set<set<nat>>, x: nat)
    ensures |groups| == |set s <- groups | x !in s| + |set s <- groups | x in s|
  {
    var without, having := set s <- groups | x !in s, set s <- groups | x in s;
    assert groups == without + having && without * having == {};
  }

  /** Samples either leave a given member out or have it. */
  lemma SamplesSplit(population: set<nat>, hostile: set<nat>, size: nat, k: nat, x: nat)
    requires x in population && hostile <= population && size > 0 && (x in hostile ==> k > 0)
    ensures |Samples(population, hostile, size, k)|
            == |Samples(population - {x}, hostile - {x}, size, k)|
               + |Samples(population - {x}, hostile - {x}, size - 1, if x in hostile then k - 1 else k)|
  {
    WithoutMember(population, hostile, size, k, x);
    HavingMember(population, hostile, size, k, x);
    NotIn(population - {x}, hostile - {x}, size - 1, if x in hostile then k - 1 else k, x);
    WithMemberSize(Samples(population - {x}, hostile - {x}, size - 1, if x in hostile then k - 1 else k), x);
    Halves(Samples(population, hostile, size, k), x);
  }

  lemma NotIn(population: set<nat>, hostile: set<nat>, size: nat, k: nat, x: nat)
    requires x !in population
    ensures forall s <- Samples(population, hostile, size, k) :: x !in s
  {
  }

  lemma SamplesKeep(population: set<nat>, hostile: set<nat>, size: nat, k: nat, x: nat)
    requires size == 0 || (x in hostile && k == 0)
    ensures |Samples(population, hostile, size, k)| == |Samples(population - {x}, hostile - {x}, size, k)|
  {
    WithoutMember(population, hostile, size, k, x);
    NoneHaving(population, hostile, size, k, x);
    Halves(Samples(population, hostile, size, k), x);
  }

  /** With nobody hostile, all samples of the size count. */
  lemma {:induction false} AllHonest(population: set<nat>, size: nat, k: nat)
    ensures |Samples(population, {}, size, k)| == if k == 0 then Choose(|population|, size) else 0
    decreases population
  {
    hide Samples;
    if k > 0 {
      HonestSamples(population, size, k);
    } else if population == {} {
      EmptySamples(size);
    } else {
      var x :| x in population;
      assert {} - {x} == {};
      AllHonest(population - {x}, size, 0);
      if size > 0 {
        SamplesSplit(population, {}, size, 0, x);
        AllHonest(population - {x}, size - 1, 0);
      } else {
        SamplesKeep(population, {}, 0, 0, x);
      }
    }
  }

  lemma HonestSamples(population: set<nat>, size: nat, k: nat)
    requires k > 0
    ensures Samples(population, {}, size, k) == {}
  {
    forall s: set<nat> ensures s * {} == {} {}
  }

  lemma EmptySamples(size: nat)
    ensures Samples({}, {}, size, 0) == if size == 0 then {{}} else {}
  {
    forall s: set<nat> | s <= {} ensures s == {} {}
    var none: set<nat> := {};
    assert none * none == none;
    if size == 0 { assert none in Samples({}, {}, 0, 0); }
  }

  /** Every weight counts committees: the distribution is that of a uniformly drawn sample. */
  lemma {:induction false} SampleCount(population: set<nat>, hostile: set<nat>, size: nat, k: nat)
    requires hostile <= population
    ensures |hostile| <= |population|
    ensures |Samples(population, hostile, size, k)| == Weight(|hostile|, |population| - |hostile|, size, k)
    decreases hostile
  {
    hide Samples;
    SubsetSize(hostile, population);
    if hostile == {} {
      AllHonest(population, size, k);
      WeightOfNone(|population|, size, k);
    } else {
      var x :| x in hostile;
      var h, others := |hostile| - 1, |population| - |hostile|;
      SampleCount(population - {x}, hostile - {x}, size, k);
      if size > 0 && k > 0 {
        SamplesSplit(population, hostile, size, k, x);
        SampleCount(population - {x}, hostile - {x}, size - 1, k - 1);
        WeightGrows(h, others, size, k);
      } else {
        SamplesKeep(population, hostile, size, k, x);
      }
    }
  }

  lemma WeightOfNone(others: nat, size: nat, k: nat)
    ensures Weight(0, others, size, k) == if k == 0 then Choose(others, size) else 0
  {
  }

  /** Pascal's rule for weights: one more hostile member is drawn or is not. */
  lemma WeightGrows(hostile: nat, others: nat, size: nat, k: nat)
    requires size > 0 && k > 0
    ensures Weight(hostile + 1, others, size, k) == Weight(hostile, others, size, k) + Weight(hostile, others, size - 1, k - 1)
  {
    if k <= size {
      var a, b, c := Choose(hostile, k - 1), Choose(hostile, k), Choose(others, size - k);
      assert Choose(hostile + 1, k) == a + b;
      assert (a + b) * c == a * c + b * c;
    }
  }

  // ---------- the distribution ----------

  /** The weights from `lo` up to, but not including, `hi`. */
  function Total(hostile: nat, others: nat, size: nat, lo: nat, hi: nat): nat
    decreases hi
  {
    if hi <= lo then 0 else Total(hostile, others, size, lo, hi - 1) + Weight(hostile, others, size, hi - 1)
  }

  lemma {:induction false} TotalGrows(hostile: nat, others: nat, size: nat, n: nat)
    requires size > 0
    ensures Total(hostile + 1, others, size, 0, n + 1)
            == Total(hostile, others, size, 0, n + 1) + Total(hostile, others, size - 1, 0, n)
  {
    hide Weight;
    if n == 0 {
      assert Total(hostile, others, size - 1, 0, 0) == 0;
      WeightOfZero(hostile, others, size);
      WeightOfZero(hostile + 1, others, size);
      assert Total(hostile, others, size, 0, 0) == 0 && Total(hostile + 1, others, size, 0, 0) == 0;
    } else {
      TotalGrows(hostile, others, size, n - 1);
      WeightGrows(hostile, others, size, n);
    }
  }

  lemma WeightOfZero(hostile: nat, others: nat, size: nat)
    ensures Weight(hostile, others, size, 0) == Choose(others, size)
  {
  }

  /** Vandermonde: all weights together count all committees. */
  lemma {:induction false} Vandermonde(hostile: nat, others: nat, size: nat)
    ensures Total(hostile, others, size, 0, size + 1) == Choose(hostile + others, size)
    decreases hostile, size
  {
    if hostile == 0 {
      NothingHostile(others, size, size);
    } else if size == 0 {
      assert Total(hostile, others, 0, 0, 0) == 0;
    } else {
      TotalGrows(hostile - 1, others, size, size);
      Vandermonde(hostile - 1, others, size);
      Vandermonde(hostile - 1, others, size - 1);
    }
  }

  lemma {:induction false} NothingHostile(others: nat, size: nat, n: nat)
    ensures Total(0, others, size, 0, n + 1) == Choose(others, size)
  {
    if n == 0 {
      assert Total(0, others, size, 0, 0) == 0;
    } else {
      NothingHostile(others, size, n - 1);
    }
  }

  /** The first and the last count with any weight. */
  function Least(hostile: nat, others: nat, size: nat): nat {
    if size > others then size - others else 0
  }

  function Most(hostile: nat, others: nat, size: nat): nat {
    if hostile < size then hostile else size
  }

  lemma WeightVanishes(hostile: nat, others: nat, size: nat, k: nat)
    requires k < Least(hostile, others, size) || k > Most(hostile, others, size)
    ensures Weight(hostile, others, size, k) == 0
  {
    if k > hostile {
      ChooseBeyond(hostile, k);
    } else if k <= size {
      ChooseBeyond(others, size - k);
    }
  }

  lemma {:induction false} TotalOfRange(hostile: nat, others: nat, size: nat, hi: nat)
    ensures Total(hostile, others, size, 0, hi) == Total(hostile, others, size, Least(hostile, others, size), hi)
  {
    hide Weight;
    if hi > 0 {
      TotalOfRange(hostile, others, size, hi - 1);
      if hi - 1 < Least(hostile, others, size) { WeightVanishes(hostile, others, size, hi - 1); }
    }
  }

  lemma {:induction false} TotalEnds(hostile: nat, others: nat, size: nat, lo: nat, hi: nat)
    requires hi > Most(hostile, others, size) && lo <= Most(hostile, others, size) + 1
    ensures Total(hostile, others, size, lo, hi) == Total(hostile, others, size, lo, Most(hostile, others, size) + 1)
    decreases hi
  {
    hide Weight;
    if hi > Most(hostile, others, size) + 1 {
      TotalEnds(hostile, others, size, lo, hi - 1);
      WeightVanishes(hostile, others, size, hi - 1);
    }
  }

  /** The weights over the range of the distribution count all committees. */
  lemma WeightsSum(hostile: nat, others: nat, size: nat)
    requires size <= hostile + others
    ensures Total(hostile, others, size, Least(hostile, others, size), Most(hostile, others, size) + 1)
            == Choose(hostile + others, size)
  {
    Vandermonde(hostile, others, size);
    TotalOfRange(hostile, others, size, size + 1);
    TotalEnds(hostile, others, size, Least(hostile, others, size), size + 1);
  }

  // ---------- the mean ----------

  lemma {:induction false} Absorption(n: nat, k: nat)
    requires n > 0 && k > 0
    ensures k * Choose(n, k) == n * Choose(n - 1, k - 1)
  {
    if n == 1 {
      if k > 1 {
        ChooseBeyond(1, k);
        ChooseBeyond(0, k - 1);
      }
    } else {
      Absorption(n - 1, k);
      var up, left := Choose(n - 1, k), Choose(n - 1, k - 1);
      if k == 1 {
        assert left == 1 && Choose(n - 2, 0) == 1;
      } else {
        Absorption(n - 1, k - 1);
        AbsorptionStep(n, k, up, left, Choose(n - 2, k - 1), Choose(n - 2, k - 2));
      }
    }
  }

  lemma AbsorptionStep(n: nat, k: nat, up: nat, left: nat, u: nat, l: nat)
    requires n > 1 && k > 1 && left == l + u
    requires k * up == (n - 1) * u && (k - 1) * left == (n - 1) * l
    ensures k * (left + up) == n * left
  {
    assert k * (left + up) == (k - 1) * left + left + k * up;
    assert (n - 1) * l + (n - 1) * u == (n - 1) * left;
  }

  lemma WeightAbsorbs(hostile: nat, others: nat, size: nat, k: nat)
    requires hostile > 0 && size > 0 && k > 0
    ensures k * Weight(hostile, others, size, k) == hostile * Weight(hostile - 1, others, size - 1, k - 1)
  {
    if k <= size {
      Absorption(hostile, k);
      hide Choose;
      Exchange(k, Choose(hostile, k), hostile, Choose(hostile - 1, k - 1), Choose(others, size - k));
    }
  }

  lemma Exchange(k: nat, c: nat, h: nat, d: nat, e: nat)
    requires k * c == h * d
    ensures k * (c * e) == h * (d * e)
  {
    assert k * (c * e) == (k * c) * e;
    assert h * (d * e) == (h * d) * e;
  }

  /** Multiplication under a name, so that proofs about sums can leave it closed. */
  function Scaled(k: nat, w: nat): nat {
    k * w
  }

  /** The weights counted with their number of hostile members. */
  function Moment(hostile: nat, others: nat, size: nat, lo: nat, hi: nat): nat
    decreases hi
  {
    if hi <= lo then 0 else Moment(hostile, others, size, lo, hi - 1) + Scaled(hi - 1, Weight(hostile, others, size, hi - 1))
  }

  lemma {:induction false} MomentAbsorbs(hostile: nat, others: nat, size: nat, n: nat)
    requires hostile > 0 && size > 0
    ensures Moment(hostile, others, size, 0, n + 1) == hostile * Total(hostile - 1, others, size - 1, 0, n)
  {
    hide Weight;
    if n == 0 {
      assert Moment(hostile, others, size, 0, 0) == 0;
    } else {
      MomentAbsorbs(hostile, others, size, n - 1);
      WeightAbsorbs(hostile, others, size, n);
      var t, w := Total(hostile - 1, others, size - 1, 0, n - 1), Weight(hostile - 1, others, size - 1, n - 1);
      assert hostile * (t + w) == hostile * t + hostile * w;
    }
  }

  lemma {:induction false} MomentOfRange(hostile: nat, others: nat, size: nat, hi: nat)
    ensures Moment(hostile, others, size, 0, hi) == Moment(hostile, others, size, Least(hostile, others, size), hi)
  {
    hide Weight;
    if hi > 0 {
      MomentOfRange(hostile, others, size, hi - 1);
      if hi - 1 < Least(hostile, others, size) { WeightVanishes(hostile, others, size, hi - 1); }
    }
  }

  lemma {:induction false} MomentEnds(hostile: nat, others: nat, size: nat, lo: nat, hi: nat)
    requires hi > Most(hostile, others, size) && lo <= Most(hostile, others, size) + 1
    ensures Moment(hostile, others, size, lo, hi) == Moment(hostile, others, size, lo, Most(hostile, others, size) + 1)
    decreases hi
  {
    hide Weight;
    if hi > Most(hostile, others, size) + 1 {
      MomentEnds(hostile, others, size, lo, hi - 1);
      WeightVanishes(hostile, others, size, hi - 1);
    }
  }

  lemma {:induction false} NoMoment(hostile: nat, others: nat, size: nat, hi: nat)
    requires hostile == 0 || size == 0
    ensures Moment(hostile, others, size, 0, hi) == 0
  {
    if hi > 0 {
      NoMoment(hostile, others, size, hi - 1);
      if hi > 1 { WeightVanishes(hostile, others, size, hi - 1); }
    }
  }

  /** Hostile members over all committees: each hostile member is in as many committees as any other member. */
  lemma MomentSum(hostile: nat, others: nat, size: nat)
    requires size <= hostile + others
    ensures Moment(hostile, others, size, Least(hostile, others, size), Most(hostile, others, size) + 1) * (hostile + others)
            == size * hostile * Choose(hostile + others, size)
  {
    hide Choose, Weight, Total, Moment;
    MomentOfRange(hostile, others, size, size + 1);
    MomentEnds(hostile, others, size, Least(hostile, others, size), size + 1);
    if hostile == 0 || size == 0 {
      NoMoment(hostile, others, size, size + 1);
    } else {
      MomentAbsorbs(hostile, others, size, size);
      Vandermonde(hostile - 1, others, size - 1);
      var p := hostile + others;
      Absorption(p, size);
      Regroup(hostile, Choose(p - 1, size - 1), p, size, Choose(p, size));
    }
  }

  lemma Regroup(h: nat, d: nat, p: nat, s: nat, c: nat)
    requires s * c == p * d
    ensures (h * d) * p == s * h * c
  {
    assert (h * d) * p == h * (p * d);
    assert s * h * c == h * (s * c);
  }

  // ---------- as probabilities ----------

  function Probability(population: nat, hostile: nat, size: nat, k: nat): real
    requires hostile <= population && size <= population
  {
    ChoosePositive(population, size);
    Weight(hostile, population - hostile, size, k) as real / Choose(population, size) as real
  }

  function SumOfProbabilities(population: nat, hostile: nat, size: nat, lo: nat, hi: nat): real
    requires hostile <= population && size <= population
    decreases hi
  {
    if hi <= lo then 0.0
    else SumOfProbabilities(population, hostile, size, lo, hi - 1) + Probability(population, hostile, size, hi - 1)
  }

  function Mean(population: nat, hostile: nat, size: nat, lo: nat, hi: nat): real
    requires hostile <= population && size <= population
    decreases hi
  {
    if hi <= lo then 0.0
    else Mean(population, hostile, size, lo, hi - 1) + Times((hi - 1) as real, Probability(population, hostile, size, hi - 1))
  }

  lemma {:induction false} SumIsTotal(population: nat, hostile: nat, size: nat, lo: nat, hi: nat)
    requires hostile <= population && size <= population
    ensures Choose(population, size) > 0
    ensures SumOfProbabilities(population, hostile, size, lo, hi)
            == Total(hostile, population - hostile, size, lo, hi) as real / Choose(population, size) as real
    decreases hi
  {
    ChoosePositive(population, size);
    hide Weight, Choose;
    if hi > lo {
      SumIsTotal(population, hostile, size, lo, hi - 1);
      var others := population - hostile;
      AddFractions(Total(hostile, others, size, lo, hi - 1), Weight(hostile, others, size, hi - 1), Choose(population, size) as real);
    }
  }

  lemma {:induction false} MeanIsMoment(population: nat, hostile: nat, size: nat, lo: nat, hi: nat)
    requires hostile <= population && size <= population
    ensures Choose(population, size) > 0
    ensures Mean(population, hostile, size, lo, hi)
            == Moment(hostile, population - hostile, size, lo, hi) as real / Choose(population, size) as real
    decreases hi
  {
    ChoosePositive(population, size);
    hide Weight, Choose;
    hide Scaled, Times, Probability;
    if hi > lo {
      MeanIsMoment(population, hostile, size, lo, hi - 1);
      var d, others, k := Choose(population, size) as real, population - hostile, hi - 1;
      var w := Weight(hostile, others, size, k);
      ProbabilityIs(population, hostile, size, k);
      ScaleFraction(k, w, d);
      AddFractions(Moment(hostile, others, size, lo, k), Scaled(k, w), d);
    }
  }

  lemma ProbabilityIs(population: nat, hostile: nat, size: nat, k: nat)
    requires hostile <= population && size <= population
    ensures Choose(population, size) > 0
    ensures Probability(population, hostile, size, k)
            == Weight(hostile, population - hostile, size, k) as real / Choose(population, size) as real
  {
    ChoosePositive(population, size);
  }

  lemma AddFractions(a: nat, b: nat, d: real)
    requires d > 0.0
    ensures a as real / d + b as real / d == (a + b) as real / d
  {
  }

  lemma ScaleFraction(k: nat, w: nat, d: real)
    requires d > 0.0
    ensures Times(k as real, w as real / d) == Scaled(k, w) as real / d
  {
    assert (k * w) as real == k as real * w as real;
  }

  /** First assertion of `distribution`, for all parameters: it sums to one. */
  lemma SumsToOne(population: nat, hostile: nat, size: nat)
    requires hostile <= population && size <= population
    ensures var others := population - hostile;
            SumOfProbabilities(population, hostile, size, Least(hostile, others, size), Most(hostile, others, size) + 1) == 1.0
  {
    var others := population - hostile;
    hide Choose, Weight, Total, Moment, SumOfProbabilities, Mean, Least, Most;
    SumIsTotal(population, hostile, size, Least(hostile, others, size), Most(hostile, others, size) + 1);
    WeightsSum(hostile, others, size);
    assert hostile + others == population;
    Whole(Choose(population, size));
  }

  /** Second assertion, for all parameters: its mean is size * hostile / population. */
  lemma MeanOfDistribution(population: nat, hostile: nat, size: nat)
    requires hostile <= population && size <= population && population > 0
    ensures var others := population - hostile;
            Mean(population, hostile, size, Least(hostile, others, size), Most(hostile, others, size) + 1)
            == (size * hostile) as real / population as real
  {
    var others := population - hostile;
    var lo, hi := Least(hostile, others, size), Most(hostile, others, size) + 1;
    hide Choose, Weight, Total, Moment, SumOfProbabilities, Mean, Least, Most;
    MeanIsMoment(population, hostile, size, lo, hi);
    MomentSum(hostile, others, size);
    assert hostile + others == population;
    CrossMultiply(Moment(hostile, others, size, lo, hi), Choose(population, size), size * hostile, population);
  }

  lemma Whole(d: nat)
    requires d > 0
    ensures d as real / d as real == 1.0
  {
  }

  lemma CrossMultiply(a: nat, b: nat, c: nat, d: nat)
    requires b > 0 && d > 0 && a * d == c * b
    ensures a as real / b as real == c as real / d as real
  {
    var x, y, u, v := a as real, b as real, c as real, d as real;
    assert x * v == (a * d) as real && u * y == (c * b) as real;
    assert x / y == (x * v) / (y * v);
    assert u / v == (u * y) / (v * y);
  }

  // ---------- certificates ----------

  /** envelope: the assumed faults of a jury and the signatures a certificate needs. */
  function Faults(jury: int): int {
    (jury - 1) / 3
  }

  function Threshold(jury: int): int {
    (jury + Faults(jury)) / 2 + 1
  }

  /** The threshold is the least that makes two certificates overlap beyond the faults, and the honest can reach it. */
  lemma Envelope(jury: int)
    ensures 2 * Threshold(jury) > jury + Faults(jury)
    ensures Threshold(jury) <= jury - Faults(jury)
    ensures forall t: int :: 2 * t > jury + Faults(jury) ==> t >= Threshold(jury)
  {
  }

  /** Any two certificates of one jury share a member that is not faulty, and the honest members are a certificate. */
  lemma CertificatesMeet(jury: set<nat>, a: set<nat>, b: set<nat>, faulty: set<nat>)
    requires jury != {} && a <= jury && b <= jury && faulty <= jury && |faulty| <= Faults(|jury|)
    requires |a| >= Threshold(|jury|) && |b| >= Threshold(|jury|)
    ensures |a * b| > Faults(|jury|) && (a * b) - faulty != {}
    ensures |jury - faulty| >= Threshold(|jury|)
  {
    Envelope(|jury|);
    Excess(a, b, jury);
    SubsetSize(faulty, jury);
    if (a * b) - faulty == {} { SubsetSize(a * b, faulty); }
  }

  /** opposite_certificates: the least overlap of an acceptance and a rejection is exactly max(0, accept + reject - n). */
  lemma OppositeCertificates(jury: set<nat>, accept: nat, reject: nat) returns (yes: set<nat>, no: set<nat>)
    requires accept <= |jury| && reject <= |jury|
    ensures yes <= jury && no <= jury && |yes| == accept && |no| == reject
    ensures |yes * no| == if accept + reject > |jury| then accept + reject - |jury| else 0
    ensures forall l, r | l <= jury && r <= jury && |l| == accept && |r| == reject :: |l * r| >= |yes * no|
  {
    yes := SubsetOf(jury, accept);
    SubsetSize(yes, jury);
    if accept + reject > |jury| {
      var shared := SubsetOf(yes, accept + reject - |jury|);
      no := (jury - yes) + shared;
      assert yes * no == shared;
    } else {
      no := SubsetOf(jury - yes, reject);
      assert yes * no == {};
    }
    forall l, r | l <= jury && r <= jury && |l| == accept && |r| == reject ensures |l * r| >= |yes * no| {
      Excess(l, r, jury);
    }
  }
}
