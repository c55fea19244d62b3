/**
 Two disjoint committees drawn one after the other, as the R-149 analysis draws them: the chance that both have enough
 hostile members, counted over all ordered pairs and summed over the first committee.
 */
module JointCommittees {
  import opened Binomial
  import opened FiniteSets
  import opened Committees

  type Group = set<nat>

  // ---------- one committee ----------

  /** The committees of a size with at least `lo` and fewer than `hi` hostile members. */
  function Between(population: set<nat>, hostile: set<nat>, size: nat, lo: nat, hi: nat): set<Group> {
    set s | s <= population && |s| == size && lo <= |s * hostile| < hi
  }

  lemma OneMore(population: set<nat>, hostile: set<nat>, size: nat, lo: nat, hi: nat)
    requires lo <= hi
    ensures Between(population, hostile, size, lo, hi + 1)
            == Between(population, hostile, size, lo, hi) + Samples(population, hostile, size, hi)
    ensures Between(population, hostile, size, lo, hi) !! Samples(population, hostile, size, hi)
  {
  }

  lemma NoneBetween(population: set<nat>, hostile: set<nat>, size: nat, lo: nat, hi: nat)
    requires hi <= lo
    ensures Between(population, hostile, size, lo, hi) == {}
  {
  }

  lemma {:induction false} BetweenCount(population: set<nat>, hostile: set<nat>, size: nat, lo: nat, hi: nat)
    requires hostile <= population
    ensures |hostile| <= |population|
    ensures |Between(population, hostile, size, lo, hi)| == Total(|hostile|, |population| - |hostile|, size, lo, hi)
    decreases hi
  {
    SubsetSize(hostile, population);
    hide Samples, Weight, Between;
    if hi <= lo {
      NoneBetween(population, hostile, size, lo, hi);
    } else {
      BetweenCount(population, hostile, size, lo, hi - 1);
      SampleCount(population, hostile, size, hi - 1);
      OneMore(population, hostile, size, lo, hi - 1);
    }
  }

  // ---------- a second one beside it ----------

  /** The second committees that lie beside the first and have at least t hostile members. */
  function Beside(population: set<nat>, hostile: set<nat>, size: nat, t: nat, a: Group): set<Group> {
    Between(population - a, hostile - a, size, t, size + 1)
  }

  function Pairs(first: set<Group>, population: set<nat>, hostile: set<nat>, size: nat, t: nat): set<(Group, Group)> {
    set a <- first, b <- Beside(population, hostile, size, t, a) :: (a, b)
  }

  function With(a: Group, seconds: set<Group>): set<(Group, Group)> {
    set b <- seconds :: (a, b)
  }

  lemma {:induction false} WithSize(a: Group, seconds: set<Group>)
    ensures |With(a, seconds)| == |seconds|
  {
    if seconds != {} {
      var b :| b in seconds;
      WithSize(a, seconds - {b});
      assert With(a, seconds) == With(a, seconds - {b}) + {(a, b)};
    }
  }

  lemma PairsSplit(first: set<Group>, other: set<Group>, population: set<nat>, hostile: set<nat>, size: nat, t: nat)
    requires first !! other
    ensures Pairs(first + other, population, hostile, size, t)
            == Pairs(first, population, hostile, size, t) + Pairs(other, population, hostile, size, t)
    ensures Pairs(first, population, hostile, size, t) !! Pairs(other, population, hostile, size, t)
  {
    hide Beside;
  }

  lemma PairsOfOne(a: Group, population: set<nat>, hostile: set<nat>, size: nat, t: nat)
    ensures Pairs({a}, population, hostile, size, t) == With(a, Beside(population, hostile, size, t, a))
  {
    hide Beside;
  }

  lemma PairsOfMore(first: set<Group>, a: Group, population: set<nat>, hostile: set<nat>, size: nat, t: nat)
    requires a in first
    ensures |Pairs(first, population, hostile, size, t)|
            == |Pairs(first - {a}, population, hostile, size, t)| + |Beside(population, hostile, size, t, a)|
  {
    hide Pairs, Beside, With;
    assert first - {a} + {a} == first;
    PairsSplit(first - {a}, {a}, population, hostile, size, t);
    PairsOfOne(a, population, hostile, size, t);
    WithSize(a, Beside(population, hostile, size, t, a));
  }

  lemma {:induction false} PairsCount(first: set<Group>, population: set<nat>, hostile: set<nat>, size: nat, t: nat, each: nat)
    requires forall a <- first :: |Beside(population, hostile, size, t, a)| == each
    ensures |Pairs(first, population, hostile, size, t)| == Scaled(|first|, each)
  {
    hide Beside, Pairs, Scaled;
    if first == {} {
      PairsOfNone(population, hostile, size, t);
      ZeroTimes(each);
    } else {
      var a :| a in first;
      PairsCount(first - {a}, population, hostile, size, t, each);
      PairsOfMore(first, a, population, hostile, size, t);
      OneTimesMore(|first| - 1, each);
    }
  }

  lemma ZeroTimes(each: nat)
    ensures Scaled(0, each) == 0
  {
  }

  lemma OneTimesMore(n: nat, each: nat)
    ensures Scaled(n + 1, each) == Scaled(n, each) + each
  {
    assert (n + 1) * each == n * each + each;
  }

  /** How many second committees there are depends on the first only through its hostile members. */
  lemma BesideCount(population: set<nat>, hostile: set<nat>, size: nat, t: nat, a: Group)
    requires hostile <= population && a <= population
    ensures |a * hostile| <= |hostile| <= |population|
    ensures |a| - |a * hostile| <= |population| - |hostile| && |a * hostile| <= |a|
    ensures |Beside(population, hostile, size, t, a)|
            == Total(|hostile| - |a * hostile|, |population| - |hostile| - (|a| - |a * hostile|), size, t, size + 1)
  {
    SubsetSize(a, population);
    SubsetSize(hostile, population);
    SubsetSize(a * hostile, hostile);
    SubsetSize(a * hostile, a);
    assert hostile - a == hostile - a * hostile;
    BetweenCount(population - a, hostile - a, size, t, size + 1);
    hide Between, Total;
  }

  // ---------- the sum over the first committee ----------

  /** The first committee can have k hostile members: so many of them, and so many others, are there. */
  predicate Possible(hostile: nat, others: nat, size: nat, k: nat) {
    Least(hostile, others, size) <= k <= Most(hostile, others, size)
  }

  /** The pairs whose first committee has k hostile members. */
  function JointTerm(hostile: nat, others: nat, first: nat, second: nat, t: nat, k: nat): nat {
    if Possible(hostile, others, first, k)
    then Scaled(Weight(hostile, others, first, k), Total(hostile - k, others - (first - k), second, t, second + 1))
    else 0
  }

  function JointTotal(hostile: nat, others: nat, first: nat, second: nat, t: nat, lo: nat, hi: nat): nat
    decreases hi
  {
    if hi <= lo then 0
    else JointTotal(hostile, others, first, second, t, lo, hi - 1) + JointTerm(hostile, others, first, second, t, hi - 1)
  }

  /** How many pairs have a first committee with between `lo` and `hi`, or with exactly k, hostile members. */
  function PairCount(population: set<nat>, hostile: set<nat>, first: nat, second: nat, t: nat, lo: nat, hi: nat): nat {
    |Pairs(Between(population, hostile, first, lo, hi), population, hostile, second, t)|
  }

  function TermPairs(population: set<nat>, hostile: set<nat>, first: nat, second: nat, t: nat, k: nat): nat {
    |Pairs(Samples(population, hostile, first, k), population, hostile, second, t)|
  }

  /** So many hostile members and so many others. */
  predicate Sized(population: set<nat>, hostile: set<nat>, h: nat, others: nat) {
    hostile <= population && |hostile| == h && |population| == h + others
  }

  lemma TermCount(population: set<nat>, hostile: set<nat>, h: nat, others: nat, first: nat, second: nat, t: nat, k: nat)
    requires Sized(population, hostile, h, others)
    ensures TermPairs(population, hostile, first, second, t, k) == JointTerm(h, others, first, second, t, k)
  {
    var samples := Samples(population, hostile, first, k);
    hide Pairs, Beside, Total, Weight, Scaled;
    SampleCount(population, hostile, first, k);
    if Possible(h, others, first, k) {
      var each := Total(h - k, others - (first - k), second, t, second + 1);
      forall a | a in samples ensures |Beside(population, hostile, second, t, a)| == each {
        BesideCount(population, hostile, second, t, a);
      }
      PairsCount(samples, population, hostile, second, t, each);
    } else {
      WeightVanishes(h, others, first, k);
      PairsOfNone(population, hostile, second, t);
    }
  }

  lemma NoPairs(population: set<nat>, hostile: set<nat>, first: nat, second: nat, t: nat, lo: nat, hi: nat)
    requires hi <= lo
    ensures PairCount(population, hostile, first, second, t, lo, hi) == 0
  {
    hide Pairs, Between;
    NoneBetween(population, hostile, first, lo, hi);
    PairsOfNone(population, hostile, second, t);
  }

  lemma PairsOfNone(population: set<nat>, hostile: set<nat>, size: nat, t: nat)
    ensures Pairs({}, population, hostile, size, t) == {}
  {
  }

  lemma JointStep(population: set<nat>, hostile: set<nat>, first: nat, second: nat, t: nat, lo: nat, hi: nat)
    requires lo <= hi
    ensures PairCount(population, hostile, first, second, t, lo, hi + 1)
            == PairCount(population, hostile, first, second, t, lo, hi) + TermPairs(population, hostile, first, second, t, hi)
  {
    hide Pairs, Samples, Between;
    OneMore(population, hostile, first, lo, hi);
    PairsSplit(Between(population, hostile, first, lo, hi), Samples(population, hostile, first, hi),
               population, hostile, second, t);
  }

  /** All pairs whose first committee has between `lo` and `hi` hostile members. */
  lemma {:induction false} JointCount(population: set<nat>, hostile: set<nat>, h: nat, others: nat, first: nat, second: nat,
                                      t: nat, lo: nat, hi: nat)
    requires Sized(population, hostile, h, others)
    ensures PairCount(population, hostile, first, second, t, lo, hi) == JointTotal(h, others, first, second, t, lo, hi)
    decreases hi
  {
    hide PairCount, TermPairs, JointTerm, Sized;
    if hi <= lo {
      NoPairs(population, hostile, first, second, t, lo, hi);
    } else {
      JointCount(population, hostile, h, others, first, second, t, lo, hi - 1);
      TermCount(population, hostile, h, others, first, second, t, hi - 1);
      JointStep(population, hostile, first, second, t, lo, hi - 1);
    }
  }

  /** The range of the first committee's distribution from s on is all that counts. */
  lemma {:induction false} RangeCounts(hostile: nat, others: nat, first: nat, second: nat, t: nat, s: nat, hi: nat)
    ensures var lo := if s < Least(hostile, others, first) then Least(hostile, others, first) else s;
            var top := if hi > Most(hostile, others, first) + 1 then Most(hostile, others, first) + 1 else hi;
            JointTotal(hostile, others, first, second, t, s, hi) == JointTotal(hostile, others, first, second, t, lo, top)
    decreases hi
  {
    hide Weight, Total, Scaled;
    if hi > s { RangeCounts(hostile, others, first, second, t, s, hi - 1); }
  }

  // ---------- as probabilities ----------

  /** The chance of at least t hostile members; counts that cannot occur have none. */
  function Tail(population: nat, hostile: nat, size: nat, t: nat): real
    requires hostile <= population && size <= population
  {
    SumOfProbabilities(population, hostile, size, t, size + 1)
  }

  /** The script's sum: over the first committee's count, its chance times that of the second among the rest. */
  function Joint(population: nat, hostile: nat, first: nat, second: nat, t: nat, lo: nat, hi: nat): real
    requires hostile <= population && first + second <= population
    requires Least(hostile, population - hostile, first) <= lo && hi <= Most(hostile, population - hostile, first) + 1
    decreases hi
  {
    if hi <= lo then 0.0
    else
      Joint(population, hostile, first, second, t, lo, hi - 1)
      + Times(Probability(population, hostile, first, hi - 1), Tail(population - first, hostile - (hi - 1), second, t))
  }

  lemma FractionsMultiply(a: nat, b: nat, c: nat, d: nat)
    requires c > 0 && d > 0
    ensures Scaled(c, d) > 0
    ensures Times(a as real / c as real, b as real / d as real) == Scaled(a, b) as real / Scaled(c, d) as real
  {
    ScaledAsReal(a, b);
    ScaledAsReal(c, d);
    TimesPositive(c as real, d as real);
    var x, y := a as real / c as real, b as real / d as real;
    Divides(a as real, c as real);
    Divides(b as real, d as real);
    hide Times, Scaled;
    TimesInterchanges(x, y, c as real, d as real);
    DividesBack(Times(x, y), Times(a as real, b as real), Times(c as real, d as real));
  }

  lemma ScaledAsReal(a: nat, b: nat)
    ensures Scaled(a, b) as real == Times(a as real, b as real)
  {
    assert (a * b) as real == a as real * b as real;
  }

  lemma Divides(w: real, v: real)
    requires v > 0.0
    ensures Times(w / v, v) == w
  {
  }

  lemma DividesBack(z: real, w: real, v: real)
    requires v > 0.0 && Times(z, v) == w
    ensures z == w / v
  {
  }

  lemma {:induction false} JointIsTotal(population: nat, hostile: nat, first: nat, second: nat, t: nat, lo: nat, hi: nat)
    requires hostile <= population && first + second <= population
    requires Least(hostile, population - hostile, first) <= lo && hi <= Most(hostile, population - hostile, first) + 1
    ensures Scaled(Choose(population, first), Choose(population - first, second)) > 0
    ensures Joint(population, hostile, first, second, t, lo, hi)
            == JointTotal(hostile, population - hostile, first, second, t, lo, hi) as real
               / Scaled(Choose(population, first), Choose(population - first, second)) as real
    decreases hi
  {
    BothPositive(population, first, second);
    var all, others := Scaled(Choose(population, first), Choose(population - first, second)), population - hostile;
    hide Choose, Scaled, Times, Probability, Tail, JointTerm;
    if hi > lo {
      JointIsTotal(population, hostile, first, second, t, lo, hi - 1);
      TermIsFraction(population, hostile, first, second, t, hi - 1);
      AddFractions(JointTotal(hostile, others, first, second, t, lo, hi - 1),
                   JointTerm(hostile, others, first, second, t, hi - 1), all as real);
    }
  }

  lemma BothPositive(population: nat, first: nat, second: nat)
    requires first + second <= population
    ensures Choose(population, first) > 0 && Choose(population - first, second) > 0
    ensures Scaled(Choose(population, first), Choose(population - first, second)) > 0
  {
    ChoosePositive(population, first);
    ChoosePositive(population - first, second);
    hide Choose;
    FractionsMultiply(0, 0, Choose(population, first), Choose(population - first, second));
  }

  lemma TermIsFraction(population: nat, hostile: nat, first: nat, second: nat, t: nat, k: nat)
    requires hostile <= population && first + second <= population && Possible(hostile, population - hostile, first, k)
    ensures Scaled(Choose(population, first), Choose(population - first, second)) > 0
    ensures Times(Probability(population, hostile, first, k), Tail(population - first, hostile - k, second, t))
            == JointTerm(hostile, population - hostile, first, second, t, k) as real
               / Scaled(Choose(population, first), Choose(population - first, second)) as real
  {
    BothPositive(population, first, second);
    var others := population - hostile;
    hide Choose, Weight, Total, Scaled, Times, Probability, SumOfProbabilities;
    ProbabilityIs(population, hostile, first, k);
    SumIsTotal(population - first, hostile - k, second, t, second + 1);
    FractionsMultiply(Weight(hostile, others, first, k), Total(hostile - k, others - (first - k), second, t, second + 1),
                      Choose(population, first), Choose(population - first, second));
  }

  /** All ordered pairs of disjoint committees. */
  lemma AllPairs(population: set<nat>, hostile: set<nat>, first: nat, second: nat)
    requires hostile <= population && first + second <= |population|
    ensures PairCount(population, hostile, first, second, 0, 0, first + 1)
            == Scaled(Choose(|population|, first), Choose(|population| - first, second))
  {
    SubsetSize(hostile, population);
    var all := Between(population, hostile, first, 0, first + 1);
    var each := Choose(|population| - first, second);
    hide Pairs, Beside, Total, Choose, Scaled;
    forall a | a in all ensures |Beside(population, hostile, second, 0, a)| == each {
      BesideCount(population, hostile, second, 0, a);
      Vandermonde(|hostile| - |a * hostile|, |population| - |hostile| - (|a| - |a * hostile|), second);
    }
    hide Between;
    PairsCount(all, population, hostile, second, 0, each);
    BetweenCount(population, hostile, first, 0, first + 1);
    Vandermonde(|hostile|, |population| - |hostile|, first);
  }

  lemma AllPairsSized(population: set<nat>, hostile: set<nat>, h: nat, others: nat, first: nat, second: nat)
    requires Sized(population, hostile, h, others) && first + second <= h + others
    ensures PairCount(population, hostile, first, second, 0, 0, first + 1)
            == Scaled(Choose(h + others, first), Choose(h + others - first, second))
  {
    hide PairCount, Scaled, Choose;
    AllPairs(population, hostile, first, second);
  }

  /**
   For every population, committee sizes and thresholds: among all ordered pairs of disjoint committees, the share with
   at least s hostile members in the first and t in the second is the script's sum.
   */
  lemma JointDraw(population: set<nat>, hostile: set<nat>, h: nat, others: nat, first: nat, s: nat, second: nat, t: nat)
    requires Sized(population, hostile, h, others) && first + second <= h + others
    ensures var all := PairCount(population, hostile, first, second, 0, 0, first + 1);
            var both := PairCount(population, hostile, first, second, t, s, first + 1);
            var least := Least(h, others, first);
            && all > 0
            && both as real / all as real
               == Joint(h + others, h, first, second, t, if s < least then least else s, Most(h, others, first) + 1)
  {
    hide PairCount, JointTotal, Joint, Scaled, Choose, Sized;
    var least, most := Least(h, others, first), Most(h, others, first);
    var lo := if s < least then least else s;
    AllPairsSized(population, hostile, h, others, first, second);
    JointCount(population, hostile, h, others, first, second, t, s, first + 1);
    RangeCounts(h, others, first, second, t, s, first + 1);
    JointIsTotal(h + others, h, first, second, t, lo, most + 1);
  }
}
