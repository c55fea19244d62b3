/**
 The R-149 race between an attacker with work share q and the honest rest with share p = 1 - q. The script computes
 the chance of a catch-up from z blocks behind in two ways and compares them on eighteen instances; here they agree
 everywhere, and both are the chance they claim to be. Fractions are exact, so they are reals here.
 */
module CatchUpRace {
  import opened Binomial

  /** So many equally likely ways, each with chance x * y. */
  function Weight(ways: nat, x: real, y: real): real {
    Times(ways as real, Times(x, y))
  }

  /** The next block is of share q, then the chance is s; or of share p, then it is t. */
  function Either(q: real, s: real, p: real, t: real): real {
    Times(q, s) + Times(p, t)
  }

  /** One term of the script's first sum, over q = a/b and scaled by b^n. */
  function ScaledTerm(a: int, b: int, n: nat, k: nat): real {
    if k > n then 0.0 else Weight(Choose(n, k), Power(a as real, k), Power((b - a) as real, n - k))
  }

  /** The sum over range(lo, hi) of the scaled terms. */
  function ScaledSum(a: int, b: int, n: nat, lo: nat, hi: nat): real
    decreases hi
  {
    if lo >= hi then 0.0 else ScaledSum(a, b, n, lo, hi - 1) + ScaledTerm(a, b, n, hi - 1)
  }

  /** catchup for the share q = a/b: one when q is at least a half, otherwise the doubled binomial tail. */
  function CatchUp(a: int, b: int, z: nat): real
    requires 0 < b && z > 0
  {
    if 2 * a >= b then 1.0
    else
      PowerNonNegative(b as real, 2 * z - 1);
      2.0 * ScaledSum(a, b, 2 * z - 1, z, 2 * z) / Power(b as real, 2 * z - 1)
  }

  /** The chance that k blocks of share p precede the r-th block of share q. */
  function Waiting(q: real, p: real, r: nat, k: nat): real
    requires r > 0
  {
    Weight(Choose(r + k - 1, k), Power(q, r), Power(p, k))
  }

  /** The sum over range(hi) inside catchup_negative_binomial. */
  function WaitingDifference(q: real, p: real, z: nat, hi: nat): real
    requires z > 0
  {
    if hi == 0 then 0.0
    else WaitingDifference(q, p, z, hi - 1) + (Waiting(p, q, z, hi - 1) - Waiting(q, p, z, hi - 1))
  }

  /** catchup_negative_binomial. */
  function CatchUpNegativeBinomial(q: real, z: nat): real
    requires z > 0
  {
    if 2.0 * q >= 1.0 then 1.0 else 1.0 - WaitingDifference(q, 1.0 - q, z, z)
  }

  /** The race itself: the chance that share q finds `mine` more blocks before share p finds `theirs`. */
  function Race(q: real, p: real, mine: nat, theirs: nat): real {
    if mine == 0 then 1.0
    else if theirs == 0 then 0.0
    else Either(q, Race(q, p, mine - 1, theirs), p, Race(q, p, mine, theirs - 1))
  }

  // ---------- the binomial tail obeys the race recursion ----------

  /** The chance of exactly k blocks of share q among n, one block at a time. */
  function Exactly(q: real, p: real, n: nat, k: nat): real {
    if n == 0 then if k == 0 then 1.0 else 0.0
    else if k == 0 then Times(p, Exactly(q, p, n - 1, 0))
    else Either(q, Exactly(q, p, n - 1, k - 1), p, Exactly(q, p, n - 1, k))
  }

  lemma {:induction false} ExactlyBeyond(q: real, p: real, n: nat, k: nat)
    requires k > n
    ensures Exactly(q, p, n, k) == 0.0
  {
    hide Times;
    if n > 0 {
      ExactlyBeyond(q, p, n - 1, k - 1);
      ExactlyBeyond(q, p, n - 1, k);
      TimesUnits(q);
      TimesUnits(p);
    }
  }

  lemma WeightPascal(c: nat, d: nat, q: real, p: real, x: real, y: real)
    ensures Weight(c + d, Times(q, x), Times(p, y)) == Either(q, Weight(c, x, Times(p, y)), p, Weight(d, Times(q, x), y))
  {
    var w := (q * x) * (p * y);
    assert (c + d) as real * w == c as real * w + d as real * w;
    assert c as real * w == q * (c as real * (x * (p * y)));
    assert d as real * w == p * (d as real * ((q * x) * y));
  }

  lemma WeightGrows(c: nat, q: real, x: real, y: real)
    ensures Times(q, Weight(c, x, y)) == Weight(c, Times(q, x), y) == Weight(c, x, Times(q, y))
  {
    assert q * (c as real * (x * y)) == c as real * ((q * x) * y);
    assert (q * x) * y == x * (q * y);
  }

  lemma {:induction false} ExactlyIsBinomial(q: real, p: real, n: nat, k: nat)
    requires k <= n
    ensures Exactly(q, p, n, k) == Weight(Choose(n, k), Power(q, k), Power(p, n - k))
  {
    hide Times;
    if n == 0 {
      TimesUnits(1.0);
    } else if k == 0 {
      ExactlyIsBinomial(q, p, n - 1, 0);
      WeightGrows(1, p, 1.0, Power(p, n - 1));
    } else if k == n {
      ExactlyIsBinomial(q, p, n - 1, n - 1);
      ExactlyBeyond(q, p, n - 1, n);
      ChooseAll(n - 1);
      ChooseAll(n);
      WeightGrows(1, q, Power(q, n - 1), 1.0);
      TimesUnits(p);
    } else {
      ExactlyIsBinomial(q, p, n - 1, k - 1);
      ExactlyIsBinomial(q, p, n - 1, k);
      WeightPascal(Choose(n - 1, k - 1), Choose(n - 1, k), q, p, Power(q, k - 1), Power(p, n - 1 - k));
    }
  }

  /** The chance of at least k blocks of share q among n, summed up to hi. */
  function Tail(q: real, p: real, n: nat, k: nat, hi: nat): real
    decreases hi
  {
    if k >= hi then 0.0 else Tail(q, p, n, k, hi - 1) + Exactly(q, p, n, hi - 1)
  }

  lemma EitherSums(q: real, p: real, s: real, u: real, t: real, v: real, su: real, tv: real)
    requires su == s + u && tv == t + v
    ensures Either(q, s, p, t) + Either(q, u, p, v) == Either(q, su, p, tv)
  {
    assert q * (s + u) == q * s + q * u;
    assert p * (t + v) == p * t + p * v;
  }

  lemma {:induction false} TailPascal(q: real, p: real, n: nat, k: nat, hi: nat)
    requires n > 0 && k > 0 && hi > 0
    ensures Tail(q, p, n, k, hi) == Either(q, Tail(q, p, n - 1, k - 1, hi - 1), p, Tail(q, p, n - 1, k, hi))
    decreases hi
  {
    hide Times;
    if k < hi {
      TailPascal(q, p, n, k, hi - 1);
      EitherSums(q, p, Tail(q, p, n - 1, k - 1, hi - 2), Exactly(q, p, n - 1, hi - 2),
                 Tail(q, p, n - 1, k, hi - 1), Exactly(q, p, n - 1, hi - 1),
                 Tail(q, p, n - 1, k - 1, hi - 1), Tail(q, p, n - 1, k, hi));
    } else {
      TimesUnits(q);
      TimesUnits(p);
    }
  }

  lemma {:induction false} TailFromFirst(q: real, p: real, n: nat, k: nat, hi: nat)
    requires k < hi
    ensures Tail(q, p, n, k, hi) == Exactly(q, p, n, k) + Tail(q, p, n, k + 1, hi)
    decreases hi
  {
    hide Times;
    if k + 1 < hi { TailFromFirst(q, p, n, k, hi - 1); }
  }

  lemma {:induction false} TailOfAll(q: real, p: real, n: nat)
    requires q + p == 1.0
    ensures Tail(q, p, n, 0, n + 1) == 1.0
  {
    hide Times;
    if n == 0 {
      assert Tail(q, p, 0, 0, 1) == Tail(q, p, 0, 0, 0) + Exactly(q, p, 0, 0);
    } else {
      TailFromFirst(q, p, n, 0, n + 1);
      TailPascal(q, p, n, 1, n + 1);
      TailFromFirst(q, p, n - 1, 0, n + 1);
      TailOfAll(q, p, n - 1);
      ExactlyBeyond(q, p, n - 1, n);
      TimesUnits(q);
      TimesUnits(p);
      EitherSums(q, p, 0.0, 1.0, Exactly(q, p, n - 1, 0), Tail(q, p, n - 1, 1, n + 1), 1.0, 1.0);
    }
  }

  /** The tail is the race: at least `mine` of the deciding blocks are the attacker's. */
  lemma {:induction false} TailIsRace(q: real, p: real, mine: nat, theirs: nat)
    requires q + p == 1.0 && mine + theirs > 0
    ensures Tail(q, p, mine + theirs - 1, mine, mine + theirs) == Race(q, p, mine, theirs)
    decreases mine + theirs
  {
    hide Times;
    if mine == 0 {
      TailOfAll(q, p, theirs - 1);
    } else if theirs > 0 {
      var n := mine + theirs - 1;
      TailPascal(q, p, n, mine, n + 1);
      TailIsRace(q, p, mine - 1, theirs);
      TailIsRace(q, p, mine, theirs - 1);
      ExactlyBeyond(q, p, n - 1, n);
      assert Tail(q, p, n - 1, mine, n + 1) == Race(q, p, mine, theirs - 1);
    }
  }

  /** Somebody wins. */
  lemma {:induction false} RaceIsDecided(q: real, p: real, mine: nat, theirs: nat)
    requires q + p == 1.0 && mine + theirs > 0
    ensures Race(q, p, mine, theirs) + Race(p, q, theirs, mine) == 1.0
    decreases mine + theirs
  {
    hide Times;
    if mine > 0 && theirs > 0 {
      RaceIsDecided(q, p, mine - 1, theirs);
      RaceIsDecided(q, p, mine, theirs - 1);
      EitherSums(q, p, Race(q, p, mine - 1, theirs), Race(p, q, theirs, mine - 1),
                 Race(q, p, mine, theirs - 1), Race(p, q, theirs - 1, mine), 1.0, 1.0);
      TimesUnits(q);
      TimesUnits(p);
    }
  }

  // ---------- the negative-binomial sum is the same race ----------

  /** The sum over range(hi) of the waiting chances. */
  function WaitingSum(q: real, p: real, r: nat, hi: nat): real
    requires r > 0
  {
    if hi == 0 then 0.0 else WaitingSum(q, p, r, hi - 1) + Waiting(q, p, r, hi - 1)
  }

  /** The r-th block of share q comes last: that chance is q times the chance of exactly r - 1 before it. */
  lemma WaitingIsExactly(q: real, p: real, r: nat, b: nat)
    requires r > 0
    ensures Waiting(q, p, r, b) == Times(q, Exactly(q, p, r + b - 1, r - 1))
  {
    hide Times;
    ExactlyIsBinomial(q, p, r + b - 1, r - 1);
    ChooseSymmetric(r - 1, b);
    WeightGrows(Choose(r + b - 1, b), q, Power(q, r - 1), Power(p, b));
  }

  lemma Absorb(q: real, p: real, e: real, t: real, et: real)
    requires q + p == 1.0 && et == e + t
    ensures Either(q, et, p, t) == t + Times(q, e)
  {
    assert q * (e + t) == q * e + q * t;
    assert q * t + p * t == (q + p) * t;
  }

  lemma TailStep(q: real, p: real, r: nat, b: nat)
    requires q + p == 1.0 && r > 0
    ensures Tail(q, p, r + b, r, r + b + 1) == Tail(q, p, r + b - 1, r, r + b) + Waiting(q, p, r, b)
  {
    hide Times;
    var n := r + b - 1;
    TailPascal(q, p, n + 1, r, n + 2);
    TailFromFirst(q, p, n, r - 1, n + 1);
    ExactlyBeyond(q, p, n, n + 1);
    WaitingIsExactly(q, p, r, b);
    Absorb(q, p, Exactly(q, p, n, r - 1), Tail(q, p, n, r, n + 2), Tail(q, p, n, r - 1, n + 1));
  }

  lemma {:induction false} WaitingSumIsRace(q: real, p: real, r: nat, b: nat)
    requires q + p == 1.0 && r > 0
    ensures WaitingSum(q, p, r, b) == Race(q, p, r, b)
  {
    hide Times;
    if b > 0 {
      WaitingSumIsRace(q, p, r, b - 1);
      TailStep(q, p, r, b - 1);
      TailIsRace(q, p, r, b);
      TailIsRace(q, p, r, b - 1);
    }
  }

  lemma {:induction false} DifferenceOfSums(q: real, p: real, z: nat, hi: nat)
    requires z > 0
    ensures WaitingDifference(q, p, z, hi) == WaitingSum(p, q, z, hi) - WaitingSum(q, p, z, hi)
  {
    hide Times;
    if hi > 0 { DifferenceOfSums(q, p, z, hi - 1); }
  }

  // ---------- main results ----------

  /** q is the share a/b and p the rest. */
  predicate Shares(q: real, p: real, a: int, b: int) {
    && 0 < b
    && Times(b as real, q) == a as real
    && Times(b as real, p) == (b - a) as real
    && q + p == 1.0
  }

  lemma SharesOf(a: int, b: int) returns (q: real, p: real)
    requires 0 < b
    ensures q == a as real / b as real && p == 1.0 - q && Shares(q, p, a, b)
    ensures 2 * a < b <==> 2.0 * q < 1.0
    ensures 0 < a ==> 0.0 < q
  {
    q, p := Quotient(a as real, b as real);
  }

  lemma Quotient(x: real, d: real) returns (q: real, p: real)
    requires d > 0.0
    ensures q == x / d && p == 1.0 - q && Times(d, q) == x && Times(d, p) == d - x
    ensures 2.0 * x < d <==> 2.0 * q < 1.0
    ensures 0.0 < x ==> 0.0 < q
  {
    q := x / d;
    p := 1.0 - q;
    assert q * d == x;
    Complement(d, q, p, x);
    Compares(2.0 * q, 1.0, d);
    Compares(0.0, q, d);
    assert (2.0 * q) * d == 2.0 * x;
  }

  lemma Complement(d: real, q: real, p: real, x: real)
    requires p == 1.0 - q && q * d == x
    ensures Times(d, q) == x && Times(d, p) == d - x
  {
    assert d * (1.0 - q) == d - d * q;
  }

  lemma Compares(x: real, y: real, d: real)
    requires d > 0.0
    ensures x * d < y * d <==> x < y
  {
    var gap := y - x;
    assert y * d - x * d == gap * d;
  }

  lemma WeightScales(c: nat, u: real, x: real, v: real, y: real)
    ensures Weight(c, Times(u, x), Times(v, y)) == Times(Times(u, v), Weight(c, x, y))
  {
    hide Times;
    TimesInterchanges(u, x, v, y);
    Outward(c as real, Times(u, v), Times(x, y));
  }

  lemma Outward(c: real, u: real, x: real)
    ensures Times(c, Times(u, x)) == Times(u, Times(c, x))
  {
  }

  lemma ScaledTermIsExactly(q: real, p: real, a: int, b: int, n: nat, k: nat)
    requires Shares(q, p, a, b)
    ensures ScaledTerm(a, b, n, k) == Times(Power(b as real, n), Exactly(q, p, n, k))
  {
    hide Times;
    var d := b as real;
    if k > n {
      ExactlyBeyond(q, p, n, k);
      TimesUnits(Power(d, n));
    } else {
      PowerOfProduct(d, q, k);
      PowerOfProduct(d, p, n - k);
      ExactlyIsBinomial(q, p, n, k);
      PowerAdds(d, k, n - k);
      WeightScales(Choose(n, k), Power(d, k), Power(q, k), Power(d, n - k), Power(p, n - k));
    }
  }

  lemma Distributes(s: real, x: real, y: real, xy: real)
    requires xy == x + y
    ensures Times(s, xy) == Times(s, x) + Times(s, y)
  {
  }

  lemma {:induction false} ScaledSumIsTail(q: real, p: real, a: int, b: int, n: nat, lo: nat, hi: nat)
    requires Shares(q, p, a, b)
    ensures ScaledSum(a, b, n, lo, hi) == Times(Power(b as real, n), Tail(q, p, n, lo, hi))
    decreases hi
  {
    hide Times;
    if lo < hi {
      ScaledSumIsTail(q, p, a, b, n, lo, hi - 1);
      ScaledTermIsExactly(q, p, a, b, n, hi - 1);
      Distributes(Power(b as real, n), Tail(q, p, n, lo, hi - 1), Exactly(q, p, n, hi - 1), Tail(q, p, n, lo, hi));
    } else {
      TimesUnits(Power(b as real, n));
    }
  }

  lemma Unscale(s: real, t: real, sum: real)
    requires s > 0.0 && sum == Times(s, t)
    ensures 2.0 * sum / s == 2.0 * t
  {
    assert 2.0 * sum == (2.0 * t) * s;
  }

  /** The scaled integer sum over b^n is the doubled race. */
  lemma CatchUpIsRace(a: int, b: int, z: nat)
    requires 0 < b && z > 0 && 2 * a < b
    ensures CatchUp(a, b, z) == 2.0 * Race(a as real / b as real, 1.0 - a as real / b as real, z, z)
  {
    hide Times;
    var q, p := SharesOf(a, b);
    var n := 2 * z - 1;
    PowerNonNegative(b as real, n);
    ScaledSumIsTail(q, p, a, b, n, z, 2 * z);
    TailIsRace(q, p, z, z);
    Unscale(Power(b as real, n), Tail(q, p, n, z, 2 * z), ScaledSum(a, b, n, z, 2 * z));
  }

  lemma NegativeBinomialIsRace(q: real, z: nat)
    requires z > 0 && 2.0 * q < 1.0
    ensures CatchUpNegativeBinomial(q, z) == 2.0 * Race(q, 1.0 - q, z, z)
  {
    hide Times;
    var p := 1.0 - q;
    DifferenceOfSums(q, p, z, z);
    WaitingSumIsRace(q, p, z, z);
    WaitingSumIsRace(p, q, z, z);
    RaceIsDecided(q, p, z, z);
  }

  /** The two formulas agree for every rational share and every depth. */
  lemma FormulasAgree(a: int, b: int, z: nat)
    requires 0 < b && z > 0
    ensures CatchUp(a, b, z) == CatchUpNegativeBinomial(a as real / b as real, z)
  {
    hide Times;
    var q, _ := SharesOf(a, b);
    if 2 * a < b {
      CatchUpIsRace(a, b, z);
      NegativeBinomialIsRace(q, z);
    }
  }

  // ---------- deeper is safer ----------

  lemma {:induction false} RaceNonNegative(q: real, p: real, mine: nat, theirs: nat)
    requires 0.0 <= q && 0.0 <= p
    ensures 0.0 <= Race(q, p, mine, theirs)
    decreases mine + theirs
  {
    hide Times;
    if mine > 0 && theirs > 0 {
      RaceNonNegative(q, p, mine - 1, theirs);
      RaceNonNegative(q, p, mine, theirs - 1);
      TimesPositive(q, Race(q, p, mine - 1, theirs));
      TimesPositive(p, Race(q, p, mine, theirs - 1));
    }
  }

  lemma TimesCommutes(x: real, y: real)
    ensures Times(x, y) == Times(y, x)
  {
  }

  lemma WaitingAtTie(q: real, p: real, z: nat)
    requires z > 0
    ensures Waiting(p, q, z, z) == Waiting(q, p, z, z)
    ensures 0.0 < q && 0.0 < p ==> Waiting(q, p, z, z) > 0.0
  {
    hide Times;
    TimesCommutes(Power(q, z), Power(p, z));
    if 0.0 < q && 0.0 < p {
      PowerNonNegative(q, z);
      PowerNonNegative(p, z);
      ChoosePositive(z + z - 1, z);
      TimesPositive(Power(q, z), Power(p, z));
      TimesPositive(Choose(z + z - 1, z) as real, Times(Power(q, z), Power(p, z)));
    }
  }

  lemma Spread(q: real, p: real, r: real, w: real, more: real, less: real)
    requires q + p == 1.0 && more == r + w && less == r - w
    ensures Either(q, more, p, less) == r - Times(p - q, w)
  {
    assert q * (r + w) == q * r + q * w;
    assert p * (r - w) == p * r - p * w;
    assert q * r + p * r == (q + p) * r;
    assert (p - q) * w == p * w - q * w;
  }

  /** One confirmation more changes the race by the chance of a tie, weighted by the honest lead. */
  lemma RaceStep(q: real, p: real, z: nat)
    requires z > 0 && q + p == 1.0
    ensures Race(q, p, z + 1, z + 1) == Race(q, p, z, z) - Times(p - q, Waiting(q, p, z, z))
  {
    hide Times;
    WaitingAtTie(q, p, z);
    WaitingSumIsRace(q, p, z, z);
    WaitingSumIsRace(q, p, z, z + 1);
    WaitingSumIsRace(p, q, z, z);
    WaitingSumIsRace(p, q, z, z + 1);
    RaceIsDecided(q, p, z, z);
    RaceIsDecided(q, p, z + 1, z);
    Spread(q, p, Race(q, p, z, z), Waiting(q, p, z, z), Race(q, p, z, z + 1), Race(q, p, z + 1, z));
  }

  lemma RaceFalls(q: real, p: real, z: nat)
    requires z > 0 && 0.0 < q < p && q + p == 1.0
    ensures Race(q, p, z + 1, z + 1) < Race(q, p, z, z)
  {
    hide Times;
    RaceStep(q, p, z);
    WaitingAtTie(q, p, z);
    TimesPositive(p - q, Waiting(q, p, z, z));
  }

  lemma {:induction false} RaceBelowHalf(q: real, p: real, z: nat)
    requires z > 0 && 0.0 < q < p && q + p == 1.0
    ensures 2.0 * Race(q, p, z, z) < 1.0
  {
    hide Times;
    if z == 1 {
      assert Race(q, p, 1, 1) == Either(q, Race(q, p, 0, 1), p, Race(q, p, 1, 0));
      TimesUnits(q);
      TimesUnits(p);
    } else {
      RaceBelowHalf(q, p, z - 1);
      RaceFalls(q, p, z - 1);
    }
  }

  /**
   Below a half the number is a proper chance and every extra confirmation strictly lowers it, so the first depth
   that meets a risk bound is followed only by depths that meet it.
   */
  lemma DeeperIsSafer(a: int, b: int, z: nat)
    requires 0 < a && 2 * a < b && z > 0
    ensures 0.0 <= CatchUp(a, b, z + 1) < CatchUp(a, b, z) < 1.0
  {
    hide Times;
    var q, p := SharesOf(a, b);
    CatchUpIsRace(a, b, z);
    CatchUpIsRace(a, b, z + 1);
    RaceFalls(q, p, z);
    RaceBelowHalf(q, p, z);
    RaceNonNegative(q, p, z + 1, z + 1);
  }
}
