/**
 What the catch-up number means, from the blocks themselves: the chance that an attacker with work share q, who starts
 level when a payment is made, is level again once z honest blocks lie on top of it or at any time after that. The
 number of blocks is not bounded, so this is a limit over how many are watched.
 */
module EventualCatchUp {
  import opened Binomial
  import opened CatchUpRace

  /** The chance of drawing level from so many blocks behind within the next n blocks. */
  function Level(q: real, p: real, n: nat, behind: nat): real {
    if behind == 0 then 1.0
    else if n == 0 then 0.0
    else Either(q, Level(q, p, n - 1, behind - 1), p, Level(q, p, n - 1, behind + 1))
  }

  /**
   The whole race block by block: until the honest blocks still missing are there the attacker makes up what they can,
   and then n more blocks are watched. An attacker who has them all first is level or ahead when the last honest one
   comes.
   */
  function Chance(q: real, p: real, n: nat, honest: nat, behind: nat): real
    decreases honest + behind
  {
    if behind == 0 || honest == 0 then Level(q, p, n, behind)
    else Either(q, Chance(q, p, n, honest, behind - 1), p, Chance(q, p, n, honest - 1, behind))
  }

  /** The same race if drawing level from behind has the chance r for every block to make up. */
  function Ever(q: real, p: real, r: real, honest: nat, behind: nat): real
    decreases honest + behind
  {
    if behind == 0 || honest == 0 then Power(r, behind)
    else Either(q, Ever(q, p, r, honest, behind - 1), p, Ever(q, p, r, honest - 1, behind))
  }

  // ---------- two chances mixed ----------

  lemma EitherOrdered(q: real, p: real, s: real, t: real, u: real, v: real)
    requires 0.0 <= q && 0.0 <= p && s <= u && t <= v
    ensures Either(q, s, p, t) <= Either(q, u, p, v)
  {
    TimesOrdered(q, s, u);
    TimesOrdered(p, t, v);
  }

  lemma TimesOrdered(x: real, s: real, t: real)
    requires 0.0 <= x && s <= t
    ensures Times(x, s) <= Times(x, t)
  {
    assert x * (t - s) >= 0.0;
  }

  lemma TimesReflects(x: real, s: real, t: real)
    requires 0.0 < x && Times(x, s) <= Times(x, t)
    ensures s <= t
  {
  }

  lemma EitherShifts(q: real, p: real, s: real, t: real, e: real)
    requires q + p == 1.0
    ensures Either(q, s - e, p, t - e) == Either(q, s, p, t) - e
  {
    assert q * (s - e) + p * (t - e) == q * s + p * t - (q + p) * e;
  }

  lemma EitherSame(q: real, p: real, x: real)
    requires q + p == 1.0
    ensures Either(q, x, p, x) == x
  {
    assert q * x + p * x == (q + p) * x;
  }

  lemma EitherScales(q: real, p: real, s: real, t: real, c: real)
    ensures Either(q, Times(s, c), p, Times(t, c)) == Times(Either(q, s, p, t), c)
  {
    assert q * (s * c) + p * (t * c) == (q * s + p * t) * c;
  }

  lemma EitherAdds(q: real, p: real, s: real, t: real, u: real, v: real)
    ensures Either(q, s + u, p, t + v) == Either(q, s, p, t) + Either(q, u, p, v)
  {
    assert q * (s + u) + p * (t + v) == (q * s + p * t) + (q * u + p * v);
  }

  predicate Shared(q: real, p: real) {
    0.0 <= q && 0.0 <= p && q + p == 1.0
  }

  lemma {:induction false} LevelIsChance(q: real, p: real, n: nat, behind: nat)
    requires Shared(q, p)
    ensures 0.0 <= Level(q, p, n, behind) <= 1.0
  {
    hide Either;
    if behind > 0 && n > 0 {
      LevelIsChance(q, p, n - 1, behind - 1);
      LevelIsChance(q, p, n - 1, behind + 1);
      var s, t := Level(q, p, n - 1, behind - 1), Level(q, p, n - 1, behind + 1);
      EitherSame(q, p, 0.0);
      EitherSame(q, p, 1.0);
      EitherOrdered(q, p, 0.0, 0.0, s, t);
      EitherOrdered(q, p, s, t, 1.0, 1.0);
    }
  }

  /** If drawing level comes within e of r for every block, so does the whole race. */
  lemma {:induction false} ChanceIsClose(q: real, p: real, r: real, n: nat, honest: nat, behind: nat, e: real)
    requires Shared(q, p)
    requires forall d: nat :: d <= behind ==> Power(r, d) - e <= Level(q, p, n, d) <= Power(r, d)
    ensures Ever(q, p, r, honest, behind) - e <= Chance(q, p, n, honest, behind) <= Ever(q, p, r, honest, behind)
    decreases honest + behind
  {
    hide Either, Level, Power;
    if behind > 0 && honest > 0 {
      ChanceIsClose(q, p, r, n, honest, behind - 1, e);
      ChanceIsClose(q, p, r, n, honest - 1, behind, e);
      var s, t := Ever(q, p, r, honest, behind - 1), Ever(q, p, r, honest - 1, behind);
      var u, v := Chance(q, p, n, honest, behind - 1), Chance(q, p, n, honest - 1, behind);
      EitherShifts(q, p, s, t, e);
      EitherOrdered(q, p, s - e, t - e, u, v);
      EitherOrdered(q, p, u, v, s, t);
    }
  }

  // ---------- powers that vanish ----------

  lemma Decay(x: real, n: nat, w: real)
    requires 0.0 <= x < 1.0 && 0.0 <= w && w * (1.0 + n as real * (1.0 - x)) <= 1.0
    ensures (x * w) * (1.0 + (n + 1) as real * (1.0 - x)) <= 1.0
  {
    var y, m := 1.0 - x, n as real;
    assert (n + 1) as real == m + 1.0;
    assert (1.0 - y) * (1.0 + (m + 1.0) * y) == 1.0 + m * y - (m + 1.0) * (y * y);
    assert (m + 1.0) * (y * y) >= 0.0;
    assert x * (1.0 + (m + 1.0) * y) <= 1.0 + m * y;
    assert (x * w) * (1.0 + (m + 1.0) * y) == w * (x * (1.0 + (m + 1.0) * y));
    assert w * (x * (1.0 + (m + 1.0) * y)) <= w * (1.0 + m * y);
  }

  lemma {:induction false} PowerDecays(x: real, n: nat)
    requires 0.0 <= x < 1.0
    ensures 0.0 <= Power(x, n) && Power(x, n) * (1.0 + n as real * (1.0 - x)) <= 1.0
  {
    PowerNonNegative(x, n);
    if n > 0 {
      PowerDecays(x, n - 1);
      Decay(x, n - 1, Power(x, n - 1));
    }
  }

  lemma Reciprocal(w: real, c: real, e: real)
    requires 0.0 <= w && 0.0 < e && 0.0 <= c && w * (1.0 + c) <= 1.0 <= c * e
    ensures w <= e
  {
    assert w * (1.0 + c) == w + c * w;
    TimesReflects(c, w, e);
  }

  lemma Enough(step: real, e: real) returns (enough: nat)
    requires 0.0 < step && 0.0 < e
    ensures 1.0 <= (enough as real * step) * e
  {
    var x := 1.0 / (step * e);
    enough := x.Floor + 1;
    assert (enough as real * step) * e == (step * e) * enough as real;
    TimesOrdered(step * e, x, enough as real);
  }

  lemma StillEnough(step: real, e: real, enough: nat, n: nat)
    requires 0.0 < step && 0.0 < e && 1.0 <= (enough as real * step) * e && n >= enough
    ensures 1.0 <= (n as real * step) * e
  {
    TimesOrdered(step * e, enough as real, n as real);
    assert (n as real * step) * e == (step * e) * n as real && (enough as real * step) * e == (step * e) * enough as real;
  }

  /** A power of less than one falls below every bound and stays there. */
  lemma PowerVanishes(x: real, e: real) returns (enough: nat)
    requires 0.0 <= x < 1.0 && 0.0 < e
    ensures forall n: nat :: n >= enough ==> 0.0 <= Power(x, n) <= e
  {
    hide Power;
    enough := Enough(1.0 - x, e);
    forall n: nat | n >= enough ensures 0.0 <= Power(x, n) <= e {
      PowerDecays(x, n);
      StillEnough(1.0 - x, e, enough, n);
      Reciprocal(Power(x, n), n as real * (1.0 - x), e);
    }
  }

  lemma {:induction false} PowerOrdered(r: real, s: real, n: nat)
    requires 0.0 <= r <= s
    ensures 0.0 <= Power(r, n) <= Power(s, n)
  {
    hide Times;
    PowerNonNegative(r, n);
    if n > 0 {
      PowerOrdered(r, s, n - 1);
      TimesOrdered(r, Power(r, n - 1), Power(s, n - 1));
      TimesGrows(r, s, Power(s, n - 1));
    }
  }

  lemma TimesGrows(r: real, s: real, w: real)
    requires r <= s && 0.0 <= w
    ensures Times(r, w) <= Times(s, w)
  {
    assert (s - r) * w >= 0.0;
  }

  lemma {:induction false} PowerOfOne(n: nat)
    ensures Power(1.0, n) == 1.0
  {
    if n > 0 { PowerOfOne(n - 1); }
  }

  // ---------- below a half: each block to make up costs a factor ----------

  /** The chance r for one block to make up that the next block does not change on average. */
  predicate Balances(q: real, p: real, r: real) {
    p * r == q
  }

  /** The next block damps the powers of s by x. */
  predicate Damps(q: real, p: real, s: real, x: real) {
    x * s == q + p * (s * s)
  }

  /** The factor of a chance that is the same before and after the next block. */
  lemma PowerIsMixed(q: real, p: real, s: real, x: real, d: nat)
    requires Damps(q, p, s, x) && d > 0
    ensures Either(q, Power(s, d - 1), p, Power(s, d + 1)) == Times(x, Power(s, d))
  {
    var w := Power(s, d - 1);
    assert Power(s, d + 1) == s * (s * w);
    assert q * w + p * (s * (s * w)) == (q + p * (s * s)) * w;
    assert (x * s) * w == x * (s * w);
  }

  lemma RuinIsMixed(q: real, p: real, r: real, d: nat)
    requires q + p == 1.0 && Balances(q, p, r) && d > 0
    ensures Either(q, Power(r, d - 1), p, Power(r, d + 1)) == Power(r, d)
  {
    assert p * (r * r) == (p * r) * r;
    assert p * r + q * r == (p + q) * r;
    PowerIsMixed(q, p, r, 1.0, d);
  }

  lemma {:induction false} LevelBelow(q: real, p: real, r: real, n: nat, behind: nat)
    requires Shared(q, p) && 0.0 <= r && Balances(q, p, r)
    ensures Level(q, p, n, behind) <= Power(r, behind)
  {
    hide Either;
    PowerNonNegative(r, behind);
    if behind > 0 && n > 0 {
      LevelBelow(q, p, r, n - 1, behind - 1);
      LevelBelow(q, p, r, n - 1, behind + 1);
      RuinIsMixed(q, p, r, behind);
      EitherOrdered(q, p, Level(q, p, n - 1, behind - 1), Level(q, p, n - 1, behind + 1),
                    Power(r, behind - 1), Power(r, behind + 1));
    }
  }

  /** What is still missing after n blocks is damped by x with every block. */
  lemma {:induction false} LevelClose(q: real, p: real, r: real, s: real, x: real, n: nat, behind: nat)
    requires Shared(q, p) && 0.0 <= r <= s && Balances(q, p, r) && 0.0 <= x && Damps(q, p, s, x)
    ensures Power(r, behind) <= Level(q, p, n, behind) + Times(Power(s, behind), Power(x, n))
  {
    hide Either, Times, Balances, Damps;
    PowerNonNegative(s, behind);
    PowerNonNegative(x, n);
    TimesPositive(Power(s, behind), Power(x, n));
    PowerOrdered(r, s, behind);
    if behind > 0 && n == 0 { TimesUnits(Power(s, behind)); }
    if behind > 0 && n > 0 {
      LevelClose(q, p, r, s, x, n - 1, behind - 1);
      LevelClose(q, p, r, s, x, n - 1, behind + 1);
      RuinIsMixed(q, p, r, behind);
      PowerIsMixed(q, p, s, x, behind);
      CloseStep(q, p, x, Power(r, behind - 1), Power(r, behind + 1), Level(q, p, n - 1, behind - 1),
                Level(q, p, n - 1, behind + 1), Power(s, behind - 1), Power(s, behind + 1), Power(s, behind), Power(x, n - 1));
    }
  }

  lemma CloseStep(q: real, p: real, x: real, a: real, b: real, u: real, v: real, f: real, g: real, h: real, w: real)
    requires 0.0 <= q && 0.0 <= p && a <= u + Times(f, w) && b <= v + Times(g, w) && Either(q, f, p, g) == Times(x, h)
    ensures Either(q, a, p, b) <= Either(q, u, p, v) + Times(h, Times(x, w))
  {
    hide Either, Times;
    EitherOrdered(q, p, a, b, u + Times(f, w), v + Times(g, w));
    EitherAdds(q, p, u, v, Times(f, w), Times(g, w));
    EitherScales(q, p, f, g, w);
    Regroup(x, h, w);
  }

  lemma Regroup(x: real, y: real, z: real)
    ensures Times(Times(x, y), z) == Times(y, Times(x, z))
  {
    assert (x * y) * z == y * (x * z);
  }

  /** Half way between r and one there is such an x, and it is less than one. */
  lemma Damping(q: real, p: real, r: real) returns (s: real, x: real)
    requires Shared(q, p) && 0.0 <= r < 1.0 && Balances(q, p, r)
    ensures r <= s <= 1.0 && 0.0 <= x < 1.0 && Damps(q, p, s, x)
  {
    s := (1.0 + r) / 2.0;
    var y := q + p * (s * s);
    assert s - y == p * ((1.0 - s) * (s - r)) by { Roots(q, p, r, s); }
    TimesPositive(1.0 - s, s - r);
    assert p > 0.0;
    TimesPositive(p, (1.0 - s) * (s - r));
    TimesPositive(s, s);
    TimesPositive(p, s * s);
    x := y / s;
    Quotients(y, s);
  }

  lemma Quotients(y: real, s: real)
    requires 0.0 <= y < s
    ensures 0.0 <= y / s < 1.0 && (y / s) * s == y
  {
  }

  lemma Roots(q: real, p: real, r: real, s: real)
    requires q + p == 1.0 && Balances(q, p, r)
    ensures s - (q + p * (s * s)) == p * ((1.0 - s) * (s - r))
  {
    assert p * ((1.0 - s) * (s - r)) == p * s - p * r - p * (s * s) + (p * r) * s;
    assert p * s + q * s == (p + q) * s;
  }

  lemma LevelTendsBelow(q: real, p: real, r: real, e: real) returns (enough: nat)
    requires Shared(q, p) && 0.0 <= r < 1.0 && Balances(q, p, r) && 0.0 < e
    ensures forall n: nat, d: nat :: n >= enough ==> Power(r, d) - e <= Level(q, p, n, d) <= Power(r, d)
  {
    var s, x := Damping(q, p, r);
    enough := PowerVanishes(x, e);
    forall n: nat, d: nat | n >= enough ensures Power(r, d) - e <= Level(q, p, n, d) <= Power(r, d) {
      LevelBelow(q, p, r, n, d);
      LevelClose(q, p, r, s, x, n, d);
      PowerOrdered(s, 1.0, d);
      PowerOfOne(d);
      TimesGrows(Power(s, d), 1.0, Power(x, n));
      TimesUnits(Power(x, n));
    }
  }

  // ---------- from a half on: nobody stays ahead for ever ----------

  lemma {:induction false} LevelFalls(q: real, p: real, n: nat, behind: nat)
    requires Shared(q, p)
    ensures Level(q, p, n, behind + 1) <= Level(q, p, n, behind)
  {
    hide Either;
    LevelIsChance(q, p, n, behind + 1);
    if behind > 0 && n > 0 {
      LevelFalls(q, p, n - 1, behind - 1);
      LevelFalls(q, p, n - 1, behind + 1);
      LevelFalls(q, p, n - 1, behind);
      EitherOrdered(q, p, Level(q, p, n - 1, behind), Level(q, p, n - 1, behind + 2),
                    Level(q, p, n - 1, behind - 1), Level(q, p, n - 1, behind + 1));
    }
  }

  lemma MoreIsBetter(q: real, p: real, s: real, t: real)
    requires q + p == 1.0 && q >= p && t <= s
    ensures Either(0.5, s, 0.5, t) <= Either(q, s, p, t)
  {
    assert (q - 0.5) * (s - t) >= 0.0;
    assert p == 1.0 - q;
    assert q * s + (1.0 - q) * t - (0.5 * s + 0.5 * t) == (q - 0.5) * (s - t);
  }

  /** A larger share draws level at least as surely as half of the work. */
  lemma {:induction false} HalfIsLess(q: real, p: real, n: nat, behind: nat)
    requires Shared(q, p) && q >= p
    ensures Level(0.5, 0.5, n, behind) <= Level(q, p, n, behind)
  {
    hide Either;
    if behind > 0 && n > 0 {
      HalfIsLess(q, p, n - 1, behind - 1);
      HalfIsLess(q, p, n - 1, behind + 1);
      LevelFalls(q, p, n - 1, behind - 1);
      LevelFalls(q, p, n - 1, behind);
      var s, t := Level(q, p, n - 1, behind - 1), Level(q, p, n - 1, behind + 1);
      EitherOrdered(0.5, 0.5, Level(0.5, 0.5, n - 1, behind - 1), Level(0.5, 0.5, n - 1, behind + 1), s, t);
      MoreIsBetter(q, p, s, t);
    }
  }

  /** A potential that every block lowers on average, while the attacker is less than m blocks behind. */
  function Potential(u: real, d: real): real {
    2.0 - (d * u) * (d * u)
  }

  lemma PotentialFalls(u: real, d: real, x: real)
    requires x == 1.0 - u * u / 2.0
    ensures Either(0.5, Potential(u, d - 1.0), 0.5, Potential(u, d + 1.0)) <= Times(x, Potential(u, d))
  {
    var y := d * u;
    assert (d - 1.0) * u == y - u && (d + 1.0) * u == y + u;
    assert (y - u) * (y - u) + (y + u) * (y + u) == 2.0 * (y * y) + 2.0 * (u * u);
    HalfOf(Potential(u, d - 1.0), Potential(u, d + 1.0));
    Squares(u * u, y * y);
  }

  lemma Squares(v: real, w: real)
    requires 0.0 <= v && 0.0 <= w
    ensures 2.0 - w - v <= (1.0 - v / 2.0) * (2.0 - w)
  {
    assert (1.0 - v / 2.0) * (2.0 - w) == 2.0 - w - v + v / 2.0 * w;
    assert v / 2.0 * w >= 0.0;
  }

  lemma HalfOf(s: real, t: real)
    ensures Either(0.5, s, 0.5, t) == s / 2.0 + t / 2.0
  {
  }

  lemma PotentialIsLarge(u: real, d: real)
    requires 0.0 <= d * u <= 1.0
    ensures 1.0 <= Potential(u, d) <= 2.0
  {
    TimesOrdered(d * u, d * u, 1.0);
    TimesPositive(d * u, d * u);
  }

  lemma Fraction(d: nat, m: nat)
    requires d <= m && 0 < m
    ensures 0.0 <= d as real * (1.0 / m as real) <= 1.0
    ensures d == m ==> d as real * (1.0 / m as real) == 1.0
  {
    TimesOrdered(1.0 / m as real, d as real, m as real);
    assert m as real * (1.0 / m as real) == 1.0;
  }

  /** The steps of the potential for a distance of m, and the factor it falls by. */
  predicate Stepped(m: nat, u: real, x: real) {
    0 < m && u == 1.0 / m as real && x == 1.0 - u * u / 2.0
  }

  lemma SteppedIsSmall(m: nat, u: real, x: real)
    requires Stepped(m, u, x)
    ensures 0.0 < u <= 1.0 && 0.0 <= x < 1.0 && x == 1.0 - u * u / 2.0
  {
    Fraction(1, m);
    TimesOrdered(u, u, 1.0);
    TimesPositive(u, u);
  }

  /** With half of the work, what is missing after n blocks. */
  lemma {:induction false} HalfClose(m: nat, u: real, x: real, n: nat, behind: nat)
    requires behind <= m && Stepped(m, u, x)
    ensures 1.0 - Level(0.5, 0.5, n, behind) <= Times(behind as real, u) + Times(Potential(u, behind as real), Power(x, n))
  {
    SteppedIsSmall(m, u, x);
    var d := behind as real;
    Fraction(behind, m);
    PotentialIsLarge(u, d);
    hide Stepped;
    PowerNonNegative(x, n);
    TimesPositive(Potential(u, d), Power(x, n));
    LevelIsChance(0.5, 0.5, n, behind);
    assert behind == m ==> Times(d, u) == 1.0;
    assert 0.0 <= Times(d, u);
    hide Either, Potential, Times;
    if n == 0 { TimesUnits(Potential(u, d)); }
    if 0 < behind < m && n > 0 {
      HalfClose(m, u, x, n - 1, behind - 1);
      HalfClose(m, u, x, n - 1, behind + 1);
      PowerNonNegative(x, n - 1);
      HalfStep(u, d, x, Power(x, n - 1), Level(0.5, 0.5, n - 1, behind - 1), Level(0.5, 0.5, n - 1, behind + 1));
    }
  }

  lemma HalfStep(u: real, d: real, x: real, w: real, s: real, t: real)
    requires 0.0 <= u && 0.0 <= w && x == 1.0 - u * u / 2.0
    requires 1.0 - s <= Times(d - 1.0, u) + Times(Potential(u, d - 1.0), w)
    requires 1.0 - t <= Times(d + 1.0, u) + Times(Potential(u, d + 1.0), w)
    ensures 1.0 - Either(0.5, s, 0.5, t) <= Times(d, u) + Times(Potential(u, d), Times(x, w))
  {
    hide Potential, Times, Either;
    var f, g, h := Potential(u, d - 1.0), Potential(u, d + 1.0), Potential(u, d);
    PotentialFalls(u, d, x);
    MixedStep(u, d, x, w, s, t, f, g, h);
  }

  lemma MixedStep(u: real, d: real, x: real, w: real, s: real, t: real, f: real, g: real, h: real)
    requires 0.0 <= w && Either(0.5, f, 0.5, g) <= Times(x, h)
    requires 1.0 - s <= Times(d - 1.0, u) + Times(f, w) && 1.0 - t <= Times(d + 1.0, u) + Times(g, w)
    ensures 1.0 - Either(0.5, s, 0.5, t) <= Times(d, u) + Times(h, Times(x, w))
  {
    hide Times, Either;
    HalfOf(d - 1.0, d + 1.0);
    HalfOf(s, t);
    HalfOf(1.0 - s, 1.0 - t);
    EitherOrdered(0.5, 0.5, 1.0 - s, 1.0 - t, Times(d - 1.0, u) + Times(f, w), Times(d + 1.0, u) + Times(g, w));
    EitherAdds(0.5, 0.5, Times(d - 1.0, u), Times(d + 1.0, u), Times(f, w), Times(g, w));
    EitherScales(0.5, 0.5, d - 1.0, d + 1.0, u);
    EitherScales(0.5, 0.5, f, g, w);
    TimesGrows(Either(0.5, f, 0.5, g), Times(x, h), w);
    Regroup(x, h, w);
  }

  /** A distance so long that starting z behind is within e of its near end. */
  lemma LongDistance(z: nat, e: real) returns (m: nat, u: real, x: real)
    requires 0.0 < e
    ensures Stepped(m, u, x) && z <= m && Times(z as real, u) <= e
  {
    var ratio := z as real / e;
    m := ratio.Floor + z + 1;
    u := 1.0 / m as real;
    x := 1.0 - u * u / 2.0;
    assert ratio <= m as real;
    assert ratio * e == z as real;
    TimesOrdered(e, ratio, m as real);
    assert z as real <= m as real * e;
    SteppedIsSmall(m, u, x);
    TimesGrows(z as real, m as real * e, u);
    assert (m as real * e) * u == e * (m as real * u);
    assert m as real * u == 1.0;
  }

  lemma LevelTendsFromHalf(q: real, p: real, z: nat, e: real) returns (enough: nat)
    requires Shared(q, p) && q >= p && 0.0 < e
    ensures forall n: nat, d: nat :: n >= enough && d <= z ==> 1.0 - e <= Level(q, p, n, d) <= 1.0
  {
    hide Times, Stepped;
    var m, u, x := LongDistance(z, e / 2.0);
    SteppedIsSmall(m, u, x);
    enough := PowerVanishes(x, e / 4.0);
    forall n: nat, d: nat | n >= enough && d <= z ensures 1.0 - e <= Level(q, p, n, d) <= 1.0 {
      LevelIsChance(q, p, n, d);
      HalfIsLess(q, p, n, d);
      HalfClose(m, u, x, n, d);
      TimesGrows(d as real, z as real, u);
      DistanceIsLarge(m, u, x, d);
      TimesGrows(Potential(u, d as real), 2.0, Power(x, n));
      Doubles(Power(x, n));
    }
  }

  lemma DistanceIsLarge(m: nat, u: real, x: real, d: nat)
    requires Stepped(m, u, x) && d <= m
    ensures Potential(u, d as real) <= 2.0
  {
    Fraction(d, m);
    PotentialIsLarge(u, d as real);
  }

  lemma Doubles(w: real)
    ensures Times(2.0, w) == 2.0 * w
  {
  }

  // ---------- the number of the script ----------

  /** The part of the race in which the honest blocks are there first and the rest is made up later. */
  function Rest(q: real, p: real, r: real, honest: nat, behind: nat): real
    decreases honest + behind
  {
    if behind == 0 then 0.0
    else if honest == 0 then Power(r, behind)
    else Either(q, Rest(q, p, r, honest, behind - 1), p, Rest(q, p, r, honest - 1, behind))
  }

  lemma {:induction false} EverSplits(q: real, p: real, r: real, honest: nat, behind: nat)
    ensures Ever(q, p, r, honest, behind) == Race(q, p, behind, honest) + Rest(q, p, r, honest, behind)
    decreases honest + behind
  {
    hide Either;
    if honest > 0 && behind > 0 {
      EverSplits(q, p, r, honest, behind - 1);
      EverSplits(q, p, r, honest - 1, behind);
      EitherAdds(q, p, Race(q, p, behind - 1, honest), Race(q, p, behind, honest - 1),
                 Rest(q, p, r, honest, behind - 1), Rest(q, p, r, honest - 1, behind));
    }
  }

  lemma TiltStep(q: real, p: real, r: real, x: real, y: real, a: real, b: real, c: real, d: real)
    requires Balances(q, p, r) && Times(Times(r, x), a) == Times(y, c) && Times(x, b) == Times(Times(r, y), d)
    ensures Times(Times(r, x), Either(q, a, p, b)) == Times(Times(r, y), Either(q, d, p, c))
  {
    assert (r * x) * (q * a + p * b) == q * ((r * x) * a) + (p * r) * (x * b);
    assert (r * y) * (q * d + p * c) == q * ((r * y) * d) + (p * r) * (y * c);
  }

  /** Weighing every path by r turns the rest into the race with the two shares exchanged. */
  lemma {:induction false} RestTilts(q: real, p: real, r: real, honest: nat, behind: nat)
    requires Balances(q, p, r) && honest + behind > 0
    ensures Times(Power(r, honest), Rest(q, p, r, honest, behind)) == Times(Power(r, behind), Race(q, p, honest, behind))
    decreases honest + behind
  {
    hide Either, Times, Balances;
    if behind == 0 {
      TimesUnits(Power(r, honest));
      TimesUnits(Power(r, behind));
    } else if honest == 0 {
      TimesUnits(Power(r, behind));
    } else {
      RestTilts(q, p, r, honest, behind - 1);
      RestTilts(q, p, r, honest - 1, behind);
      TiltStep(q, p, r, Power(r, honest - 1), Power(r, behind - 1), Rest(q, p, r, honest, behind - 1),
               Rest(q, p, r, honest - 1, behind), Race(q, p, honest, behind - 1), Race(q, p, honest - 1, behind));
    }
  }

  lemma {:induction false} NothingWithoutWork(honest: nat, behind: nat)
    requires behind > 0
    ensures Rest(0.0, 1.0, 0.0, honest, behind) == 0.0 && Race(0.0, 1.0, behind, honest) == 0.0
    decreases honest + behind
  {
    if honest > 0 { NothingWithoutWork(honest - 1, behind); }
  }

  /** Both halves of the race count the same: first to z, or later level. */
  lemma EverIsTwiceRace(q: real, p: real, r: real, z: nat)
    requires q + p == 1.0 && Balances(q, p, r) && 0.0 <= r && z > 0
    ensures Ever(q, p, r, z, z) == 2.0 * Race(q, p, z, z)
  {
    EverSplits(q, p, r, z, z);
    if r == 0.0 {
      NothingWithoutWork(z, z);
    } else {
      RestTilts(q, p, r, z, z);
      PowerNonNegative(r, z);
      Cancels(Power(r, z), Rest(q, p, r, z, z), Race(q, p, z, z));
    }
  }

  lemma Cancels(w: real, x: real, y: real)
    requires w > 0.0 && Times(w, x) == Times(w, y)
    ensures x == y
  {
  }

  lemma {:induction false} EverIsSure(q: real, p: real, honest: nat, behind: nat)
    requires q + p == 1.0
    ensures Ever(q, p, 1.0, honest, behind) == 1.0
    decreases honest + behind
  {
    hide Either;
    PowerOfOne(behind);
    if honest > 0 && behind > 0 {
      EverIsSure(q, p, honest, behind - 1);
      EverIsSure(q, p, honest - 1, behind);
      EitherSame(q, p, 1.0);
    }
  }

  lemma FairShares(a: int, b: int, q: real, p: real)
    requires 0 <= a <= b && 0 < b && q == a as real / b as real && p == 1.0 - q
    ensures Shared(q, p) && (2 * a < b <==> q < p)
  {
    var f, g := SharesOf(a, b);
    Fraction(a, b);
    assert a as real / b as real == a as real * (1.0 / b as real);
  }

  /**
   For every share and every depth the script's number is the chance of ever being level: watching n blocks after the
   z-th never exceeds it, and comes as close to it as one likes.
   */
  lemma CatchUpIsEventual(a: int, b: int, q: real, p: real, z: nat, e: real) returns (enough: nat)
    requires 0 <= a <= b && 0 < b && q == a as real / b as real && p == 1.0 - q && z > 0 && 0.0 < e
    ensures forall n: nat :: n >= enough ==> CatchUp(a, b, z) - e <= Chance(q, p, n, z, z) <= CatchUp(a, b, z)
  {
    hide Chance, Ever, Level, Power, CatchUp, Race;
    FairShares(a, b, q, p);
    var r := if q < p then q / p else 1.0;
    if q < p {
      assert Balances(q, p, r) && 0.0 <= r < 1.0 by { Quotients(q, p); }
      enough := LevelTendsBelow(q, p, r, e);
      CatchUpIsRace(a, b, z);
      EverIsTwiceRace(q, p, r, z);
    } else {
      enough := LevelTendsFromHalf(q, p, z, e);
      EverIsSure(q, p, z, z);
      assert CatchUp(a, b, z) == 1.0 by { SureCatchUp(a, b, z); }
    }
    forall n: nat | n >= enough ensures CatchUp(a, b, z) - e <= Chance(q, p, n, z, z) <= CatchUp(a, b, z) {
      forall d: nat | d <= z ensures Power(r, d) - e <= Level(q, p, n, d) <= Power(r, d) { PowerOfOne(d); }
      ChanceIsClose(q, p, r, n, z, z, e);
    }
  }

  lemma SureCatchUp(a: int, b: int, z: nat)
    requires 0 < b && z > 0 && 2 * a >= b
    ensures CatchUp(a, b, z) == 1.0
  {
  }

  // ---------- how deep is deep enough ----------

  lemma HalfEach(q: real, p: real, x: real, y: real)
    ensures Either(q, Times(x, Times(2.0 * p, y)), p, Times(Times(2.0 * q, x), y))
            == Times(Times(2.0 * q, x), Times(2.0 * p, y))
  {
    assert q * (x * ((2.0 * p) * y)) + p * (((2.0 * q) * x) * y) == 4.0 * (q * p * (x * y));
    assert ((2.0 * q) * x) * ((2.0 * p) * y) == 4.0 * (q * p * (x * y));
  }

  /** The race to so many blocks is no likelier than a power of twice the share for each of them. */
  lemma {:induction false} RaceBounded(q: real, p: real, mine: nat, theirs: nat)
    requires 0.0 <= q && 0.5 <= p
    ensures 0.0 <= Race(q, p, mine, theirs) <= Times(Power(2.0 * q, mine), Power(2.0 * p, theirs))
    decreases mine + theirs
  {
    hide Either, Times;
    PowerNonNegative(2.0 * q, mine);
    PowerNonNegative(2.0 * p, theirs);
    TimesPositive(Power(2.0 * q, mine), Power(2.0 * p, theirs));
    if mine == 0 {
      PowerOrdered(1.0, 2.0 * p, theirs);
      PowerOfOne(theirs);
      TimesUnits(Power(2.0 * p, theirs));
    } else if theirs > 0 {
      RaceBounded(q, p, mine - 1, theirs);
      RaceBounded(q, p, mine, theirs - 1);
      var s, t := Race(q, p, mine - 1, theirs), Race(q, p, mine, theirs - 1);
      var x, y := Power(2.0 * q, mine - 1), Power(2.0 * p, theirs - 1);
      EitherZero(q, p);
      EitherOrdered(q, p, 0.0, 0.0, s, t);
      EitherOrdered(q, p, s, t, Times(x, Power(2.0 * p, theirs)), Times(Power(2.0 * q, mine), y));
      HalfEach(q, p, x, y);
    }
  }

  lemma EitherZero(q: real, p: real)
    ensures Either(q, 0.0, p, 0.0) == 0.0
  {
  }

  lemma BelowOne(q: real, p: real)
    requires 0.0 <= q < p && q + p == 1.0
    ensures 0.0 <= Times(2.0 * q, 2.0 * p) < 1.0
  {
    assert (2.0 * q) * (2.0 * p) == (q + p) * (q + p) - (p - q) * (p - q);
    assert (q + p) * (q + p) == 1.0;
    TimesPositive(p - q, p - q);
    TimesPositive(2.0 * q, 2.0 * p);
  }

  /** Below half of the work every risk, however small, is met from some depth on. */
  lemma DeepEnough(a: int, b: int, e: real) returns (depth: nat)
    requires 0 <= a && 2 * a < b && 0.0 < e
    ensures depth > 0 && forall z: nat :: z >= depth ==> 0.0 <= CatchUp(a, b, z) <= e
  {
    hide CatchUp, Race, Power, Times;
    var q, p := SharesOf(a, b);
    FairShares(a, b, q, p);
    BelowOne(q, p);
    var enough := PowerVanishes(Times(2.0 * q, 2.0 * p), e / 2.0);
    depth := enough + 1;
    forall z: nat | z >= depth ensures 0.0 <= CatchUp(a, b, z) <= e {
      CatchUpIsRace(a, b, z);
      RaceBounded(q, p, z, z);
      PowerOfProduct(2.0 * q, 2.0 * p, z);
    }
  }
}
