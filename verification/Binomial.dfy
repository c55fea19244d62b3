/** Binomial coefficients and powers, shared by the R-149 calculations. */
module Binomial {
  /** math.comb: zero when more are chosen than there are. */
  function Choose(n: nat, k: nat): nat {
    if k == 0 then 1
    else if n == 0 then 0
    else Choose(n - 1, k - 1) + Choose(n - 1, k)
  }

  lemma {:induction false} ChooseBeyond(n: nat, k: nat)
    requires k > n
    ensures Choose(n, k) == 0
  {
    if n > 0 {
      ChooseBeyond(n - 1, k - 1);
      ChooseBeyond(n - 1, k);
    }
  }

  lemma {:induction false} ChooseAll(n: nat)
    ensures Choose(n, n) == 1
  {
    if n > 0 {
      ChooseAll(n - 1);
      ChooseBeyond(n - 1, n);
    }
  }

  lemma {:induction false} ChooseSymmetric(a: nat, b: nat)
    ensures Choose(a + b, a) == Choose(a + b, b)
  {
    if a == 0 {
      ChooseAll(b);
    } else if b == 0 {
      ChooseAll(a);
    } else {
      ChooseSymmetric(a - 1, b);
      ChooseSymmetric(a, b - 1);
    }
  }

  /** Multiplication under a name, so that proofs about sums and recursions can leave it closed. */
  function Times(x: real, y: real): real {
    x * y
  }

  function Power(x: real, n: nat): real {
    if n == 0 then 1.0 else Times(x, Power(x, n - 1))
  }

  lemma TimesAssociates(x: real, y: real, z: real)
    ensures Times(x, Times(y, z)) == Times(Times(x, y), z)
  {
  }

  lemma TimesInterchanges(x: real, y: real, u: real, v: real)
    ensures Times(Times(x, y), Times(u, v)) == Times(Times(x, u), Times(y, v))
  {
    assert (x * y) * (u * v) == (x * u) * (y * v);
  }

  lemma TimesUnits(x: real)
    ensures Times(1.0, x) == x == Times(x, 1.0)
    ensures Times(0.0, x) == 0.0 == Times(x, 0.0)
  {
  }

  lemma TimesPositive(x: real, y: real)
    requires 0.0 <= x && 0.0 <= y
    ensures 0.0 <= Times(x, y)
    ensures 0.0 < x && 0.0 < y ==> 0.0 < Times(x, y)
  {
  }

  lemma {:induction false} PowerAdds(x: real, m: nat, n: nat)
    ensures Power(x, m + n) == Times(Power(x, m), Power(x, n))
  {
    hide Times;
    if m == 0 {
      TimesUnits(Power(x, n));
    } else {
      PowerAdds(x, m - 1, n);
      TimesAssociates(x, Power(x, m - 1), Power(x, n));
    }
  }

  lemma {:induction false} PowerOfProduct(x: real, y: real, n: nat)
    ensures Power(Times(x, y), n) == Times(Power(x, n), Power(y, n))
  {
    hide Times;
    if n == 0 {
      TimesUnits(1.0);
    } else {
      PowerOfProduct(x, y, n - 1);
      TimesInterchanges(x, y, Power(x, n - 1), Power(y, n - 1));
    }
  }

  lemma {:induction false} PowerNonNegative(x: real, n: nat)
    requires 0.0 <= x
    ensures 0.0 <= Power(x, n)
    ensures 0.0 < x ==> 0.0 < Power(x, n)
  {
    hide Times;
    if n > 0 {
      PowerNonNegative(x, n - 1);
      TimesPositive(x, Power(x, n - 1));
    }
  }

  lemma {:induction false} ChoosePositive(n: nat, k: nat)
    requires k <= n
    ensures Choose(n, k) > 0
  {
    if 0 < k { ChoosePositive(n - 1, k - 1); }
  }
}
