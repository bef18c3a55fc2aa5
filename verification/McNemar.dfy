/** The exact McNemar tail, over exact reals, against the binomial coefficients it sums. */
module McNemar {

  /** How many of the `2^n` sign patterns of length `n` have exactly `k` positive signs. */
  function Choose(n: nat, k: int): nat {
    if k < 0 || k > n then 0 else if n == 0 then 1 else Choose(n - 1, k - 1) + Choose(n - 1, k)
  }

  function Pow2(n: nat): nat { if n == 0 then 1 else 2 * Pow2(n - 1) }

  /** How many of them have at most `m`. */
  function AtMost(n: nat, m: int): nat { if m < 0 then 0 else AtMost(n, m - 1) + Choose(n, m) }

  function Min(a: int, b: int): int { if a < b then a else b }

  /** The two-sided exact p-value: twice the chance, among equally likely signs, of a count as small as the smaller one. */
  function PValue(n01: nat, n10: nat): real {
    var twice := 2.0 * AtMost(n01 + n10, Min(n01, n10)) as real / Pow2Real(n01 + n10);
    if twice < 1.0 then twice else 1.0
  }

  function Pow2Real(n: nat): (r: real)
    ensures r > 0.0
  { Pow2Positive(n); Pow2(n) as real }

  lemma {:induction false} Pow2Positive(n: nat)
    ensures Pow2(n) >= 1
  { if n > 0 { Pow2Positive(n - 1); } }

  // ---- binomial coefficients -------------------------------------------------------------------------------------------

  lemma {:induction false} Absorb(n: nat, k: nat)
    requires 1 <= k <= n
    ensures Choose(n, k) * k == Choose(n, k - 1) * (n - k + 1)
  {
    if n > 1 {
      var a, b, c := Choose(n - 1, k - 2), Choose(n - 1, k - 1), Choose(n - 1, k);
      assert Choose(n, k) == b + c && Choose(n, k - 1) == a + b;
      if k < n { Absorb(n - 1, k); assert c * k == b * (n - k); } else { assert c == 0; assert c * k == b * (n - k); }
      if k > 1 { Absorb(n - 1, k - 1); assert b * (k - 1) == a * (n - k + 1); } else { assert a == 0; assert b * (k - 1) == a * (n - k + 1); }
      Combine(a, b, c, n, k);
    }
  }

  lemma Combine(a: int, b: int, c: int, n: int, k: int)
    requires c * k == b * (n - k) && b * (k - 1) == a * (n - k + 1)
    ensures (b + c) * k == (a + b) * (n - k + 1)
  {
    calc {
      (b + c) * k;
      b * (k - 1) + b + c * k;
      a * (n - k + 1) + b + b * (n - k);
      a * (n - k + 1) + b * (n - k + 1);
      (a + b) * (n - k + 1);
    }
  }

  lemma {:induction false} Symmetric(n: nat, k: int)
    ensures Choose(n, k) == Choose(n, n - k)
  {
    if n > 0 && 0 <= k <= n {
      Symmetric(n - 1, k - 1);
      Symmetric(n - 1, k);
    }
  }

  lemma {:induction false} RowSum(n: nat, m: int)
    ensures n > 0 ==> AtMost(n, m) == AtMost(n - 1, m) + AtMost(n - 1, m - 1)
    decreases m + 1
  {
    if m >= 0 && n > 0 { RowSum(n, m - 1); Pascal(n, m); }
  }

  lemma Pascal(n: nat, k: int)
    requires n > 0
    ensures Choose(n, k) == Choose(n - 1, k - 1) + Choose(n - 1, k)
  {}

  lemma {:induction false} WholeRow(n: nat, m: int)
    requires m >= n
    ensures AtMost(n, m) == Pow2(n)
    decreases n, m
  {
    if m > n {
      WholeRow(n, m - 1);
    } else if n > 0 {
      RowSum(n, n);
      WholeRow(n - 1, n);
      WholeRow(n - 1, n - 1);
    } else {
      assert AtMost(0, -1) == 0;
    }
  }

  /** At most `m` positive signs, or at most `n - 1 - m` negative ones: every pattern, once. */
  lemma {:induction false} Complement(n: nat, m: int)
    requires -1 <= m <= n
    ensures AtMost(n, m) + AtMost(n, n - 1 - m) == Pow2(n)
    decreases m + 1
  {
    if m == -1 {
      WholeRow(n, n);
    } else {
      Complement(n, m - 1);
      Symmetric(n, m);
      assert AtMost(n, n - m) == AtMost(n, n - 1 - m) + Choose(n, n - m);
    }
  }

  lemma {:induction false} AtMostGrows(n: nat, m: int, l: int)
    requires m <= l
    ensures AtMost(n, m) <= AtMost(n, l)
    ensures 0 <= m < l && l <= n ==> AtMost(n, m) < AtMost(n, l)
    decreases l - m
  {
    if m < l {
      AtMostGrows(n, m, l - 1);
      if 0 <= l <= n { ChoosePositive(n, l); }
    }
  }

  lemma {:induction false} ChoosePositive(n: nat, k: int)
    requires 0 <= k <= n
    ensures Choose(n, k) >= 1
  {
    if n > 0 { if k < n { ChoosePositive(n - 1, k); } else { ChoosePositive(n - 1, k - 1); } }
  }

  // ---- the p-value -------------------------------------------------------------------------------------------------------

  /** It lies above 0 and at most at 1, does not depend on which arm is called which, and is 1 exactly when the counts differ by at most one. */
  lemma PValueProperties(n01: nat, n10: nat)
    ensures 0.0 < PValue(n01, n10) <= 1.0
    ensures PValue(n01, n10) == PValue(n10, n01)
    ensures PValue(n01, n10) == 1.0 <==> -1 <= n01 - n10 <= 1
  {
    var d, m := n01 + n10, Min(n01, n10);
    assert AtMost(d, 0) == Choose(d, 0);
    ChoosePositive(d, 0);
    AtMostGrows(d, 0, m);
    Complement(d, m);
    if m <= d - 1 - m { AtMostGrows(d, m, d - 1 - m); } else { AtMostGrows(d, d - 1 - m, m); }
    TwiceAtLeast(AtMost(d, m), Pow2(d));
    Pow2Positive(d);
    hide AtMost, Choose, Pow2;
  }

  lemma TwiceAtLeast(a: nat, p: nat)
    requires p >= 1
    ensures a >= 1 ==> 2.0 * a as real / p as real > 0.0
    ensures 2.0 * a as real / p as real >= 1.0 <==> 2 * a >= p
  {
    var q := 2.0 * a as real / p as real;
    assert q * p as real == 2.0 * a as real;
    if q >= 1.0 { assert q * p as real >= p as real; }
    if q < 1.0 { assert q * p as real < p as real; }
    if q <= 0.0 { assert q * p as real <= 0.0; }
  }

  function Term(n: nat, k: int): real { Choose(n, k) as real / Pow2Real(n) }
  function Tail(n: nat, k: int): real { AtMost(n, k) as real / Pow2Real(n) }

  /** The loop that computes it: each term from the one before. */
  method ExactP(n01: nat, n10: nat) returns (p: real)
    ensures p == PValue(n01, n10)
  {
    hide Term, Choose, AtMost, Pow2Real;
    var discordant := n01 + n10;
    Beginning(discordant);
    var probability := 1.0 / Pow2Real(discordant);
    var tail := probability;
    var k := 1;
    while k <= Min(n01, n10)
      invariant 1 <= k <= Min(n01, n10) + 1
      invariant probability == Term(discordant, k - 1) && tail == Tail(discordant, k - 1)
    {
      NextTerm(discordant, k);
      probability := probability * ((discordant - k + 1) as real / k as real);
      tail := tail + probability;
      k := k + 1;
    }
    Doubled(AtMost(discordant, Min(n01, n10)) as real, Pow2Real(discordant));
    p := if 2.0 * tail < 1.0 then 2.0 * tail else 1.0;
  }

  lemma Doubled(a: real, p: real)
    requires p > 0.0
    ensures 2.0 * (a / p) == 2.0 * a / p
  {}

  lemma Beginning(n: nat)
    ensures Term(n, 0) == 1.0 / Pow2Real(n) == Tail(n, 0)
  {
    First(n);
  }

  lemma First(n: nat)
    ensures Choose(n, 0) == 1 && AtMost(n, 0) == 1
  {
    FirstOne(n);
    assert AtMost(n, -1) == 0;
  }

  lemma {:induction false} FirstOne(n: nat)
    ensures Choose(n, 0) == 1
  { if n > 0 { FirstOne(n - 1); } }

  lemma NextTerm(n: nat, k: nat)
    requires 1 <= k <= n
    ensures Term(n, k - 1) * ((n - k + 1) as real / k as real) == Term(n, k)
    ensures Tail(n, k - 1) + Term(n, k) == Tail(n, k)
  {
    Absorb(n, k);
    Scale(Choose(n, k - 1), Choose(n, k), n - k + 1, k, Pow2Real(n));
    SumTerms(AtMost(n, k - 1) as real, Choose(n, k) as real, Pow2Real(n));
  }

  lemma Scale(a: int, b: int, m: int, k: int, p: real)
    requires k > 0 && p > 0.0 && b * k == a * m
    ensures a as real / p * (m as real / k as real) == b as real / p
  {
    var x, y := a as real / p, m as real / k as real;
    assert a as real * m as real == b as real * k as real by { assert (a * m) as real == (b * k) as real; }
    assert x * p == a as real && y * k as real == m as real;
    calc {
      x * y * (p * k as real);
      (x * p) * (y * k as real);
      a as real * m as real;
      b as real * k as real;
    }
    Cancel(x * y, b as real, p, k as real);
  }

  lemma Cancel(z: real, b: real, p: real, k: real)
    requires p > 0.0 && k > 0.0 && z * (p * k) == b * k
    ensures z == b / p
  {
    assert z * p * k == b * k;
    assert (z * p - b) * k == 0.0;
    assert z * p == b;
  }

  lemma SumTerms(a: real, b: real, p: real)
    requires p > 0.0
    ensures a / p + b / p == (a + b) / p
  {}
}
