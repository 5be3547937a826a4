// Sums, minima and means of score lists: the arithmetic behind the acceptance bar.
module Averages {

  function Sum(xs: seq<real>): real {
    if xs == [] then 0.0 else Sum(xs[..|xs| - 1]) + xs[|xs| - 1]
  }

  function Min(xs: seq<real>): real
    requires xs != []
  {
    if |xs| == 1 then xs[0]
    else
      var m := Min(xs[..|xs| - 1]);
      if xs[|xs| - 1] < m then xs[|xs| - 1] else m
  }

  /** The minimum is a member, and clears a bar exactly when every member does. */
  lemma {:induction false} MinIsLeast(xs: seq<real>, bar: real)
    requires xs != []
    ensures Min(xs) in xs
    ensures Min(xs) >= bar <==> forall i :: 0 <= i < |xs| ==> xs[i] >= bar
  {
    if |xs| > 1 {
      MinIsLeast(xs[..|xs| - 1], bar);
      assert forall i :: 0 <= i < |xs| - 1 ==> xs[..|xs| - 1][i] == xs[i];
    }
  }

  /** `_mean`: the empty list counts as perfect. */
  function Mean(xs: seq<real>): real {
    if xs == [] then 1.0 else Sum(xs) / (|xs| as real)
  }

  lemma {:induction false} SumConcat(xs: seq<real>, ys: seq<real>)
    ensures Sum(xs + ys) == Sum(xs) + Sum(ys)
  {
    if ys == [] {
      assert xs + ys == xs;
    } else {
      var n := |ys| - 1;
      assert (xs + ys)[..|xs + ys| - 1] == xs + ys[..n];
      SumConcat(xs, ys[..n]);
    }
  }

  /** A sum of terms at most 1 falls short of its length by at least any one term's deficit. */
  lemma {:induction false} SumDeficit(xs: seq<real>, k: nat)
    requires forall i :: 0 <= i < |xs| ==> xs[i] <= 1.0
    requires k < |xs|
    ensures Sum(xs) <= (|xs| - 1) as real + xs[k]
  {
    var n := |xs| - 1;
    if k < n {
      SumDeficit(xs[..n], k);
    } else {
      SumAtMost(xs[..n]);
    }
  }

  lemma {:induction false} SumAtMost(xs: seq<real>)
    requires forall i :: 0 <= i < |xs| ==> xs[i] <= 1.0
    ensures Sum(xs) <= |xs| as real
  {
    if xs != [] {
      SumAtMost(xs[..|xs| - 1]);
    }
  }

  lemma {:induction false} SumOfOnes(xs: seq<real>)
    requires forall i :: 0 <= i < |xs| ==> xs[i] == 1.0
    ensures Sum(xs) == |xs| as real
  {
    if xs != [] {
      SumOfOnes(xs[..|xs| - 1]);
    }
  }

  /** A mean of terms at most 1 reaches 1 exactly when every term is 1. */
  lemma MeanIsOne(xs: seq<real>)
    requires forall i :: 0 <= i < |xs| ==> xs[i] <= 1.0
    ensures Mean(xs) <= 1.0
    ensures Mean(xs) >= 1.0 <==> forall i :: 0 <= i < |xs| ==> xs[i] == 1.0
  {
    if xs != [] {
      SumAtMost(xs);
      QuotientAgainstOne(Sum(xs), |xs| as real);
      if forall i :: 0 <= i < |xs| ==> xs[i] == 1.0 {
        SumOfOnes(xs);
      } else {
        var k :| 0 <= k < |xs| && xs[k] != 1.0;
        SumDeficit(xs, k);
      }
    }
  }

  lemma QuotientAgainstOne(x: real, n: real)
    requires n > 0.0
    ensures (x / n <= 1.0 <==> x <= n) && (x / n >= 1.0 <==> x >= n)
  {
    var q := x / n;
    assert q * n == x;
    if q <= 1.0 {
      assert (1.0 - q) * n >= 0.0;
    }
    if q >= 1.0 {
      assert (q - 1.0) * n >= 0.0;
    }
  }

  function Total(ks: seq<nat>): nat {
    if ks == [] then 0 else Total(ks[..|ks| - 1]) + ks[|ks| - 1]
  }

  lemma QuotientIs(x: real, m: real, q: real)
    requires m > 0.0 && q * m == x
    ensures x / m == q
  {
    var p := x / m;
    assert p * m == x;
    assert (p - q) * m == 0.0;
  }

  lemma QuotientAtLeast(x: real, m: real, c: real)
    requires m > 0.0
    ensures x / m >= c <==> x >= c * m
  {
    var q := x / m;
    assert q * m == x;
    if q >= c {
      assert (q - c) * m >= 0.0;
    } else {
      assert (c - q) * m > 0.0;
    }
  }

  /** The 0.98 bar over whole counts. */
  lemma RatioBar(agree: nat, n: nat)
    requires agree <= n && n > 0
    ensures agree as real / n as real <= 1.0
    ensures agree as real / n as real >= 0.98 <==> n - agree <= n / 50
    ensures agree as real / n as real == 1.0 <==> agree == n
  {
    var x, m := agree as real, n as real;
    QuotientAtLeast(x, m, 0.98);
    QuotientAtLeast(x, m, 1.0);
    QuotientAtLeast(-x, m, -1.0);
    assert (-x) / m == -(x / m) by {
      assert (x / m) * m == x;
      assert (-(x / m)) * m == -x;
      QuotientIs(-x, m, -(x / m));
    }
    assert (100 * agree) as real == 100.0 * x && (98 * n) as real == 98.0 * m;
  }

  /** Each term is the matching count divided by `d`. */
  ghost predicate Fractions(xs: seq<real>, ks: seq<nat>, d: real)
    requires d > 0.0
  {
    |xs| == |ks| && forall i :: 0 <= i < |xs| ==> xs[i] == ks[i] as real / d
  }

  /** Dividing every term divides the sum. */
  lemma {:induction false} SumOfQuotients(xs: seq<real>, ks: seq<nat>, d: real)
    requires d > 0.0 && Fractions(xs, ks, d)
    ensures Sum(xs) == Total(ks) as real / d
  {
    if xs == [] {
      QuotientIs(0.0, d, 0.0);
    } else {
      var n := |xs| - 1;
      SumOfQuotients(xs[..n], ks[..n], d);
      AddQuotients(Total(ks[..n]) as real, ks[n] as real, d);
    }
  }

  lemma AddQuotients(x: real, y: real, d: real)
    requires d > 0.0
    ensures x / d + y / d == (x + y) / d
  {
    var p, q := x / d, y / d;
    assert p * d == x && q * d == y;
    assert (p + q) * d == x + y;
    QuotientIs(x + y, d, p + q);
  }

  /** Averaging per-row fractions over equal rows is pooling the counts. */
  lemma MeanOfFractions(xs: seq<real>, ks: seq<nat>, f: nat)
    requires |xs| == |ks| > 0 && f > 0 && Fractions(xs, ks, f as real)
    ensures |ks| * f > 0
    ensures Sum(xs) / |ks| as real == Total(ks) as real / (|ks| * f) as real
  {
    SumOfQuotients(xs, ks, f as real);
    PooledForm(Sum(xs), Total(ks) as real, |ks|, f);
  }

  lemma PooledForm(s: real, t: real, n: nat, f: nat)
    requires n > 0 && f > 0 && s == t / f as real
    ensures n * f > 0 && s / n as real == t / (n * f) as real
  {
    ProductOfCasts(n, f);
    NestedQuotient(s, t, n as real, f as real);
  }

  lemma NestedQuotient(s: real, t: real, n: real, m: real)
    requires n > 0.0 && m > 0.0 && s == t / m
    ensures n * m > 0.0 && s / n == t / (n * m)
  {
    assert s * m == t;
    var q := s / n;
    assert q * n == s;
    assert q * (n * m) == (q * n) * m;
    QuotientIs(t, n * m, q);
  }

  lemma ProductOfCasts(a: nat, b: nat)
    requires a > 0 && b > 0
    ensures a * b > 0 && (a * b) as real == a as real * b as real
  {
  }
}
