/**
 * Element-wise arithmetic on one-dimensional real arrays, in the shape numpy
 * gives it: `a + b`, `a - c`, `c * a`, `a ** 2` and `np.sum`. Every statistic
 * of the regression layer is built from these, so their algebra (linearity
 * of the sum, sign of a sum) is proved once here.
 */
module Vectors {

  datatype Option<T> = None | Some(value: T)

  /** s[0] + ... + s[n-1] */
  function SumTo(s: seq<real>, n: nat): real
    requires n <= |s|
  {
    if n == 0 then 0.0 else SumTo(s, n - 1) + s[n - 1]
  }

  /** np.sum of a one-dimensional array */
  function Sum(s: seq<real>): real
  {
    SumTo(s, |s|)
  }

  /** Arithmetic mean, np.mean */
  function Mean(s: seq<real>): real
    requires |s| > 0
  {
    Sum(s) / |s| as real
  }

  /** a + b */
  function Add(a: seq<real>, b: seq<real>): seq<real>
    requires |a| == |b|
  {
    seq(|a|, i requires 0 <= i < |a| => a[i] + b[i])
  }

  /** a - b */
  function Sub(a: seq<real>, b: seq<real>): seq<real>
    requires |a| == |b|
  {
    seq(|a|, i requires 0 <= i < |a| => a[i] - b[i])
  }

  /** a * b */
  function Mul(a: seq<real>, b: seq<real>): seq<real>
    requires |a| == |b|
  {
    seq(|a|, i requires 0 <= i < |a| => a[i] * b[i])
  }

  /** a - c for a scalar c (broadcast) */
  function Shift(a: seq<real>, c: real): seq<real>
  {
    seq(|a|, i requires 0 <= i < |a| => a[i] - c)
  }

  /** c * a for a scalar c (broadcast) */
  function Scale(c: real, a: seq<real>): seq<real>
  {
    seq(|a|, i requires 0 <= i < |a| => c * a[i])
  }

  /** t ** 2 for a scalar t */
  function Sq(t: real): real
  {
    t * t
  }

  /** a ** 2 */
  function Square(a: seq<real>): seq<real>
  {
    seq(|a|, i requires 0 <= i < |a| => a[i] * a[i])
  }

  /** np.ones(n) */
  function Ones(n: nat): seq<real>
  {
    seq(n, i requires 0 <= i < n => 1.0)
  }

  /** Some two entries differ. */
  predicate NotAllEqual(a: seq<real>)
  {
    exists i, j :: 0 <= i < |a| && 0 <= j < |a| && a[i] != a[j]
  }

  lemma {:induction false} SumToAdd(a: seq<real>, b: seq<real>, n: nat)
    requires |a| == |b| && n <= |a|
    ensures SumTo(Add(a, b), n) == SumTo(a, n) + SumTo(b, n)
  {
    if n > 0 {
      SumToAdd(a, b, n - 1);
    }
  }

  lemma {:induction false} SumToSub(a: seq<real>, b: seq<real>, n: nat)
    requires |a| == |b| && n <= |a|
    ensures SumTo(Sub(a, b), n) == SumTo(a, n) - SumTo(b, n)
  {
    if n > 0 {
      SumToSub(a, b, n - 1);
    }
  }

  lemma {:induction false} SumToScale(c: real, a: seq<real>, n: nat)
    requires n <= |a|
    ensures SumTo(Scale(c, a), n) == c * SumTo(a, n)
  {
    if n > 0 {
      SumToScale(c, a, n - 1);
    }
  }

  lemma {:induction false} SumToNonneg(a: seq<real>, n: nat)
    requires n <= |a|
    requires forall i :: 0 <= i < n ==> a[i] >= 0.0
    ensures SumTo(a, n) >= 0.0
  {
    if n > 0 {
      SumToNonneg(a, n - 1);
    }
  }

  lemma {:induction false} SumToPositive(a: seq<real>, n: nat)
    requires 0 < n <= |a|
    requires forall i :: 0 <= i < n ==> a[i] > 0.0
    ensures SumTo(a, n) > 0.0
  {
    if n > 1 {
      SumToPositive(a, n - 1);
    }
  }

  lemma {:induction false} SumToAtLeastTerm(a: seq<real>, n: nat, k: nat)
    requires k < n <= |a|
    requires forall i :: 0 <= i < n ==> a[i] >= 0.0
    ensures SumTo(a, n) >= a[k]
  {
    if k == n - 1 {
      SumToNonneg(a, n - 1);
    } else {
      SumToAtLeastTerm(a, n - 1, k);
    }
  }

  lemma {:induction false} SumToOnes(n: nat, k: nat)
    requires k <= n
    ensures SumTo(Ones(n), k) == k as real
  {
    if k > 0 {
      SumToOnes(n, k - 1);
    }
  }

  /** np.sum(a + b) == np.sum(a) + np.sum(b) */
  lemma SumAdd(a: seq<real>, b: seq<real>)
    requires |a| == |b|
    ensures Sum(Add(a, b)) == Sum(a) + Sum(b)
  {
    SumToAdd(a, b, |a|);
  }

  /** np.sum(a - b) == np.sum(a) - np.sum(b) */
  lemma SumSub(a: seq<real>, b: seq<real>)
    requires |a| == |b|
    ensures Sum(Sub(a, b)) == Sum(a) - Sum(b)
  {
    SumToSub(a, b, |a|);
  }

  /** np.sum(c * a) == c * np.sum(a) */
  lemma SumScale(c: real, a: seq<real>)
    ensures Sum(Scale(c, a)) == c * Sum(a)
  {
    SumToScale(c, a, |a|);
  }

  lemma SumNonneg(a: seq<real>)
    requires forall i :: 0 <= i < |a| ==> a[i] >= 0.0
    ensures Sum(a) >= 0.0
  {
    SumToNonneg(a, |a|);
  }

  lemma SumPositive(a: seq<real>)
    requires |a| > 0
    requires forall i :: 0 <= i < |a| ==> a[i] > 0.0
    ensures Sum(a) > 0.0
  {
    SumToPositive(a, |a|);
  }

  /** A sum of non-negative terms is at least each of its terms. */
  lemma SumAtLeastTerm(a: seq<real>, k: nat)
    requires k < |a|
    requires forall i :: 0 <= i < |a| ==> a[i] >= 0.0
    ensures Sum(a) >= a[k]
  {
    SumToAtLeastTerm(a, |a|, k);
  }

  lemma SumOnes(n: nat)
    ensures Sum(Ones(n)) == n as real
  {
    SumToOnes(n, n);
  }

  /** Every entry of `a - np.mean(a)` sums to zero. */
  lemma SumShiftMean(a: seq<real>)
    requires |a| > 0
    ensures Sum(Shift(a, Mean(a))) == 0.0
  {
    var n := |a|;
    assert Shift(a, Mean(a)) == Sub(a, Scale(Mean(a), Ones(n)));
    SumSub(a, Scale(Mean(a), Ones(n)));
    SumScale(Mean(a), Ones(n));
    SumOnes(n);
  }
}
