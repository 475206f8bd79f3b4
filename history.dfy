/**
 * Bounded histories of durations and the figures computed from them: a
 * `deque(maxlen=...)` append, the mean, the minimum and maximum, and the
 * percentile of a sorted copy.
 */
module History {
  import Ordering

  /** `deque(maxlen=maxlen).append(x)`: once full, the oldest entry is dropped to make room. */
  function Push<T>(xs: seq<T>, x: T, maxlen: nat): (r: seq<T>)
    ensures |r| == if |xs| + 1 <= maxlen then |xs| + 1 else maxlen
    ensures r == (xs + [x])[|xs| + 1 - |r|..]
  {
    var all := xs + [x];
    if |all| > maxlen then all[|all| - maxlen..] else all
  }

  /** The newest `maxlen` entries of `xs`. */
  function Newest<T>(xs: seq<T>, maxlen: nat): (r: seq<T>)
    ensures |r| <= maxlen && |r| <= |xs|
  {
    if |xs| > maxlen then xs[|xs| - maxlen..] else xs
  }

  /** Pushing entries one by one keeps exactly the newest `maxlen` of all entries ever pushed. */
  lemma {:induction false} PushKeepsNewest<T>(xs: seq<T>, ys: seq<T>, maxlen: nat)
    ensures PushAll(Newest(xs, maxlen), ys, maxlen) == Newest(xs + ys, maxlen)
    decreases |ys|
  {
    if ys != [] {
      var init := ys[..|ys| - 1];
      var y := ys[|ys| - 1];
      PushKeepsNewest(xs, init, maxlen);
      assert ys == init + [y];
      assert xs + ys == (xs + init) + [y];
      PushNewest(xs + init, y, maxlen);
    }
  }

  /** Pushing onto the newest entries gives the newest entries of the longer list. */
  lemma PushNewest<T>(zs: seq<T>, y: T, maxlen: nat)
    ensures Push(Newest(zs, maxlen), y, maxlen) == Newest(zs + [y], maxlen)
  {
    var h := Newest(zs, maxlen);
    var all := zs + [y];
    assert h + [y] == all[|all| - |h| - 1..];
  }

  /** Within the bound, a deque append and a trim of the appended list to its newest entries agree. */
  lemma PushIsNewest<T>(xs: seq<T>, x: T, maxlen: nat)
    requires |xs| <= maxlen
    ensures Push(xs, x, maxlen) == Newest(xs + [x], maxlen)
  {
  }

  /** Pushes each of `ys` in turn. */
  function PushAll<T>(xs: seq<T>, ys: seq<T>, maxlen: nat): seq<T>
  {
    if ys == [] then xs else Push(PushAll(xs, ys[..|ys| - 1], maxlen), ys[|ys| - 1], maxlen)
  }

  function Sum(xs: seq<real>): real
  {
    if xs == [] then 0.0 else Sum(xs[..|xs| - 1]) + xs[|xs| - 1]
  }

  /** The mean of the response times lies between their least and greatest. */
  lemma {:induction false} SumBounds(xs: seq<real>, lo: real, hi: real)
    requires forall k :: 0 <= k < |xs| ==> lo <= xs[k] <= hi
    ensures |xs| as real * lo <= Sum(xs) <= |xs| as real * hi
  {
    if xs != [] {
      SumBounds(xs[..|xs| - 1], lo, hi);
    }
  }

  /** `_percentile`'s index: `int(n * p / 100)`, kept below `n`. */
  function PercentileIndex(n: nat, p: nat): (i: nat)
    requires n > 0
    ensures i < n
    ensures p >= 100 ==> i == n - 1
    ensures p < 100 ==> i * 100 <= n * p < (i + 1) * 100
  {
    var index := n * p / 100;
    ScaledBounds(n, p);
    if index < n - 1 then index else n - 1
  }

  /** `n * p` against `n * 100`, the two sides of the percentile's cap. */
  lemma ScaledBounds(n: nat, p: nat)
    requires n > 0
    ensures p >= 100 ==> n * p >= n * 100
    ensures p < 100 ==> n * p <= n * 99
  {
    if p >= 100 {
      MulMonotone(n, 100, p);
    } else {
      MulMonotone(n, p, 99);
    }
  }

  /** `_percentile`: the element of the sorted data at the percentile's index, and 0.0 for no data. */
  function Percentile(data: seq<real>, p: nat): (r: real)
    ensures data == [] ==> r == 0.0
    ensures data != [] ==> r in data && r == Ordering.Sort(data)[PercentileIndex(|data|, p)]
  {
    if data == [] then 0.0
    else
      var i := PercentileIndex(|data|, p);
      Ordering.SortKeepsElements(data, i);
      Ordering.Sort(data)[i]
  }

  /** A higher percentile is never below a lower one: p95 never exceeds p99. */
  lemma PercentileMonotone(data: seq<real>, p: nat, q: nat)
    requires p <= q
    ensures Percentile(data, p) <= Percentile(data, q)
  {
    if data != [] {
      var n := |data|;
      MulMonotone(n, p, q);
      DivMonotone(n * p, n * q, 100);
      Ordering.SortedMonotone(Ordering.Sort(data), PercentileIndex(n, p), PercentileIndex(n, q));
    }
  }

  /** The 100th percentile is the maximum and the 0th the minimum. */
  lemma PercentileExtremes(data: seq<real>, x: real)
    requires x in data
    ensures Percentile(data, 0) <= x <= Percentile(data, 100)
  {
    Ordering.SortBounds(data, x);
  }

  lemma MulMonotone(n: nat, p: nat, q: nat)
    requires p <= q
    ensures n * p <= n * q
  {
  }

  lemma DivMonotone(a: nat, b: nat, d: nat)
    requires a <= b && d > 0
    ensures a / d <= b / d
  {
    var qa, qb := a / d, b / d;
    assert qa * d <= a;
    assert b < (qb + 1) * d;
    MulCancel(qa, qb + 1, d);
  }

  lemma MulCancel(x: int, y: int, d: nat)
    requires d > 0 && x * d < y * d
    ensures x < y
  {
  }

  /** Python's `min` and `max` of a non-empty list. */
  function Min(xs: seq<real>): (m: real)
    requires xs != []
    ensures m in xs && forall x :: x in xs ==> m <= x
  {
    if |xs| == 1 then xs[0]
    else
      var rest := Min(xs[1..]);
      assert xs == [xs[0]] + xs[1..];
      if xs[0] <= rest then xs[0] else rest
  }

  function Max(xs: seq<real>): (m: real)
    requires xs != []
    ensures m in xs && forall x :: x in xs ==> x <= m
  {
    if |xs| == 1 then xs[0]
    else
      var rest := Max(xs[1..]);
      assert xs == [xs[0]] + xs[1..];
      if xs[0] >= rest then xs[0] else rest
  }

  lemma MeanOrdered(times: seq<real>)
    requires times != []
    ensures Min(times) <= Sum(times) / |times| as real <= Max(times)
  {
    var lo, hi := Min(times), Max(times);
    forall k | 0 <= k < |times| ensures lo <= times[k] <= hi {
      assert times[k] in times;
    }
    MeanWithin(times, lo, hi);
  }

  /** Values within bounds have their mean within the same bounds. */
  lemma MeanWithin(times: seq<real>, lo: real, hi: real)
    requires times != []
    requires forall k :: 0 <= k < |times| ==> lo <= times[k] <= hi
    ensures lo <= Sum(times) / |times| as real <= hi
  {
    SumBounds(times, lo, hi);
    MeanBetween(Sum(times), |times| as real, lo, hi);
  }

  lemma MeanBetween(total: real, n: real, lo: real, hi: real)
    requires n > 0.0 && n * lo <= total <= n * hi
    ensures lo <= total / n <= hi
  {
    var mean := total / n;
    assert mean * n == total;
  }
}
