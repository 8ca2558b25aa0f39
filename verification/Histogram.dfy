/** The bin-merging histogram of stats/histogram.go, over real numbers. */
module Histogram {
  const MAX_BINS: nat := 100

  datatype Bin = Bin(value: real, count: real)

  // ----- the bins as a list

  /** A new bin of one sample, before the first bin with a larger value. */
  function Insert(bins: seq<Bin>, n: real): seq<Bin>
  {
    if bins == [] || bins[0].value > n then [Bin(n, 1.0)] + bins else [bins[0]] + Insert(bins[1..], n)
  }

  function Gap(bins: seq<Bin>, j: nat): real
    requires 1 <= j < |bins|
  {
    bins[j].value - bins[j - 1].value
  }

  function Merged(a: Bin, b: Bin): Bin
    requires a.count + b.count != 0.0
  {
    Bin((a.value * a.count + b.value * b.count) / (a.count + b.count), a.count + b.count)
  }

  /** Bins i - 1 and i become one. */
  function MergeAt(bins: seq<Bin>, i: nat): seq<Bin>
    requires 1 <= i < |bins| && bins[i - 1].count + bins[i].count != 0.0
  {
    bins[..i - 1] + [Merged(bins[i - 1], bins[i])] + bins[i + 1..]
  }

  predicate Positive(bins: seq<Bin>)
  {
    forall i :: 0 <= i < |bins| ==> bins[i].count > 0.0
  }

  predicate Sorted(bins: seq<Bin>)
  {
    forall i, j :: 0 <= i < j < |bins| ==> bins[i].value <= bins[j].value
  }

  predicate Within(bins: seq<Bin>, lo: real, hi: real)
  {
    forall i :: 0 <= i < |bins| ==> lo <= bins[i].value <= hi
  }

  function Counts(bins: seq<Bin>): real
  {
    if bins == [] then 0.0 else bins[0].count + Counts(bins[1..])
  }

  function Mass(b: Bin): real { b.value * b.count }

  /** The sum of all samples the bins stand for. */
  function Weight(bins: seq<Bin>): real
  {
    if bins == [] then 0.0 else Mass(bins[0]) + Weight(bins[1..])
  }

  function Sum(samples: seq<real>): real
  {
    if samples == [] then 0.0 else samples[0] + Sum(samples[1..])
  }

  lemma {:induction false} SumsConcat(a: seq<Bin>, b: seq<Bin>)
    ensures Counts(a + b) == Counts(a) + Counts(b) && Weight(a + b) == Weight(a) + Weight(b)
  {
    if a == [] {
      assert a + b == b;
    } else {
      SumsConcat(a[1..], b);
      assert (a + b)[1..] == a[1..] + b;
    }
  }

  lemma SumsOfOne(x: Bin)
    ensures Counts([x]) == x.count && Weight([x]) == Mass(x)
  {
    assert [x][1..] == [];
  }

  lemma {:induction false} InsertSums(bins: seq<Bin>, n: real)
    ensures var r := Insert(bins, n); Counts(r) == Counts(bins) + 1.0 && Weight(r) == Weight(bins) + n
    decreases |bins|
  {
    if bins == [] || bins[0].value > n {
      SumsConcat([Bin(n, 1.0)], bins);
      SumsOfOne(Bin(n, 1.0));
    } else {
      InsertSums(bins[1..], n);
      SumsConcat([bins[0]], Insert(bins[1..], n));
      SumsOfOne(bins[0]);
    }
  }

  lemma {:induction false} InsertKeeps(bins: seq<Bin>, n: real, lo: real, hi: real)
    requires Sorted(bins) && Positive(bins) && Within(bins, lo, hi) && lo <= n <= hi
    ensures var r := Insert(bins, n);
            Sorted(r) && Positive(r) && Within(r, lo, hi) && |r| == |bins| + 1
    decreases |bins|
  {
    if bins != [] && bins[0].value <= n {
      InsertKeeps(bins[1..], n, bins[0].value, hi);
    }
  }

  /** A weighted mean lies between its two values. */
  lemma MeanBetween(a: Bin, b: Bin)
    requires a.count > 0.0 && b.count > 0.0 && a.value <= b.value
    ensures a.value <= Merged(a, b).value <= b.value
    ensures Mass(Merged(a, b)) == Mass(a) + Mass(b) && Merged(a, b).count == a.count + b.count
  {
    var c, v := a.count + b.count, Merged(a, b).value;
    var w := a.value * a.count + b.value * b.count;
    assert v * c == w;
    MulMono(a.value, b.value, b.count);
    MulMono(a.value, b.value, a.count);
    assert a.value * c <= w <= b.value * c;
    MulCancel(a.value, v, c);
    MulCancel(v, b.value, c);
  }

  lemma MulMono(x: real, y: real, c: real)
    requires x <= y && c > 0.0
    ensures x * c <= y * c
  {}

  lemma MulCancel(x: real, y: real, c: real)
    requires c > 0.0 && x * c <= y * c
    ensures x <= y
  {
    assert x > y ==> (x - y) * c > 0.0;
  }

  /** Merging two neighbours keeps order, counts, weight and range. */
  lemma MergeKeeps(bins: seq<Bin>, i: nat, lo: real, hi: real)
    requires Sorted(bins) && Positive(bins) && Within(bins, lo, hi) && 1 <= i < |bins|
    ensures var r := MergeAt(bins, i);
            && Sorted(r) && Positive(r) && Within(r, lo, hi) && |r| == |bins| - 1
            && Counts(r) == Counts(bins) && Weight(r) == Weight(bins)
  {
    hide Counts, Weight, Mass, Merged;
    var a, b, front, back := bins[i - 1], bins[i], bins[..i - 1], bins[i + 1..];
    var m := Merged(a, b);
    MeanBetween(a, b);
    MergeSums(bins, i);
    var r := MergeAt(bins, i);
    assert forall k :: 0 <= k < |r| ==> r[k] == if k < i - 1 then bins[k] else if k == i - 1 then m else bins[k + 1];
  }

  lemma MergeSums(bins: seq<Bin>, i: nat)
    requires Sorted(bins) && Positive(bins) && 1 <= i < |bins|
    ensures Counts(MergeAt(bins, i)) == Counts(bins) && Weight(MergeAt(bins, i)) == Weight(bins)
  {
    hide Counts, Weight, Mass, Merged;
    var a, b, front, back := bins[i - 1], bins[i], bins[..i - 1], bins[i + 1..];
    MeanBetween(a, b);
    PieceSums(front, a, b, Merged(a, b), back);
    assert bins == front + [a] + [b] + back;
  }

  lemma PieceSums(front: seq<Bin>, a: Bin, b: Bin, m: Bin, back: seq<Bin>)
    requires Mass(m) == Mass(a) + Mass(b) && m.count == a.count + b.count
    ensures Counts(front + [m] + back) == Counts(front + [a] + [b] + back)
    ensures Weight(front + [m] + back) == Weight(front + [a] + [b] + back)
  {
    hide Counts, Weight, Mass;
    SumsOfOne(a);
    SumsOfOne(b);
    SumsOfOne(m);
    SumsConcat(front + [m], back);
    SumsConcat(front, [m]);
    SumsConcat(front + [a] + [b], back);
    SumsConcat(front + [a], [b]);
    SumsConcat(front, [a]);
  }

  // ----- quantiles

  /** The value of the bin in which the first `c` samples end; 0 when the bins run out. */
  function QuantileFrom(bins: seq<Bin>, c: real): real
  {
    if bins == [] then 0.0
    else if c - bins[0].count <= 0.0 then bins[0].value
    else QuantileFrom(bins[1..], c - bins[0].count)
  }

  lemma {:induction false} QuantileInRange(bins: seq<Bin>, c: real, lo: real, hi: real)
    requires bins != [] && Within(bins, lo, hi) && c <= Counts(bins)
    ensures lo <= QuantileFrom(bins, c) <= hi
    decreases |bins|
  {
    var t := bins[1..];
    assert t == [] ==> Counts(t) == 0.0;
    if c - bins[0].count > 0.0 {
      QuantileInRange(t, c - bins[0].count, lo, hi);
    }
  }

  /** A larger share of the samples never has a smaller quantile. */
  lemma {:induction false} QuantileMonotone(bins: seq<Bin>, c: real, d: real)
    requires bins != [] && Sorted(bins) && c <= d <= Counts(bins)
    ensures QuantileFrom(bins, c) <= QuantileFrom(bins, d)
    decreases |bins|
  {
    var t, k := bins[1..], bins[0].count;
    assert t == [] ==> Counts(t) == 0.0;
    if d - k > 0.0 {
      if c - k > 0.0 {
        QuantileMonotone(t, c - k, d - k);
      } else {
        QuantileInRange(t, d - k, bins[0].value, t[|t| - 1].value);
      }
    }
  }

  /** The quantile is the value of the first bin up to which there are at least `c` samples. */
  lemma {:induction false} QuantileAt(bins: seq<Bin>, c: real) returns (i: nat)
    requires bins != [] && Positive(bins) && c <= Counts(bins)
    ensures i < |bins| && QuantileFrom(bins, c) == bins[i].value
    ensures c <= Counts(bins[..i + 1]) && (i > 0 ==> Counts(bins[..i]) < c)
    decreases |bins|
  {
    var b, t := bins[0], bins[1..];
    assert t == [] ==> Counts(t) == 0.0;
    if c - b.count <= 0.0 {
      i := 0;
      assert bins[..1] == [b];
      SumsOfOne(b);
    } else {
      var j := QuantileAt(t, c - b.count);
      i := j + 1;
      CountsTake(bins, j + 2);
      CountsTake(bins, j + 1);
      assert bins[..1] == [b];
      SumsOfOne(b);
    }
  }

  lemma CountsTake(bins: seq<Bin>, n: nat)
    requires 1 <= n <= |bins|
    ensures Counts(bins[..n]) == bins[0].count + Counts(bins[1..][..n - 1])
  {
    assert bins[..n][0] == bins[0] && bins[..n][1..] == bins[1..][..n - 1];
  }

  /** Beyond all samples there is no bin. */
  lemma {:induction false} QuantileBeyond(bins: seq<Bin>, c: real)
    requires Counts(bins) < c
    ensures Positive(bins) ==> QuantileFrom(bins, c) == 0.0
    decreases |bins|
  {
    if bins != [] && Positive(bins) {
      CountsPositive(bins[1..]);
      QuantileBeyond(bins[1..], c - bins[0].count);
    }
  }

  lemma {:induction false} CountsPositive(bins: seq<Bin>)
    requires Positive(bins)
    ensures Counts(bins) >= 0.0
    decreases |bins|
  {
    if bins != [] { CountsPositive(bins[1..]); }
  }

  // ----- up to a hundred samples

  function Values(bins: seq<Bin>): (r: seq<real>)
    ensures |r| == |bins| && forall i :: 0 <= i < |bins| ==> r[i] == bins[i].value
  {
    seq(|bins|, i requires 0 <= i < |bins| => bins[i].value)
  }

  /** One bin for each sample. */
  predicate Exact(bins: seq<Bin>, samples: seq<real>)
  {
    && multiset(Values(bins)) == multiset(samples)
    && forall i :: 0 <= i < |bins| ==> bins[i].count == 1.0
  }

  lemma {:induction false} InsertIsExact(bins: seq<Bin>, n: real, samples: seq<real>)
    requires Exact(bins, samples)
    ensures Exact(Insert(bins, n), samples + [n])
  {
    InsertValues(bins, n);
    assert multiset(samples + [n]) == multiset(samples) + multiset{n};
  }

  lemma {:induction false} InsertValues(bins: seq<Bin>, n: real)
    ensures multiset(Values(Insert(bins, n))) == multiset(Values(bins)) + multiset{n}
    ensures (forall i :: 0 <= i < |bins| ==> bins[i].count == 1.0) ==>
              forall i :: 0 <= i < |Insert(bins, n)| ==> Insert(bins, n)[i].count == 1.0
    decreases |bins|
  {
    var r := Insert(bins, n);
    if bins == [] || bins[0].value > n {
      assert Values(r) == [n] + Values(bins);
    } else {
      InsertValues(bins[1..], n);
      assert Values(bins) == [bins[0].value] + Values(bins[1..]);
      assert Values(r) == [bins[0].value] + Values(Insert(bins[1..], n));
    }
  }

  lemma ExactLength(bins: seq<Bin>, samples: seq<real>)
    requires Exact(bins, samples)
    ensures |bins| == |samples|
  {
    assert |multiset(Values(bins))| == |bins| && |multiset(samples)| == |samples|;
  }

  /** While there is one bin for each sample, the quantile of the share k / n is the k-th smallest of the n
      samples: the k-th of a sorted rearrangement of them. */
  lemma KthSmallest(bins: seq<Bin>, samples: seq<real>, k: nat)
    requires Exact(bins, samples) && Sorted(bins) && 1 <= k <= |samples|
    ensures |bins| == |samples| && multiset(Values(bins)) == multiset(samples)
    ensures QuantileFrom(bins, Share((k as real) / (|samples| as real), |samples|)) == Values(bins)[k - 1]
  {
    ExactLength(bins, samples);
    ShareOf(k, |samples|);
    QuantileOfSingles(bins, k);
  }

  lemma ShareOf(k: nat, n: nat)
    requires n > 0
    ensures Share((k as real) / (n as real), n) == k as real
  {}

  lemma {:induction false} QuantileOfSingles(bins: seq<Bin>, k: nat)
    requires 1 <= k <= |bins| && forall i :: 0 <= i < |bins| ==> bins[i].count == 1.0
    ensures QuantileFrom(bins, k as real) == bins[k - 1].value
    decreases k
  {
    if k > 1 {
      QuantileOfSingles(bins[1..], k - 1);
      assert (k as real) - 1.0 == (k - 1) as real;
    }
  }

  /** The number of samples that make up the share q of `total`. */
  function Share(q: real, total: nat): real { q * (total as real) }

  lemma Shares(p: real, q: real, total: nat)
    requires p <= q <= 1.0
    ensures Share(p, total) <= Share(q, total) <= total as real
  {
    var t := total as real;
    assert (q - p) * t >= 0.0 && (1.0 - q) * t >= 0.0;
  }

  /** A larger share q of all samples never has a smaller quantile, and every quantile lies between the
      least and the greatest sample. */
  lemma QuantilesOrdered(bins: seq<Bin>, total: nat, p: real, q: real, lo: real, hi: real)
    requires bins != [] && Sorted(bins) && Within(bins, lo, hi) && Counts(bins) == total as real
    requires 0.0 <= p <= q <= 1.0
    ensures lo <= QuantileFrom(bins, Share(p, total)) <= QuantileFrom(bins, Share(q, total)) <= hi
  {
    Shares(p, q, total);
    hide Share;
    QuantileMonotone(bins, Share(p, total), Share(q, total));
    QuantileInRange(bins, Share(p, total), lo, hi);
    QuantileInRange(bins, Share(q, total), lo, hi);
  }

  // ----- the object

  class Histogram {
    var bins: seq<Bin>
    var total: nat
    ghost var samples: seq<real>  // everything ever added

    /** At most MAX_BINS bins in order; their counts add up to the number of samples, their weighted
        sum to the sum of the samples, and none lies outside the range of the samples. Up to a hundred
        samples have a bin each. */
    ghost predicate Valid()
      reads this
    {
      && |bins| <= 100 && Sorted(bins) && Positive(bins)
      && (|samples| <= 100 ==> Exact(bins, samples))
      && total == |samples| && (samples != [] ==> bins != [])
      && Counts(bins) == total as real && Weight(bins) == Sum(samples)
      && forall lo, hi {:trigger Within(bins, lo, hi)} :: Bounds(samples, lo, hi) ==> Within(bins, lo, hi)
    }

    constructor ()
      ensures Valid() && samples == []
    {
      bins, total, samples := [], 0, [];
    }

    /** Add: insert in order, then trim. */
    method Add(n: real)
      requires Valid()
      modifies this
      ensures Valid() && samples == old(samples) + [n]
      ensures var inserted := Insert(old(bins), n);
              if |inserted| <= MAX_BINS then bins == inserted
              else ClosestMerged(inserted, bins)
    {
      hide Sorted, Positive, Within, Counts, Weight, Sum, Insert, Exact;
      total := total + 1;
      samples := samples + [n];
      SumSnoc(old(samples), n);
      Inserted(bins, n, old(samples));
      InsertGrows(bins, n);
      if |samples| <= 100 {
        InsertIsExact(bins, n, old(samples));
        ExactLength(Insert(bins, n), samples);
      }
      bins := InsertBin(bins, n);
      Trim();
    }

    /** trim: while there are too many bins, merge the two closest neighbours. */
    method Trim()
      requires Sorted(bins) && Positive(bins)
      requires forall lo, hi {:trigger Within(bins, lo, hi)} :: Bounds(samples, lo, hi) ==> Within(bins, lo, hi)
      modifies this`bins
      ensures |bins| <= MAX_BINS && (old(bins) != [] ==> bins != [])
      ensures Sorted(bins) && Positive(bins)
      ensures Counts(bins) == Counts(old(bins)) && Weight(bins) == Weight(old(bins))
      ensures |old(bins)| <= MAX_BINS ==> bins == old(bins)
      ensures |old(bins)| == MAX_BINS + 1 ==> ClosestMerged(old(bins), bins)
      ensures forall lo, hi {:trigger Within(bins, lo, hi)} :: Bounds(samples, lo, hi) ==> Within(bins, lo, hi)
    {
      while |bins| > MAX_BINS
        invariant Sorted(bins) && Positive(bins) && (old(bins) != [] ==> bins != [])
        invariant |old(bins)| <= MAX_BINS ==> bins == old(bins)
        invariant |old(bins)| > MAX_BINS ==> MAX_BINS <= |bins| <= |old(bins)|
        invariant |bins| == |old(bins)| ==> bins == old(bins)
        invariant |bins| == |old(bins)| - 1 ==> ClosestMerged(old(bins), bins)
        invariant Counts(bins) == Counts(old(bins)) && Weight(bins) == Weight(old(bins))
        invariant forall lo, hi {:trigger Within(bins, lo, hi)} :: Bounds(samples, lo, hi) ==> Within(bins, lo, hi)
        decreases |bins|
      {
        var i := ClosestPair(bins);
        ghost var before := bins;
        MergeInRange(before, i, samples);
        bins := MergeAt(bins, i);
      }
    }

    /** Quantile: walk the bins until the share q of the samples is used up. */
    method Quantile(q: real) returns (r: real)
      ensures r == QuantileFrom(bins, Share(q, total))
    {
      var count := q * (total as real);
      for i := 0 to |bins|
        invariant QuantileFrom(bins[i..], count) == QuantileFrom(bins, Share(q, total))
      {
        assert bins[i..][0] == bins[i] && bins[i..][1..] == bins[i + 1..];
        count := count - bins[i].count;
        if count <= 0.0 { return bins[i].value; }
      }
      return 0.0;
    }
  }

  lemma PastBin(bins: seq<Bin>, n: real, i: nat)
    requires i < |bins| && bins[i].value <= n
    ensures bins[..i] + Insert(bins[i..], n) == bins[..i + 1] + Insert(bins[i + 1..], n)
  {
    assert bins[i..][1..] == bins[i + 1..];
    assert bins[..i] + ([bins[i]] + Insert(bins[i + 1..], n)) == bins[..i + 1] + Insert(bins[i + 1..], n);
  }

  /** The insertion loop of Add. */
  method InsertBin(bins: seq<Bin>, n: real) returns (r: seq<Bin>)
    ensures r == Insert(bins, n) && r != []
  {
    var i := 0;
    while i < |bins| && bins[i].value <= n
      invariant i <= |bins|
      invariant Insert(bins, n) == bins[..i] + Insert(bins[i..], n)
    {
      PastBin(bins, n, i);
      i := i + 1;
    }
    r := bins[..i] + [Bin(n, 1.0)] + bins[i..];
  }

  /** Bins i - 1 and i are the first pair of neighbours with the least distance. */
  predicate FirstClosest(bins: seq<Bin>, i: nat)
  {
    && 1 <= i < |bins|
    && (forall j :: 1 <= j < |bins| ==> Gap(bins, i) <= Gap(bins, j))
    && (forall j :: 1 <= j < i ==> Gap(bins, i) < Gap(bins, j))
  }

  /** `after` is `before` with its closest neighbours merged. */
  ghost predicate ClosestMerged(before: seq<Bin>, after: seq<Bin>)
  {
    Positive(before) && exists i :: FirstClosest(before, i) && after == MergeAt(before, i)
  }

  lemma {:induction false} InsertGrows(bins: seq<Bin>, n: real)
    ensures |Insert(bins, n)| == |bins| + 1
    decreases |bins|
  {
    if bins != [] && bins[0].value <= n {
      InsertGrows(bins[1..], n);
    }
  }

  /** The search of trim. */
  method ClosestPair(bins: seq<Bin>) returns (i: nat)
    requires |bins| >= 2
    ensures FirstClosest(bins, i)
  {
    var d := 0.0;
    i := 0;
    var j := 1;
    while j < |bins|
      invariant 1 <= j <= |bins| && (j == 1 ==> i == 0) && (j > 1 ==> 1 <= i < j && d == Gap(bins, i))
      invariant forall k :: 1 <= k < j ==> i >= 1 && Gap(bins, i) <= Gap(bins, k)
      invariant forall k :: 1 <= k < i ==> Gap(bins, i) < Gap(bins, k)
    {
      var dv := Gap(bins, j);
      if dv < d || j == 1 {
        d, i := dv, j;
      }
      j := j + 1;
    }
  }

  predicate Bounds(samples: seq<real>, lo: real, hi: real)
  {
    forall i :: 0 <= i < |samples| ==> lo <= samples[i] <= hi
  }

  lemma {:induction false} SumSnoc(a: seq<real>, x: real)
    ensures Sum(a + [x]) == Sum(a) + x
  {
    if a == [] {
      assert [x][1..] == [];
      assert a + [x] == [x];
    } else {
      SumSnoc(a[1..], x);
      assert (a + [x])[1..] == a[1..] + [x];
    }
  }

  lemma Inserted(bins: seq<Bin>, n: real, samples: seq<real>)
    requires Sorted(bins) && Positive(bins)
    requires forall lo, hi {:trigger Within(bins, lo, hi)} :: Bounds(samples, lo, hi) ==> Within(bins, lo, hi)
    ensures var r := Insert(bins, n);
            && Sorted(r) && Positive(r) && Counts(r) == Counts(bins) + 1.0 && Weight(r) == Weight(bins) + n
            && forall lo, hi {:trigger Within(r, lo, hi)} :: Bounds(samples + [n], lo, hi) ==> Within(r, lo, hi)
  {
    var r := Insert(bins, n);
    AnyBounds(bins, n);
    forall lo, hi | Bounds(samples + [n], lo, hi) ensures Within(r, lo, hi) {
      var all := samples + [n];
      assert all[|samples|] == n;
      assert forall i :: 0 <= i < |samples| ==> all[i] == samples[i];
      assert Bounds(samples, lo, hi) && Within(bins, lo, hi);
      InsertKeeps(bins, n, lo, hi);
    }
  }

  /** Sums and order do not depend on any bounds. */
  lemma AnyBounds(bins: seq<Bin>, n: real)
    requires Sorted(bins) && Positive(bins)
    ensures var r := Insert(bins, n);
            Sorted(r) && Positive(r) && Counts(r) == Counts(bins) + 1.0 && Weight(r) == Weight(bins) + n
  {
    InsertSums(bins, n);
    if bins == [] {
      InsertKeeps(bins, n, n, n);
    } else {
      var a, b := bins[0].value, bins[|bins| - 1].value;
      InsertKeeps(bins, n, if a < n then a else n, if b > n then b else n);
    }
  }

  lemma MergeInRange(bins: seq<Bin>, i: nat, samples: seq<real>)
    requires Sorted(bins) && Positive(bins) && 1 <= i < |bins|
    requires forall lo, hi {:trigger Within(bins, lo, hi)} :: Bounds(samples, lo, hi) ==> Within(bins, lo, hi)
    ensures var r := MergeAt(bins, i);
            && Sorted(r) && Positive(r) && |r| == |bins| - 1 && Counts(r) == Counts(bins) && Weight(r) == Weight(bins)
            && forall lo, hi {:trigger Within(r, lo, hi)} :: Bounds(samples, lo, hi) ==> Within(r, lo, hi)
  {
    MergeKeeps(bins, i, bins[0].value, bins[|bins| - 1].value);
    forall lo, hi | Bounds(samples, lo, hi) ensures Within(MergeAt(bins, i), lo, hi) {
      assert Within(bins, lo, hi);
      MergeKeeps(bins, i, lo, hi);
    }
  }
}
