/**
 The per-bucket count series of event timestamps (backend/app/detection/detection_service.py,
 `_bucketize`). Times are whole ticks; a window is its end, its bucket length and its number of
 buckets.
 */
module Bucketing {
  import opened Wrappers
  import opened Counting

  datatype Window = Window(now: int, bucket: int, buckets: nat) {
    predicate Valid() { bucket > 0 && buckets > 0 }

    /** The left edge: only newer timestamps fall in a bucket. */
    function Edge(): int { now - buckets * bucket }

    /** One bucket later. */
    function Next(): Window { this.(now := now + bucket) }
  }

  /** The bucket of a timestamp; one from the future counts as the latest. */
  function Slot(w: Window, t: int): Option<nat>
    requires w.Valid()
  {
    if w.now < t then Some(w.buckets - 1)
    else
      var fromEnd := (w.now - t) / w.bucket;
      if fromEnd >= w.buckets then None else Some(w.buckets - 1 - fromEnd)
  }

  function InSlot(w: Window, i: nat): int -> bool
    requires w.Valid()
  {
    t => Slot(w, t) == Some(i)
  }

  /** How many timestamps fall in bucket i. */
  function Count(w: Window, ts: seq<int>, i: nat): nat
    requires w.Valid()
  {
    CountIf(InSlot(w, i), ts)
  }

  /** The series of counts, oldest bucket first. */
  function Series(w: Window, ts: seq<int>): (s: seq<nat>)
    requires w.Valid()
    ensures |s| == w.buckets && forall i :: 0 <= i < w.buckets ==> s[i] == Count(w, ts, i)
  {
    seq(w.buckets, i requires 0 <= i < w.buckets => Count(w, ts, i))
  }

  method Bucketize(ts: seq<int>, w: Window) returns (series: seq<nat>)
    requires w.Valid()
    ensures series == Series(w, ts)
  {
    var buckets := new nat[w.buckets](_ => 0);
    for k := 0 to |ts|
      invariant forall i :: 0 <= i < w.buckets ==> buckets[i] == Count(w, ts[..k], i)
    {
      assert ts[..k + 1][..k] == ts[..k];
      var delta := w.now - ts[k];
      var index := w.buckets - 1;
      if delta >= 0 {
        var fromEnd := delta / w.bucket;
        if fromEnd >= w.buckets { continue; }
        index := w.buckets - 1 - fromEnd;
      }
      buckets[index] := buckets[index] + 1;
    }
    assert ts[..|ts|] == ts;
    series := buckets[..];
  }

  // ----- Conservation -----

  function Total(s: seq<nat>): nat {
    if s == [] then 0 else Total(s[..|s| - 1]) + s[|s| - 1]
  }

  function Newer(ts: seq<int>, edge: int): nat {
    CountIf(t => t > edge, ts)
  }

  lemma SlotExists(w: Window, t: int)
    requires w.Valid()
    ensures Slot(w, t).Some? <==> t > w.Edge()
    ensures Slot(w, t).Some? ==> Slot(w, t).value < w.buckets
  {
    if t <= w.now { DivideBound(w.now - t, w.bucket, w.buckets); }
    else { ProductNonNegative(w.buckets, w.bucket); }
  }

  lemma ProductNonNegative(a: nat, b: nat)
    ensures 0 <= a * b
  {}

  lemma AtLeastOnce(k: int, d: nat)
    requires k >= 1
    ensures k * d >= d
  {
    ProductNonNegative(k - 1, d);
    assert k * d == (k - 1) * d + d;
  }

  lemma QuotientUnique(x: nat, d: nat, q: nat, r: nat)
    requires d > 0 && r < d && x == q * d + r
    ensures x / d == q
  {
    var p, s := x / d, x % d;
    assert x == p * d + s;
    assert (q - p) * d == q * d - p * d && (p - q) * d == p * d - q * d;
    if q > p {
      AtLeastOnce(q - p, d);
    } else if p > q {
      AtLeastOnce(p - q, d);
    }
  }

  lemma DivideBound(x: nat, d: nat, n: nat)
    requires d > 0
    ensures x / d >= n <==> x >= n * d
  {
    var q, r := x / d, x % d;
    assert x == q * d + r;
    if q >= n {
      ProductNonNegative(q - n, d);
      assert (q - n) * d == q * d - n * d;
    } else {
      AtLeastOnce(n - q, d);
      assert (n - q) * d == n * d - q * d;
    }
  }

  lemma DivideNext(x: nat, d: nat)
    requires d > 0
    ensures (x + d) / d == x / d + 1
  {
    var q, r := x / d, x % d;
    assert x == q * d + r && (q + 1) * d == q * d + d;
    QuotientUnique(x + d, d, q + 1, r);
  }

  lemma {:induction false} TotalOfIncrement(s: seq<nat>, r: seq<nat>, k: nat)
    requires |s| == |r| && k < |s|
    requires forall i :: 0 <= i < |s| ==> r[i] == s[i] + (if i == k then 1 else 0)
    ensures Total(r) == Total(s) + 1
  {
    var n := |s| - 1;
    if k == n { assert r[..n] == s[..n]; }
    else { TotalOfIncrement(s[..n], r[..n], k); }
  }

  lemma {:induction false} TotalOfZeros(s: seq<nat>)
    requires forall i :: 0 <= i < |s| ==> s[i] == 0
    ensures Total(s) == 0
  {
    if s != [] { TotalOfZeros(s[..|s| - 1]); }
  }

  /** The buckets hold exactly the timestamps newer than the left edge. */
  lemma {:induction false} SeriesConserves(w: Window, ts: seq<int>)
    requires w.Valid()
    ensures Total(Series(w, ts)) == Newer(ts, w.Edge())
  {
    if ts == [] {
      TotalOfZeros(Series(w, ts));
    } else {
      var init, t := ts[..|ts| - 1], ts[|ts| - 1];
      SeriesConserves(w, init);
      SlotExists(w, t);
      if Slot(w, t).Some? { TotalOfIncrement(Series(w, init), Series(w, ts), Slot(w, t).value); }
      else { assert Series(w, ts) == Series(w, init); }
    }
  }

  // ----- Order -----

  /** The series does not depend on the order in which the events were read. */
  lemma SeriesPermuted(w: Window, a: seq<int>, b: seq<int>)
    requires w.Valid() && multiset(a) == multiset(b)
    ensures Series(w, a) == Series(w, b)
  {
    forall i | 0 <= i < w.buckets ensures Count(w, a, i) == Count(w, b, i) {
      CountPermuted(InSlot(w, i), a, b);
    }
  }

  // ----- Sliding -----

  lemma SlotSlides(w: Window, t: int, i: nat)
    requires w.Valid() && t <= w.now
    ensures Slot(w.Next(), t) == Some(i) <==> i + 1 < w.buckets && Slot(w, t) == Some(i + 1)
  {
    DivideNext(w.now - t, w.bucket);
    assert w.Next().now - t == w.now - t + w.bucket;
  }

  lemma {:induction false} CountSlides(w: Window, ts: seq<int>, i: nat)
    requires w.Valid() && forall k :: 0 <= k < |ts| ==> ts[k] <= w.now
    ensures Count(w.Next(), ts, i) == if i + 1 < w.buckets then Count(w, ts, i + 1) else 0
  {
    if ts != [] {
      CountSlides(w, ts[..|ts| - 1], i);
      SlotSlides(w, ts[|ts| - 1], i);
    }
  }

  /** One bucket later, the series of past events has moved by one and the latest bucket is empty. */
  lemma SeriesSlides(w: Window, ts: seq<int>)
    requires w.Valid() && forall k :: 0 <= k < |ts| ==> ts[k] <= w.now
    ensures Series(w.Next(), ts) == Series(w, ts)[1..] + [0]
  {
    forall i | 0 <= i < w.buckets
      ensures Series(w.Next(), ts)[i] == (Series(w, ts)[1..] + [0])[i]
    {
      CountSlides(w, ts, i);
    }
  }
}
