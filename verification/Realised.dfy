/**
 Every series of counts is the error series of some events, so what holds of all series holds of all runs
 and nothing more.
 */
module Realised {
  import opened Wrappers
  import opened Records
  import opened Detectors
  import opened Bucketing
  import opened Counting
  import opened Detection
  import opened Bursts
  import R = Reals

  /** The latest time that falls in bucket i. */
  function TimeOf(w: Window, i: nat): (t: Time)
    requires w.Valid() && i < w.buckets
  {
    w.now - (w.buckets - 1 - i) * w.bucket
  }

  lemma TimeInSlot(w: Window, i: nat)
    requires w.Valid() && i < w.buckets
    ensures Slot(w, TimeOf(w, i)) == Some(i) && TimeOf(w, i) > w.Edge()
  {
    var m := w.buckets - 1 - i;
    ProductNonNegative(m, w.bucket);
    QuotientUnique(m * w.bucket, w.bucket, m, 0);
    SlotExists(w, TimeOf(w, i));
  }

  /** For event k of bucket i one of the two levels of an error. */
  ghost predicate ErrorLevels(level: (nat, nat) -> Level) {
    forall i, k :: level(i, k) == Error || level(i, k) == Critical
  }

  /** n errors of the service in bucket i. */
  function BucketOf(w: Window, service: string, i: nat, n: nat, level: (nat, nat) -> Level): (events: seq<Event>)
    requires w.Valid() && i < w.buckets
    ensures |events| == n && forall k: nat :: k < n ==> events[k] == Event(service, level(i, k), "error", TimeOf(w, i))
  {
    seq(n, k requires 0 <= k < n => Event(service, level(i, k), "error", TimeOf(w, i)))
  }

  /** series[i] errors in bucket i, for the first n buckets. */
  function Realise(w: Window, service: string, series: seq<nat>, n: nat, level: (nat, nat) -> Level)
    : (events: seq<Event>)
    requires w.Valid() && n <= |series| == w.buckets
  {
    if n == 0 then []
    else Realise(w, service, series, n - 1, level) + BucketOf(w, service, n - 1, series[n - 1], level)
  }

  lemma {:induction false} StampsOfMore(a: seq<Event>, b: seq<Event>)
    ensures ErrorStamps(a + b) == ErrorStamps(a) + ErrorStamps(b)
  {
    if b == [] { assert a + b == a; }
    else {
      StampsOfMore(a, b[..|b| - 1]);
      assert (a + b)[..|a + b| - 1] == a + b[..|b| - 1];
    }
  }

  lemma {:induction false} BucketCount(w: Window, events: seq<Event>, t: Time, i: nat)
    requires w.Valid() && forall k :: 0 <= k < |events| ==> IsError(events[k]) && events[k].timestamp == t
    ensures Count(w, ErrorStamps(events), i) == if Slot(w, t) == Some(i) then |events| else 0
  {
    if events != [] {
      var init := events[..|events| - 1];
      BucketCount(w, init, t, i);
      assert ErrorStamps(events) == ErrorStamps(init) + [t];
      CountSplit(w, ErrorStamps(init), t, i);
    }
  }

  lemma {:induction false} RealiseCounts(w: Window, service: string, series: seq<nat>, n: nat,
                                         level: (nat, nat) -> Level, j: nat)
    requires w.Valid() && n <= |series| == w.buckets && j < w.buckets && ErrorLevels(level)
    ensures Count(w, ErrorStamps(Realise(w, service, series, n, level)), j) == if j < n then series[j] else 0
  {
    hide BucketOf, TimeOf, ErrorStamps;
    if n == 0 {
      NoStamps();
    } else {
      var before, more := Realise(w, service, series, n - 1, level), BucketOf(w, service, n - 1, series[n - 1], level);
      RealiseCounts(w, service, series, n - 1, level, j);
      TimeInSlot(w, n - 1);
      BucketCount(w, more, TimeOf(w, n - 1), j);
      StampsOfMore(before, more);
      CountAppend(InSlot(w, j), ErrorStamps(before), ErrorStamps(more));
    }
  }

  lemma NoStamps()
    ensures ErrorStamps([]) == []
  {
  }

  lemma {:induction false} RealiseRecent(w: Window, service: string, series: seq<nat>, n: nat,
                                         level: (nat, nat) -> Level)
    requires w.Valid() && n <= |series| == w.buckets
    ensures AllSince(Realise(w, service, series, n, level), service, w.Edge())
  {
    if n > 0 {
      RealiseRecent(w, service, series, n - 1, level);
      TimeInSlot(w, n - 1);
      SinceMore(Realise(w, service, series, n - 1, level), BucketOf(w, service, n - 1, series[n - 1], level), service,
                w.Edge());
    }
  }

  lemma SinceMore(a: seq<Event>, b: seq<Event>, service: string, since: Time)
    requires AllSince(a, service, since) && AllSince(b, service, since)
    ensures AllSince(a + b, service, since)
  {
  }

  /** The error series of a run at `now`. */
  function ErrorSeries(c: Config, events: seq<Event>, service: string, now: Time): (series: seq<nat>)
    requires c.Valid()
    ensures |series| == c.minSamples + 1
  {
    var w := DetectionWindow(c, now);
    Series(w, ErrorStamps(EventsSince(events, service, w.Edge())))
  }

  /** Every series of counts is the error series of a run, whichever of the two levels the errors have. */
  lemma SeriesIsRealised(c: Config, service: string, now: Time, series: seq<nat>, level: (nat, nat) -> Level)
    requires c.Valid() && |series| == c.minSamples + 1 && ErrorLevels(level)
    ensures ErrorSeries(c, Realise(DetectionWindow(c, now), service, series, |series|, level), service, now) == series
  {
    hide Realise, ErrorStamps, EventsSince, Count;
    var w := DetectionWindow(c, now);
    var events := Realise(w, service, series, |series|, level);
    RealiseRecent(w, service, series, |series|, level);
    SinceAll(events, service, w.Edge());
    forall j: nat | j < w.buckets ensures Series(w, ErrorStamps(events))[j] == series[j] {
      RealiseCounts(w, service, series, |series|, level, j);
    }
  }

  /** In every run a z-score signal is at least every earlier bucket of the run's own error series. */
  ghost predicate RunSignalsAreMaxima(c: Config)
    requires c.Valid()
  {
    forall events, service, now :: MaximumIfSignalled(c, ErrorSeries(c, events, service, now))
  }

  ghost predicate MaximumIfSignalled(c: Config, series: seq<nat>)
    requires c.Valid() && |series| == c.minSamples + 1
  {
    ZSignal(c, series).Some? ==> forall k :: 0 <= k < c.minSamples ==> series[k] <= series[c.minSamples]
  }

  /** Exactly when the z-score signals of all runs are maxima. */
  lemma RunMaximaThreshold(c: Config)
    requires c.Valid()
    ensures RunSignalsAreMaxima(c) <==>
            c.minSamples == 1 || (c.zThreshold >= 0.0 && R.Sq(c.zThreshold) >= c.minSamples as real - 1.0)
  {
    hide ZSignal, R.Sq, ErrorSeries;
    MaximaThreshold(c);
    if SignalsAreMaxima(c) {
      assert RunSignalsAreMaxima(c);
    } else {
      var series: seq<nat>, k: nat :| |series| == c.minSamples + 1 && k < c.minSamples && ZSignal(c, series).Some?
                                      && series[k] > series[|series| - 1];
      var level := (i: nat, k: nat) => Error;
      var events := Realise(DetectionWindow(c, 0), "", series, |series|, level);
      SeriesIsRealised(c, "", 0, series, level);
      assert !MaximumIfSignalled(c, ErrorSeries(c, events, "", 0));
    }
  }

  /** With nothing stored, the run reports such a signal as an anomaly. */
  lemma SignalIsFound(c: Config, events: seq<Event>, service: string, now: Time)
    requires c.Valid() && ZSignal(c, ErrorSeries(c, events, service, now)).Some?
    ensures exists a :: a in Found(c, {}, events, service, now) && a.strategy == ZScore
  {
    hide Series, ErrorStamps, EventsSince, FoundBySignature, DriftSignal;
    var w, series := DetectionWindow(c, now), ErrorSeries(c, events, service, now);
    var recent := EventsSince(events, service, w.Edge());
    var a := ToAnomaly(service, None, ZSignal(c, series).value, w);
    assert Fresh({}, service, None, ZSignal(c, series), w) == [a];
    assert FoundByRate(c, {}, recent, service, now)[0] == a;
    assert Found(c, {}, events, service, now)[0] == a;
  }
}
