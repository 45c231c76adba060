/**
 What a run finds, told by the rows of the table: how many events of a service lie in each bucket, which of the
 three detectors speak on these numbers, and which keys are stored (backend/app/detection/detection_service.py).
 */
module Findings {
  import opened Wrappers
  import opened Records
  import opened Detectors
  import opened Bucketing
  import opened Counting
  import opened Sorting
  import opened Detection
  import opened Realised

  // ----- Buckets -----

  /** t lies in bucket j of a run at now; the last bucket takes everything newer in. */
  predicate InBucket(c: Config, now: Time, j: nat, t: Time) {
    && t > now - (c.minSamples + 1 - j) * c.bucket
    && (j < c.minSamples ==> t <= now - (c.minSamples - j) * c.bucket)
  }

  lemma SlotIsBucket(c: Config, now: Time, j: nat, t: Time)
    requires c.Valid() && j <= c.minSamples
    ensures Slot(DetectionWindow(c, now), t) == Some(j) <==> InBucket(c, now, j, t)
  {
    var m := c.minSamples - j;
    ProductNonNegative(m, c.bucket);
    if t <= now {
      DivideBound(now - t, c.bucket, m);
      DivideBound(now - t, c.bucket, m + 1);
    } else {
      assert (m + 1) * c.bucket == m * c.bucket + c.bucket;
      if m >= 1 { AtLeastOnce(m, c.bucket); }
    }
  }

  /** The errors of the service in bucket j: the rows of level ERROR and CRITICAL. */
  ghost function ErrorRows(c: Config, events: seq<Event>, service: string, now: Time, j: nat): set<nat> {
    set i | 0 <= i < |events| && events[i].service == service && InBucket(c, now, j, events[i].timestamp)
            && (events[i].level == Error || events[i].level == Critical)
  }

  /** The events of the service with this signature in bucket j, of any level. */
  ghost function SignatureRows(c: Config, events: seq<Event>, service: string, now: Time, signature: string, j: nat)
    : set<nat>
  {
    set i | 0 <= i < |events| && events[i].service == service && InBucket(c, now, j, events[i].timestamp)
            && events[i].signature == signature
  }

  lemma BucketIsRecent(c: Config, now: Time, j: nat, t: Time)
    requires c.Valid() && j <= c.minSamples && InBucket(c, now, j, t)
    ensures t >= DetectionWindow(c, now).Edge()
  {
    ProductNonNegative(j, c.bucket);
    assert (c.minSamples + 1 - j) * c.bucket == (c.minSamples + 1) * c.bucket - j * c.bucket;
  }

  lemma ErrorRowsStep(c: Config, events: seq<Event>, service: string, now: Time, j: nat)
    requires events != []
    ensures var n, e := |events| - 1, events[|events| - 1];
            |ErrorRows(c, events, service, now, j)| == |ErrorRows(c, events[..n], service, now, j)| +
            if e.service == service && InBucket(c, now, j, e.timestamp) && (e.level == Error || e.level == Critical)
              then 1 else 0
  {
    hide InBucket;
    var n, e := |events| - 1, events[|events| - 1];
    var here := e.service == service && InBucket(c, now, j, e.timestamp) && (e.level == Error || e.level == Critical);
    assert ErrorRows(c, events, service, now, j) ==
           ErrorRows(c, events[..n], service, now, j) + if here then {n} else {};
  }

  lemma {:induction false} ErrorCounts(c: Config, events: seq<Event>, service: string, now: Time, j: nat)
    requires c.Valid() && j <= c.minSamples
    ensures var w := DetectionWindow(c, now);
            Count(w, ErrorStamps(EventsSince(events, service, w.Edge())), j) ==
            |ErrorRows(c, events, service, now, j)|
  {
    hide InBucket, Count, ErrorStamps, ErrorRows, Slot;
    var w := DetectionWindow(c, now);
    if events == [] {
      NoErrorRows(c, service, now, j);
      NoStamps();
      NoCount(w, j);
    } else {
      var n, e := |events| - 1, events[|events| - 1];
      var recent := EventsSince(events[..n], service, w.Edge());
      ErrorCounts(c, events[..n], service, now, j);
      ErrorRowsStep(c, events, service, now, j);
      SlotIsBucket(c, now, j, e.timestamp);
      if InBucket(c, now, j, e.timestamp) { BucketIsRecent(c, now, j, e.timestamp); }
      ErrorStampsAppend(recent, e);
      OneMore(w, ErrorStamps(recent), e.timestamp, j);
      assert recent + [] == recent;
    }
  }

  lemma NoErrorRows(c: Config, service: string, now: Time, j: nat)
    ensures ErrorRows(c, [], service, now, j) == {}
  {
  }

  lemma OneMore(w: Window, ts: seq<Time>, t: Time, j: nat)
    requires w.Valid()
    ensures Count(w, ts + [t], j) == Count(w, ts, j) + if Slot(w, t) == Some(j) then 1 else 0
  {
    hide Slot;
    assert (ts + [t])[..|ts|] == ts;
  }

  lemma NoCount(w: Window, j: nat)
    requires w.Valid()
    ensures Count(w, [], j) == 0
  {
  }

  lemma SignatureRowsStep(c: Config, events: seq<Event>, service: string, now: Time, signature: string, j: nat)
    requires events != []
    ensures var n, e := |events| - 1, events[|events| - 1];
            |SignatureRows(c, events, service, now, signature, j)| ==
            |SignatureRows(c, events[..n], service, now, signature, j)| +
            if e.service == service && InBucket(c, now, j, e.timestamp) && e.signature == signature then 1 else 0
  {
    hide InBucket;
    var n, e := |events| - 1, events[|events| - 1];
    var here := e.service == service && InBucket(c, now, j, e.timestamp) && e.signature == signature;
    assert SignatureRows(c, events, service, now, signature, j) ==
           SignatureRows(c, events[..n], service, now, signature, j) + if here then {n} else {};
  }

  lemma {:induction false} SignatureCounts(c: Config, events: seq<Event>, service: string, now: Time,
                                           signature: string, j: nat)
    requires c.Valid() && j <= c.minSamples
    ensures var w := DetectionWindow(c, now);
            Count(w, SignatureStamps(EventsSince(events, service, w.Edge()), signature), j) ==
            |SignatureRows(c, events, service, now, signature, j)|
  {
    hide InBucket, Count, SignatureStamps, SignatureRows, Slot;
    var w := DetectionWindow(c, now);
    if events == [] {
      NoSignatureRows(c, service, now, signature, j);
      NoSignatureStamps(signature);
      NoCount(w, j);
    } else {
      var n, e := |events| - 1, events[|events| - 1];
      var recent := EventsSince(events[..n], service, w.Edge());
      SignatureCounts(c, events[..n], service, now, signature, j);
      SignatureRowsStep(c, events, service, now, signature, j);
      SlotIsBucket(c, now, j, e.timestamp);
      if InBucket(c, now, j, e.timestamp) { BucketIsRecent(c, now, j, e.timestamp); }
      SignatureStampsAppend(recent, e, signature);
      OneMore(w, SignatureStamps(recent, signature), e.timestamp, j);
      assert recent + [] == recent;
    }
  }

  lemma NoSignatureRows(c: Config, service: string, now: Time, signature: string, j: nat)
    ensures SignatureRows(c, [], service, now, signature, j) == {}
  {
  }

  lemma NoSignatureStamps(signature: string)
    ensures SignatureStamps([], signature) == []
  {
  }

  // ----- The series -----

  /** The numbers of errors, oldest bucket first. */
  ghost function ErrorNumbers(c: Config, events: seq<Event>, service: string, now: Time): (r: seq<real>)
    requires c.Valid()
    ensures |r| == c.minSamples + 1
    ensures forall j :: 0 <= j <= c.minSamples ==> r[j] == |ErrorRows(c, events, service, now, j)| as real
  {
    seq(c.minSamples + 1, j requires 0 <= j <= c.minSamples => |ErrorRows(c, events, service, now, j)| as real)
  }

  ghost function SignatureNumbers(c: Config, events: seq<Event>, service: string, now: Time,
                                  signature: string): (r: seq<real>)
    requires c.Valid()
    ensures |r| == c.minSamples + 1
    ensures forall j :: 0 <= j <= c.minSamples ==>
              r[j] == |SignatureRows(c, events, service, now, signature, j)| as real
  {
    seq(c.minSamples + 1, j requires 0 <= j <= c.minSamples =>
      |SignatureRows(c, events, service, now, signature, j)| as real)
  }

  lemma BaselineAndCurrent(series: seq<nat>, r: seq<real>)
    requires series != [] && |r| == |series| && forall j :: 0 <= j < |r| ==> r[j] == series[j] as real
    ensures Baseline(series) == r[..|r| - 1] && Current(series) == r[|r| - 1]
  {
  }

  lemma ErrorsInNumbers(c: Config, events: seq<Event>, service: string, now: Time)
    requires c.Valid()
    ensures var w, r := DetectionWindow(c, now), ErrorNumbers(c, events, service, now);
            var series := Series(w, ErrorStamps(EventsSince(events, service, w.Edge())));
            Baseline(series) == r[..c.minSamples] && Current(series) == r[c.minSamples]
  {
    hide ErrorRows, ErrorStamps, EventsSince, Count;
    var w, r := DetectionWindow(c, now), ErrorNumbers(c, events, service, now);
    var series := Series(w, ErrorStamps(EventsSince(events, service, w.Edge())));
    forall j: nat | j <= c.minSamples ensures r[j] == series[j] as real { ErrorCounts(c, events, service, now, j); }
    BaselineAndCurrent(series, r);
  }

  lemma SignatureInNumbers(c: Config, events: seq<Event>, service: string, now: Time, signature: string)
    requires c.Valid()
    ensures var w, r := DetectionWindow(c, now), SignatureNumbers(c, events, service, now, signature);
            var series := Series(w, SignatureStamps(EventsSince(events, service, w.Edge()), signature));
            Baseline(series) == r[..c.minSamples] && Current(series) == r[c.minSamples]
  {
    hide SignatureRows, SignatureStamps, EventsSince, Count;
    var w, r := DetectionWindow(c, now), SignatureNumbers(c, events, service, now, signature);
    var series := Series(w, SignatureStamps(EventsSince(events, service, w.Edge()), signature));
    forall j: nat | j <= c.minSamples ensures r[j] == series[j] as real {
      SignatureCounts(c, events, service, now, signature, j);
    }
    BaselineAndCurrent(series, r);
  }

  // ----- The findings -----

  /** a is what the run makes of this signal: its numbers, and the last bucket as its window. */
  ghost predicate Says(c: Config, signal: Option<AnomalySignal>, service: string, signature: Option<string>, now: Time,
                       a: Anomaly) {
    signal.Some? &&
    var s := signal.value;
    a == Anomaly(service, signature, s.strategy, s.score, s.baselineValue, s.currentValue, now - c.bucket, now)
  }

  ghost predicate SaidByRate(c: Config, events: seq<Event>, service: string, now: Time, a: Anomaly)
    requires c.Valid()
  {
    var n, r := c.minSamples, ErrorNumbers(c, events, service, now);
    || Says(c, ZScoreDetect(c.zThreshold, n, r[..n], r[n]), service, None, now, a)
    || Says(c, EwmaSignal(c.ewmaAlpha, c.ewmaDrift, n, r[..n], r[n]), service, None, now, a)
  }

  ghost predicate SaidOf(c: Config, events: seq<Event>, service: string, now: Time, signature: string, a: Anomaly)
    requires c.Valid()
  {
    var n, r := c.minSamples, SignatureNumbers(c, events, service, now, signature);
    Says(c, SignatureDetect(c.burstMultiplier, c.burstFloor, r[..n], r[n]), service, Some(signature), now, a)
  }

  /** An event of the service with this signature is in the window or at its edge. */
  ghost predicate Occurs(c: Config, events: seq<Event>, service: string, now: Time, signature: string) {
    exists e :: e in events && e.service == service && e.signature == signature &&
      e.timestamp >= now - (c.minSamples + 1) * c.bucket
  }

  lemma {:induction false} SinceIff(events: seq<Event>, service: string, since: Time, e: Event)
    ensures e in EventsSince(events, service, since) <==> e in events && e.service == service && e.timestamp >= since
  {
    if events != [] {
      SinceIff(events[..|events| - 1], service, since, e);
      assert events == events[..|events| - 1] + [events[|events| - 1]];
    }
  }

  lemma OccursIff(c: Config, events: seq<Event>, service: string, now: Time, signature: string)
    requires c.Valid()
    ensures Occurs(c, events, service, now, signature) <==>
            signature in Signatures(EventsSince(events, service, DetectionWindow(c, now).Edge()))
  {
    hide EventsSince;
    var edge := DetectionWindow(c, now).Edge();
    var recent := EventsSince(events, service, edge);
    var names := seq(|recent|, i requires 0 <= i < |recent| => recent[i].signature);
    SortedStrings(Dedup(names));
    forall e ensures e in recent <==> e in events && e.service == service && e.timestamp >= edge {
      SinceIff(events, service, edge, e);
    }
    if signature in names { var i :| 0 <= i < |names| && names[i] == signature; assert recent[i] in recent; }
    if Occurs(c, events, service, now, signature) {
      var e :| e in events && e.service == service && e.signature == signature && e.timestamp >= edge;
      var i :| 0 <= i < |recent| && recent[i] == e;
      assert names[i] == signature;
    }
  }

  lemma FreshIff(c: Config, keys: set<Key>, service: string, signature: Option<string>, signal: Option<AnomalySignal>,
                 now: Time, a: Anomaly)
    requires c.Valid()
    ensures a in Fresh(keys, service, signature, signal, DetectionWindow(c, now)) <==>
            Says(c, signal, service, signature, now, a) && KeyOf(a) !in keys
  {
  }

  lemma RateIff(c: Config, keys: set<Key>, events: seq<Event>, service: string, now: Time, a: Anomaly)
    requires c.Valid()
    ensures a in FoundByRate(c, keys, EventsSince(events, service, DetectionWindow(c, now).Edge()), service, now) <==>
            SaidByRate(c, events, service, now, a) && KeyOf(a) !in keys
  {
    hide ErrorStamps, EventsSince, Series, Fresh, Says, Baseline, Current, ZScoreDetect, EwmaSignal, KeyOf;
    var w := DetectionWindow(c, now);
    var series := Series(w, ErrorStamps(EventsSince(events, service, w.Edge())));
    ErrorsInNumbers(c, events, service, now);
    FreshIff(c, keys, service, None, ZSignal(c, series), now, a);
    FreshIff(c, keys, service, None, DriftSignal(c, series), now, a);
  }

  lemma {:induction false} BurstsIff(c: Config, keys: set<Key>, events: seq<Event>, service: string, now: Time,
                                     signatures: seq<string>, a: Anomaly)
    requires c.Valid()
    ensures a in FoundBySignature(c, keys, EventsSince(events, service, DetectionWindow(c, now).Edge()), service, now,
                                  signatures) <==>
            (exists g :: g in signatures && SaidOf(c, events, service, now, g, a)) && KeyOf(a) !in keys
  {
    hide SignatureStamps, EventsSince, Series, Fresh, BurstSignal, KeyOf, SaidOf;
    if signatures != [] {
      var init, last := signatures[..|signatures| - 1], signatures[|signatures| - 1];
      assert signatures == init + [last];
      BurstsIff(c, keys, events, service, now, init, a);
      BurstIff(c, keys, events, service, now, last, a);
    }
  }

  lemma BurstIff(c: Config, keys: set<Key>, events: seq<Event>, service: string, now: Time, signature: string,
                 a: Anomaly)
    requires c.Valid()
    ensures var w := DetectionWindow(c, now);
            var series := Series(w, SignatureStamps(EventsSince(events, service, w.Edge()), signature));
            a in Fresh(keys, service, Some(signature), BurstSignal(c, series), w) <==>
            SaidOf(c, events, service, now, signature, a) && KeyOf(a) !in keys
  {
    hide SignatureStamps, EventsSince, Series, Fresh, Says, Baseline, Current, SignatureDetect, KeyOf;
    var w := DetectionWindow(c, now);
    var series := Series(w, SignatureStamps(EventsSince(events, service, w.Edge()), signature));
    SignatureInNumbers(c, events, service, now, signature);
    FreshIff(c, keys, service, Some(signature), BurstSignal(c, series), now, a);
  }

  /**
   A run finds exactly what the three detectors say of the numbers of rows in the buckets, the burst detector of
   every signature that occurs in the window, unless an anomaly with the same key is stored.
   */
  lemma FoundIff(c: Config, keys: set<Key>, events: seq<Event>, service: string, now: Time, a: Anomaly)
    requires c.Valid()
    ensures a in Found(c, keys, events, service, now) <==>
            && Key(a.service, a.signature, a.strategy, a.windowStart) !in keys
            && (SaidByRate(c, events, service, now, a) ||
                exists g :: Occurs(c, events, service, now, g) && SaidOf(c, events, service, now, g, a))
  {
    hide EventsSince, FoundByRate, FoundBySignature, Signatures, SaidByRate, SaidOf, Occurs;
    var signatures := Signatures(EventsSince(events, service, DetectionWindow(c, now).Edge()));
    RateIff(c, keys, events, service, now, a);
    BurstsIff(c, keys, events, service, now, signatures, a);
    forall g ensures Occurs(c, events, service, now, g) <==> g in signatures { OccursIff(c, events, service, now, g); }
  }

  // ----- Levels -----

  /** The rows differ in their levels only, and no row changes sides between errors and the rest. */
  ghost predicate SameKinds(a: seq<Event>, b: seq<Event>) {
    |a| == |b| && forall i :: 0 <= i < |a| ==>
      && b[i] == a[i].(level := b[i].level)
      && (a[i].level == Error || a[i].level == Critical <==> b[i].level == Error || b[i].level == Critical)
  }

  lemma {:induction false} SinceSameKinds(a: seq<Event>, b: seq<Event>, service: string, since: Time)
    requires SameKinds(a, b)
    ensures SameKinds(EventsSince(a, service, since), EventsSince(b, service, since))
  {
    if a != [] {
      var n := |a| - 1;
      assert SameKinds(a[..n], b[..n]);
      SinceSameKinds(a[..n], b[..n], service, since);
    }
  }

  lemma {:induction false} StampsSameKinds(a: seq<Event>, b: seq<Event>)
    requires SameKinds(a, b)
    ensures ErrorStamps(a) == ErrorStamps(b)
    ensures forall g :: SignatureStamps(a, g) == SignatureStamps(b, g)
    ensures Signatures(a) == Signatures(b)
  {
    hide Sort, Dedup, Signatures;
    if a != [] {
      assert SameKinds(a[..|a| - 1], b[..|b| - 1]);
      StampsSameKinds(a[..|a| - 1], b[..|b| - 1]);
    }
    SignaturesSameKinds(a, b);
  }

  lemma SignaturesSameKinds(a: seq<Event>, b: seq<Event>)
    requires SameKinds(a, b)
    ensures Signatures(a) == Signatures(b)
  {
    assert seq(|a|, i requires 0 <= i < |a| => a[i].signature) == seq(|b|, i requires 0 <= i < |b| => b[i].signature);
  }

  lemma {:induction false} BurstsSameKinds(c: Config, keys: set<Key>, a: seq<Event>, b: seq<Event>, service: string,
                                           now: Time, signatures: seq<string>)
    requires c.Valid() && forall g :: SignatureStamps(a, g) == SignatureStamps(b, g)
    ensures FoundBySignature(c, keys, a, service, now, signatures) ==
            FoundBySignature(c, keys, b, service, now, signatures)
  {
    hide SignatureStamps, Fresh, BurstSignal, Series;
    if signatures != [] { BurstsSameKinds(c, keys, a, b, service, now, signatures[..|signatures| - 1]); }
  }

  /** ERROR or CRITICAL, INFO or WARN: a run finds the same. */
  lemma LevelsByKind(c: Config, keys: set<Key>, a: seq<Event>, b: seq<Event>, service: string, now: Time)
    requires c.Valid() && SameKinds(a, b)
    ensures Found(c, keys, a, service, now) == Found(c, keys, b, service, now)
  {
    hide EventsSince, FoundBySignature, Signatures, SameKinds, ErrorStamps, SignatureStamps, Fresh, Series, ZSignal,
      DriftSignal;
    var edge := DetectionWindow(c, now).Edge();
    var x, y := EventsSince(a, service, edge), EventsSince(b, service, edge);
    SinceSameKinds(a, b, service, edge);
    StampsSameKinds(x, y);
    BurstsSameKinds(c, keys, x, y, service, now, Signatures(x));
  }
}
