/** What one detection run finds (backend/app/detection/detection_service.py). */
module Detection {
  import opened Wrappers
  import opened Records
  import opened Detectors
  import opened Bucketing
  import opened Counting
  import opened Sorting
  import R = Reals

  /** What the duplicate check compares. */
  datatype Key = Key(service: string, signature: Option<string>, strategy: Strategy, windowStart: Time)

  function KeyOf(a: Anomaly): Key {
    Key(a.service, a.signature, a.strategy, a.windowStart)
  }

  function DetectionWindow(c: Config, now: Time): Window
    requires c.Valid()
  {
    Window(now, c.bucket, c.minSamples + 1)
  }

  /** The query: events of the service from the left edge of the window on. */
  function EventsSince(events: seq<Event>, service: string, since: Time): seq<Event> {
    if events == [] then []
    else
      var e := events[|events| - 1];
      EventsSince(events[..|events| - 1], service, since)
      + (if e.service == service && e.timestamp >= since then [e] else [])
  }

  predicate IsError(e: Event) {
    e.level == Error || e.level == Critical
  }

  function ErrorStamps(events: seq<Event>): seq<Time> {
    if events == [] then []
    else
      var e := events[|events| - 1];
      ErrorStamps(events[..|events| - 1]) + (if IsError(e) then [e.timestamp] else [])
  }

  function SignatureStamps(events: seq<Event>, signature: string): seq<Time> {
    if events == [] then []
    else
      var e := events[|events| - 1];
      SignatureStamps(events[..|events| - 1], signature) + (if e.signature == signature then [e.timestamp] else [])
  }

  /** `sorted` of the set of signatures. */
  function Signatures(events: seq<Event>): seq<string> {
    Sort(StringLe, Dedup(seq(|events|, i requires 0 <= i < |events| => events[i].signature)))
  }

  function Reals(s: seq<nat>): (r: seq<real>)
    ensures |r| == |s|
  {
    seq(|s|, i requires 0 <= i < |s| => s[i] as real)
  }

  /** All buckets but the latest. */
  function Baseline(series: seq<nat>): seq<real>
    requires series != []
  {
    Reals(series[..|series| - 1])
  }

  function Current(series: seq<nat>): real
    requires series != []
  {
    series[|series| - 1] as real
  }

  function ToAnomaly(service: string, signature: Option<string>, s: AnomalySignal, w: Window): Anomaly {
    Anomaly(service, signature, s.strategy, s.score, s.baselineValue, s.currentValue, w.now - w.bucket, w.now)
  }

  function ZSignal(c: Config, series: seq<nat>): Option<AnomalySignal>
    requires series != []
  {
    ZScoreDetect(c.zThreshold, c.minSamples, Baseline(series), Current(series))
  }

  function DriftSignal(c: Config, series: seq<nat>): Option<AnomalySignal>
    requires series != []
  {
    EwmaSignal(c.ewmaAlpha, c.ewmaDrift, c.minSamples, Baseline(series), Current(series))
  }

  function BurstSignal(c: Config, series: seq<nat>): Option<AnomalySignal>
    requires series != []
  {
    SignatureDetect(c.burstMultiplier, c.burstFloor, Baseline(series), Current(series))
  }

  /** A signal becomes an anomaly unless the committed rows already hold one with its key. */
  function Fresh(keys: set<Key>, service: string, signature: Option<string>, signal: Option<AnomalySignal>,
                 w: Window): seq<Anomaly> {
    if signal.Some? && Key(service, signature, signal.value.strategy, w.now - w.bucket) !in keys
    then [ToAnomaly(service, signature, signal.value, w)]
    else []
  }

  function FoundByRate(c: Config, keys: set<Key>, events: seq<Event>, service: string, now: Time): seq<Anomaly>
    requires c.Valid()
  {
    var w := DetectionWindow(c, now);
    var series := Series(w, ErrorStamps(events));
    Fresh(keys, service, None, ZSignal(c, series), w) + Fresh(keys, service, None, DriftSignal(c, series), w)
  }

  function FoundBySignature(c: Config, keys: set<Key>, events: seq<Event>, service: string, now: Time,
                            signatures: seq<string>): seq<Anomaly>
    requires c.Valid()
  {
    if signatures == [] then []
    else
      var w, last := DetectionWindow(c, now), signatures[|signatures| - 1];
      FoundBySignature(c, keys, events, service, now, signatures[..|signatures| - 1])
      + Fresh(keys, service, Some(last), BurstSignal(c, Series(w, SignatureStamps(events, last))), w)
  }

  /** The anomalies of one run: from the service's recent events, minus the keys already stored. */
  function Found(c: Config, keys: set<Key>, events: seq<Event>, service: string, now: Time): seq<Anomaly>
    requires c.Valid()
  {
    var recent := EventsSince(events, service, DetectionWindow(c, now).Edge());
    FoundByRate(c, keys, recent, service, now) + FoundBySignature(c, keys, recent, service, now, Signatures(recent))
  }

  /** Every anomaly is of this service and window, by one of the three strategies. */
  ghost predicate OfRun(c: Config, service: string, now: Time, a: Anomaly) {
    && a.service == service
    && a.windowStart == now - c.bucket
    && (a.signature.None? <==> a.strategy != SignatureFrequency)
  }

  ghost predicate KeysDistinct(found: seq<Anomaly>) {
    forall i, j :: 0 <= i < j < |found| ==> KeyOf(found[i]) != KeyOf(found[j])
  }

  lemma {:induction false} BySignatureShape(c: Config, keys: set<Key>, events: seq<Event>, service: string,
                                            now: Time, signatures: seq<string>)
    requires c.Valid() && Distinct(signatures)
    ensures var found := FoundBySignature(c, keys, events, service, now, signatures);
            && KeysDistinct(found)
            && forall a :: a in found ==> OfRun(c, service, now, a) && KeyOf(a) !in keys
                                          && a.signature.Some? && a.signature.value in signatures
  {
    hide Series, BurstSignal, SignatureStamps, Fresh;
    if signatures != [] {
      var init, last := signatures[..|signatures| - 1], signatures[|signatures| - 1];
      var w := DetectionWindow(c, now);
      var signal := BurstSignal(c, Series(w, SignatureStamps(events, last)));
      BySignatureShape(c, keys, events, service, now, init);
      BurstStrategy(c, Series(w, SignatureStamps(events, last)));
      FreshShape(keys, service, Some(last), signal, w);
      assert last !in init;
      assert signatures == init + [last];
      KeysDistinctAppend(FoundBySignature(c, keys, events, service, now, init),
                         Fresh(keys, service, Some(last), signal, w));
    }
  }

  lemma BurstStrategy(c: Config, series: seq<nat>)
    requires series != []
    ensures BurstSignal(c, series).Some? ==> BurstSignal(c, series).value.strategy == SignatureFrequency
  {
  }

  lemma FreshShape(keys: set<Key>, service: string, signature: Option<string>, signal: Option<AnomalySignal>, w: Window)
    ensures var found := Fresh(keys, service, signature, signal, w);
            && |found| <= 1
            && forall a :: a in found ==>
                 && signal.Some? && a.strategy == signal.value.strategy && a.service == service
                 && a.signature == signature && a.windowStart == w.now - w.bucket && KeyOf(a) !in keys
  {
  }

  lemma KeysDistinctAppend(a: seq<Anomaly>, b: seq<Anomaly>)
    requires KeysDistinct(a) && |b| <= 1 && forall x, y :: x in a && y in b ==> x.signature != y.signature
    ensures KeysDistinct(a + b)
  {
    forall i, j | 0 <= i < j < |a + b| ensures KeyOf((a + b)[i]) != KeyOf((a + b)[j]) {
      if j >= |a| { assert (a + b)[i] in a && (a + b)[j] in b; }
    }
  }

  lemma ByRateShape(c: Config, keys: set<Key>, events: seq<Event>, service: string, now: Time)
    requires c.Valid()
    ensures var found := FoundByRate(c, keys, events, service, now);
            && KeysDistinct(found)
            && forall a :: a in found ==> OfRun(c, service, now, a) && KeyOf(a) !in keys && a.signature.None?
  {
    var w := DetectionWindow(c, now);
    var series := Series(w, ErrorStamps(events));
    var z, drift := ZSignal(c, series), DriftSignal(c, series);
    assert z.Some? ==> z.value.strategy == ZScore;
    assert drift.Some? ==> drift.value.strategy == Ewma;
  }

  /** One run finds no key twice and no stored key again, although it only checks the stored ones. */
  lemma FoundShape(c: Config, keys: set<Key>, events: seq<Event>, service: string, now: Time)
    requires c.Valid()
    ensures var found := Found(c, keys, events, service, now);
            && KeysDistinct(found)
            && forall a :: a in found ==> OfRun(c, service, now, a) && KeyOf(a) !in keys
  {
    var recent := EventsSince(events, service, DetectionWindow(c, now).Edge());
    SignaturesAlphabetical(recent);
    ByRateShape(c, keys, recent, service, now);
    BySignatureShape(c, keys, recent, service, now, Signatures(recent));
    hide FoundByRate, FoundBySignature, Signatures, OfRun, EventsSince;
    var rate := FoundByRate(c, keys, recent, service, now);
    var bursts := FoundBySignature(c, keys, recent, service, now, Signatures(recent));
    assert Found(c, keys, events, service, now) == rate + bursts;
    forall i, j | 0 <= i < j < |rate + bursts| ensures KeyOf((rate + bursts)[i]) != KeyOf((rate + bursts)[j]) {
      if i < |rate| <= j { assert rate[i] in rate && bursts[j - |rate|] in bursts; }
    }
  }

  lemma SignaturesAlphabetical(events: seq<Event>)
    ensures Alphabetical(Signatures(events))
  {
    SortedStrings(Dedup(seq(|events|, i requires 0 <= i < |events| => events[i].signature)));
  }

  // ----- What a run depends on -----

  /** The two sets hold the same keys of the service. */
  ghost predicate AgreeOn(keys1: set<Key>, keys2: set<Key>, service: string) {
    forall k: Key :: k.service == service ==> (k in keys1 <==> k in keys2)
  }

  lemma {:induction false} BySignatureDepends(c: Config, keys1: set<Key>, keys2: set<Key>, events: seq<Event>,
                                              service: string, now: Time, signatures: seq<string>)
    requires c.Valid() && AgreeOn(keys1, keys2, service)
    ensures FoundBySignature(c, keys1, events, service, now, signatures) ==
            FoundBySignature(c, keys2, events, service, now, signatures)
  {
    if signatures != [] {
      BySignatureDepends(c, keys1, keys2, events, service, now, signatures[..|signatures| - 1]);
    }
  }

  /** A run depends only on the service's own stored keys and the service's own events. */
  lemma {:induction false} FoundDepends(c: Config, keys1: set<Key>, keys2: set<Key>, events1: seq<Event>,
                                        events2: seq<Event>, service: string, now: Time)
    requires c.Valid() && AgreeOn(keys1, keys2, service)
    requires EventsOf(events1, service) == EventsOf(events2, service)
    ensures Found(c, keys1, events1, service, now) == Found(c, keys2, events2, service, now)
  {
    var edge := DetectionWindow(c, now).Edge();
    SinceOfService(events1, service, edge);
    SinceOfService(events2, service, edge);
    var recent := EventsSince(events1, service, edge);
    BySignatureDepends(c, keys1, keys2, recent, service, now, Signatures(recent));
  }

  function EventsOf(events: seq<Event>, service: string): seq<Event> {
    if events == [] then []
    else
      var e := events[|events| - 1];
      EventsOf(events[..|events| - 1], service) + (if e.service == service then [e] else [])
  }

  lemma {:induction false} SinceOfService(events: seq<Event>, service: string, since: Time)
    ensures EventsSince(EventsOf(events, service), service, since) == EventsSince(events, service, since)
  {
    if events != [] {
      var init, e := events[..|events| - 1], events[|events| - 1];
      SinceOfService(init, service, since);
      if e.service == service {
        assert (EventsOf(init, service) + [e])[..|EventsOf(init, service)|] == EventsOf(init, service);
      } else {
        assert EventsOf(events, service) == EventsOf(init, service);
      }
    }
  }

  // ----- The order of the rows -----

  lemma {:induction false} EventsSinceCollects(events: seq<Event>, service: string, since: Time)
    ensures EventsSince(events, service, since) ==
            Collect((e: Event) => if e.service == service && e.timestamp >= since then [e] else [], events)
  {
    if events != [] { EventsSinceCollects(events[..|events| - 1], service, since); }
  }

  lemma {:induction false} ErrorStampsCollects(events: seq<Event>)
    ensures ErrorStamps(events) == Collect((e: Event) => if IsError(e) then [e.timestamp] else [], events)
  {
    if events != [] { ErrorStampsCollects(events[..|events| - 1]); }
  }

  lemma {:induction false} SignatureStampsCollects(events: seq<Event>, signature: string)
    ensures SignatureStamps(events, signature) ==
            Collect((e: Event) => if e.signature == signature then [e.timestamp] else [], events)
  {
    if events != [] { SignatureStampsCollects(events[..|events| - 1], signature); }
  }

  ghost predicate SameRows(a: seq<Event>, b: seq<Event>) {
    multiset(a) == multiset(b)
  }

  lemma SignaturesPermuted(a: seq<Event>, b: seq<Event>)
    requires SameRows(a, b)
    ensures Signatures(a) == Signatures(b)
  {
    SignaturesHere(a);
    SignaturesHere(b);
    hide Signatures;
    forall x ensures x in Signatures(a) <==> x in Signatures(b) {
      if x in Signatures(a) {
        var i :| 0 <= i < |a| && a[i].signature == x;
        assert a[i] in multiset(b);
      }
      if x in Signatures(b) {
        var i :| 0 <= i < |b| && b[i].signature == x;
        assert b[i] in multiset(a);
      }
    }
    SignaturesAlphabetical(a);
    SignaturesAlphabetical(b);
    AlphabeticalUnique(Signatures(a), Signatures(b));
  }

  /** The list holds exactly the signatures that occur. */
  lemma SignaturesHere(events: seq<Event>)
    ensures forall x :: x in Signatures(events) <==> exists i :: 0 <= i < |events| && events[i].signature == x
  {
    var texts := seq(|events|, i requires 0 <= i < |events| => events[i].signature);
    SortedStrings(Dedup(texts));
    assert Signatures(events) == Sort(StringLe, Dedup(texts));
    hide Sort, Signatures;
    forall x ensures x in Signatures(events) <==> exists i :: 0 <= i < |events| && events[i].signature == x {
      assert x in Signatures(events) <==> x in texts;
      if i :| 0 <= i < |events| && events[i].signature == x { assert texts[i] == x; }
      if x in texts {
        var i :| 0 <= i < |texts| && texts[i] == x;
        assert events[i].signature == x;
      }
    }
  }

  lemma {:induction false} BySignaturePermuted(c: Config, keys: set<Key>, a: seq<Event>, b: seq<Event>, service: string,
                                               now: Time, signatures: seq<string>)
    requires c.Valid() && SameRows(a, b)
    ensures FoundBySignature(c, keys, a, service, now, signatures) ==
            FoundBySignature(c, keys, b, service, now, signatures)
  {
    if signatures != [] {
      var last := signatures[|signatures| - 1];
      BySignaturePermuted(c, keys, a, b, service, now, signatures[..|signatures| - 1]);
      SignatureStampsCollects(a, last);
      SignatureStampsCollects(b, last);
      CollectPermuted((e: Event) => if e.signature == last then [e.timestamp] else [], a, b);
      SeriesPermuted(DetectionWindow(c, now), SignatureStamps(a, last), SignatureStamps(b, last));
    }
  }

  lemma ByRatePermuted(c: Config, keys: set<Key>, a: seq<Event>, b: seq<Event>, service: string, now: Time)
    requires c.Valid() && SameRows(a, b)
    ensures FoundByRate(c, keys, a, service, now) == FoundByRate(c, keys, b, service, now)
  {
    ErrorStampsCollects(a);
    ErrorStampsCollects(b);
    CollectPermuted((e: Event) => if IsError(e) then [e.timestamp] else [], a, b);
    SeriesPermuted(DetectionWindow(c, now), ErrorStamps(a), ErrorStamps(b));
  }

  /** A run finds the same anomalies in the same order, in whatever order the event rows are read. */
  lemma FoundPermuted(c: Config, keys: set<Key>, a: seq<Event>, b: seq<Event>, service: string, now: Time)
    requires c.Valid() && SameRows(a, b)
    ensures Found(c, keys, a, service, now) == Found(c, keys, b, service, now)
  {
    hide FoundByRate, FoundBySignature, Signatures, EventsSince;
    var edge := DetectionWindow(c, now).Edge();
    var x, y := EventsSince(a, service, edge), EventsSince(b, service, edge);
    EventsSinceCollects(a, service, edge);
    EventsSinceCollects(b, service, edge);
    CollectPermuted((e: Event) => if e.service == service && e.timestamp >= edge then [e] else [], a, b);
    SignaturesPermuted(x, y);
    ByRatePermuted(c, keys, x, y, service, now);
    BySignaturePermuted(c, keys, x, y, service, now, Signatures(x));
  }

  // ----- The query -----

  /** Both lists of rows give the same series of errors, and of every signature. */
  ghost predicate SameSeries(w: Window, a: seq<Event>, b: seq<Event>)
    requires w.Valid()
  {
    && Series(w, ErrorStamps(a)) == Series(w, ErrorStamps(b))
    && forall signature :: Series(w, SignatureStamps(a, signature)) == Series(w, SignatureStamps(b, signature))
  }

  /** A row may be added on both sides, and one that is too old on either. */
  lemma SameSeriesStep(w: Window, a: seq<Event>, b: seq<Event>, e: Event)
    requires w.Valid() && SameSeries(w, a, b)
    ensures SameSeries(w, a + [e], b + [e])
    ensures e.timestamp < w.Edge() ==> SameSeries(w, a, b + [e])
  {
    hide ErrorStamps, SignatureStamps, Series;
    ErrorStampsAppend(a, e);
    ErrorStampsAppend(b, e);
    AppendCounts(w, ErrorStamps(a), ErrorStamps(b), e.timestamp);
    forall signature
      ensures Series(w, SignatureStamps(a + [e], signature)) == Series(w, SignatureStamps(b + [e], signature))
      ensures e.timestamp < w.Edge() ==>
                Series(w, SignatureStamps(a, signature)) == Series(w, SignatureStamps(b + [e], signature))
    {
      SignatureStampsAppend(a, e, signature);
      SignatureStampsAppend(b, e, signature);
      AppendCounts(w, SignatureStamps(a, signature), SignatureStamps(b, signature), e.timestamp);
    }
  }

  /** The rows a query leaves out fall in no bucket. */
  lemma {:induction false} QueryIsEnough(w: Window, events: seq<Event>, service: string)
    requires w.Valid()
    ensures SameSeries(w, EventsSince(events, service, w.Edge()), EventsOf(events, service))
  {
    if events != [] {
      var init, e := events[..|events| - 1], events[|events| - 1];
      var recent, all := EventsSince(init, service, w.Edge()), EventsOf(init, service);
      QueryIsEnough(w, init, service);
      QueryStep(events, service, w.Edge());
      hide EventsSince, EventsOf, SameSeries;
      SameSeriesStep(w, recent, all, e);
      assert recent + [] == recent && all + [] == all;
    }
  }

  lemma QueryStep(events: seq<Event>, service: string, since: Time)
    requires events != []
    ensures var init, e := events[..|events| - 1], events[|events| - 1];
            && EventsOf(events, service) == EventsOf(init, service) + (if e.service == service then [e] else [])
            && EventsSince(events, service, since) ==
               EventsSince(init, service, since) + (if e.service == service && e.timestamp >= since then [e] else [])
  {
  }

  lemma ErrorStampsAppend(events: seq<Event>, e: Event)
    ensures ErrorStamps(events + [e]) == if IsError(e) then ErrorStamps(events) + [e.timestamp] else ErrorStamps(events)
  {
    assert (events + [e])[..|events|] == events;
  }

  lemma SignatureStampsAppend(events: seq<Event>, e: Event, signature: string)
    ensures SignatureStamps(events + [e], signature) ==
            if e.signature == signature then SignatureStamps(events, signature) + [e.timestamp]
            else SignatureStamps(events, signature)
  {
    assert (events + [e])[..|events|] == events;
  }

  /** Equal series stay equal under a timestamp on both sides, or under one too old on either. */
  lemma AppendCounts(w: Window, a: seq<Time>, b: seq<Time>, t: Time)
    requires w.Valid() && Series(w, a) == Series(w, b)
    ensures Series(w, a + [t]) == Series(w, b + [t])
    ensures t <= w.Edge() ==> Series(w, a) == Series(w, b + [t])
  {
    SlotExists(w, t);
    forall i | 0 <= i < w.buckets
      ensures Count(w, a + [t], i) == Count(w, b + [t], i) && (t <= w.Edge() ==> Count(w, a, i) == Count(w, b + [t], i))
    {
      assert Series(w, a)[i] == Series(w, b)[i];
      CountAppend(InSlot(w, i), a, [t]);
      CountAppend(InSlot(w, i), b, [t]);
    }
  }

  // ----- The series of the signatures -----

  function Stamps(events: seq<Event>): seq<Time> {
    if events == [] then [] else Stamps(events[..|events| - 1]) + [events[|events| - 1].timestamp]
  }

  /** Bucket i summed over the series of the signatures. */
  function SumOverSignatures(w: Window, events: seq<Event>, signatures: seq<string>, i: nat): nat
    requires w.Valid()
  {
    if signatures == [] then 0
    else
      SumOverSignatures(w, events, signatures[..|signatures| - 1], i)
      + Count(w, SignatureStamps(events, signatures[|signatures| - 1]), i)
  }

  lemma {:induction false} SumOverSignaturesStep(w: Window, events: seq<Event>, e: Event, signatures: seq<string>,
                                                 i: nat)
    requires w.Valid() && Distinct(signatures)
    ensures SumOverSignatures(w, events + [e], signatures, i) ==
            SumOverSignatures(w, events, signatures, i)
            + (if e.signature in signatures then Count(w, [e.timestamp], i) else 0)
  {
    hide Count, SignatureStamps;
    if signatures != [] {
      var init, last := signatures[..|signatures| - 1], signatures[|signatures| - 1];
      SumOverSignaturesStep(w, events, e, init, i);
      SignatureStampsAppend(events, e, last);
      CountSplit(w, SignatureStamps(events, last), e.timestamp, i);
      assert signatures == init + [last];
      if e.signature == last { assert e.signature !in init; }
    }
  }

  lemma CountSplit(w: Window, ts: seq<Time>, t: Time, i: nat)
    requires w.Valid()
    ensures Count(w, ts + [t], i) == Count(w, ts, i) + Count(w, [t], i)
  {
    CountAppend(InSlot(w, i), ts, [t]);
  }

  lemma {:induction false} SumOverAll(w: Window, events: seq<Event>, signatures: seq<string>, i: nat)
    requires w.Valid() && Distinct(signatures) && forall e :: e in events ==> e.signature in signatures
    ensures SumOverSignatures(w, events, signatures, i) == Count(w, Stamps(events), i)
  {
    if events == [] {
      SumOverNone(w, signatures, i);
    } else {
      var init, e := events[..|events| - 1], events[|events| - 1];
      assert events == init + [e];
      SumOverAll(w, init, signatures, i);
      SumOverSignaturesStep(w, init, e, signatures, i);
      CountSplit(w, Stamps(init), e.timestamp, i);
    }
  }

  lemma {:induction false} SumOverNone(w: Window, signatures: seq<string>, i: nat)
    requires w.Valid()
    ensures SumOverSignatures(w, [], signatures, i) == 0
  {
    if signatures != [] { SumOverNone(w, signatures[..|signatures| - 1], i); }
  }

  /** The series that a run makes per signature add up, bucket by bucket, to the series of all its events. */
  lemma SeriesByKeyAddUp(w: Window, events: seq<Event>, i: nat)
    requires w.Valid() && i < w.buckets
    ensures SumOverSignatures(w, events, Signatures(events), i) == Series(w, Stamps(events))[i]
  {
    SignaturesAlphabetical(events);
    SignaturesHere(events);
    hide Signatures, Count, Stamps, SumOverSignatures;
    SumOverAll(w, events, Signatures(events), i);
  }

  // ----- Running again -----

  lemma {:induction false} BySignatureAgain(c: Config, keys: set<Key>, more: set<Key>, events: seq<Event>,
                                            service: string, now: Time, signatures: seq<string>)
    requires c.Valid() && keys <= more
    requires forall a :: a in FoundBySignature(c, keys, events, service, now, signatures) ==> KeyOf(a) in more
    ensures FoundBySignature(c, more, events, service, now, signatures) == []
  {
    if signatures != [] {
      var init, last := signatures[..|signatures| - 1], signatures[|signatures| - 1];
      BySignatureAgain(c, keys, more, events, service, now, init);
      var w := DetectionWindow(c, now);
      FreshAgain(keys, more, service, Some(last), BurstSignal(c, Series(w, SignatureStamps(events, last))), w);
    }
  }

  lemma FreshAgain(keys: set<Key>, more: set<Key>, service: string, signature: Option<string>,
                   signal: Option<AnomalySignal>, w: Window)
    requires keys <= more
    requires forall a :: a in Fresh(keys, service, signature, signal, w) ==> KeyOf(a) in more
    ensures Fresh(more, service, signature, signal, w) == []
  {
    if signal.Some? && Key(service, signature, signal.value.strategy, w.now - w.bucket) !in keys {
      assert ToAnomaly(service, signature, signal.value, w) in Fresh(keys, service, signature, signal, w);
    }
  }

  /** Once its findings are stored, the same run finds nothing. */
  lemma FoundAgain(c: Config, keys: set<Key>, more: set<Key>, events: seq<Event>, service: string, now: Time)
    requires c.Valid() && keys <= more
    requires forall a :: a in Found(c, keys, events, service, now) ==> KeyOf(a) in more
    ensures Found(c, more, events, service, now) == []
  {
    var w := DetectionWindow(c, now);
    var recent := EventsSince(events, service, w.Edge());
    var series := Series(w, ErrorStamps(recent));
    assert forall a :: a in FoundByRate(c, keys, recent, service, now) ==> a in Found(c, keys, events, service, now);
    FreshAgain(keys, more, service, None, ZSignal(c, series), w);
    FreshAgain(keys, more, service, None, DriftSignal(c, series), w);
    BySignatureAgain(c, keys, more, recent, service, now, Signatures(recent));
  }

  // ----- Maxima -----

  /** A stored z-score anomaly exceeds no bucket of its window when the threshold is high enough. */
  lemma RateSpikeIsMaximum(c: Config, series: seq<nat>, k: nat)
    requires c.Valid() && |series| == c.minSamples + 1 && k < c.minSamples && c.zThreshold >= 0.0
    requires ZSignal(c, series).Some?
    ensures R.Sq(c.zThreshold) >= c.minSamples as real - 1.0 ==> series[k] <= series[|series| - 1]
    ensures R.Sq(c.zThreshold) > c.minSamples as real - 1.0 ==> series[k] < series[|series| - 1]
  {
    var baseline := Baseline(series);
    VarianceTimesSize(baseline);
    BeyondSamuelson(baseline, k, Current(series), c.zThreshold, |baseline| as real);
    assert baseline[k] == series[k] as real;
  }

  /** On every series of counts that a run can pass, a z-score signal is at least every earlier bucket. */
  ghost predicate SignalsAreMaxima(c: Config)
    requires c.Valid()
  {
    forall series: seq<nat>, k: nat ::
      |series| == c.minSamples + 1 && k < c.minSamples && ZSignal(c, series).Some? ==> series[k] <= series[|series| - 1]
  }

  /** A baseline of one bucket has no variance, so nothing is ever signalled. */
  lemma OneBucketIsQuiet(c: Config, series: seq<nat>)
    requires c.Valid() && c.minSamples == 1 && |series| == 2
    ensures ZSignal(c, series).None?
  {
    var b := Baseline(series);
    assert b == [b[0]];
    R.SingletonSums(b[0]);
    MeanFromSum(b, b[0]);
    assert Deviations(b, b[0]) == [0.0];
    R.SingletonSums(0.0);
    R.Quotient(0.0, 1.0);
  }

  /** m * n, then n - 1 empty buckets, then `last`. */
  function SpikeSeries(n: nat, m: nat, last: nat): (s: seq<nat>)
    requires n > 0
    ensures |s| == n + 1
  {
    [m * n] + seq(n - 1, _ => 0) + [last]
  }

  lemma {:induction false} CastProduct(m: nat, n: nat)
    ensures (m * n) as real == R.Mul(n as real, m as real)
  {
    if m == 0 {
      R.MulSign(n as real, 0.0);
    } else {
      CastProduct(m - 1, n);
      R.MulAdd(n as real, (m - 1) as real, 1.0);
      assert m * n == (m - 1) * n + n;
    }
  }

  lemma {:induction false} ConstantAt(x: real, n: nat, i: nat)
    requires i < n
    ensures R.Constant(x, n)[i] == x
  {
    if i > 0 { ConstantAt(x, n - 1, i - 1); }
  }

  lemma SpikeBaseline(n: nat, m: nat, last: nat)
    requires n > 0
    ensures Baseline(SpikeSeries(n, m, last)) == Spike(n, m as real)
  {
    CastProduct(m, n);
    var s := SpikeSeries(n, m, last);
    forall i | 0 <= i < n ensures Baseline(s)[i] == Spike(n, m as real)[i] {
      if i > 0 { ConstantAt(0.0, n - 1, i - 1); }
    }
  }

  /** A signal over a spike: the current count is as many deviations above m as the threshold asks. */
  lemma SpikeSignals(c: Config, m: nat, last: nat)
    requires c.Valid() && c.minSamples >= 2 && m > 0
    requires ReachesDeviations(last as real - m as real, c.zThreshold,
                               R.Mul(c.minSamples as real - 1.0, R.Sq(m as real)))
    ensures ZSignal(c, SpikeSeries(c.minSamples, m, last)).Some?
  {
    var n, x := c.minSamples, m as real;
    SpikeBaseline(n, m, last);
    SpikeMean(n, x);
    SpikeVariance(n, x);
    R.MulSign(x, x);
    R.MulSign(n as real - 1.0, R.Sq(x));
    hide Mean, Variance, Spike, ReachesDeviations;
    assert Current(SpikeSeries(n, m, last)) == last as real;
  }

  /** A natural number whose product with a positive gap is at least 1. */
  lemma Multiplier(gap: real) returns (m: nat)
    requires gap > 0.0
    ensures m > 0 && R.Mul(m as real, gap) >= 1.0
  {
    m := (1.0 / gap).Floor + 1;
    R.Quotient(1.0, gap);
    assert m as real >= 1.0 / gap;
    R.MulSign(gap, m as real - 1.0 / gap);
    R.MulAdd(gap, m as real, 1.0 / gap);
  }

  // With y >= 0 and y * y >= tt * k, m * k - 1 >= m * y is enough deviations for the spike of mean m.
  lemma SpikeReaches(t: real, k: real, y: real, m: real)
    requires t >= 0.0 && k >= 0.0 && y >= 0.0 && m > 0.0 && R.Sq(y) >= R.Mul(R.Sq(t), k)
    requires R.Mul(m, k - y) >= 1.0
    ensures ReachesDeviations(R.Mul(m, k) - 1.0, t, R.Mul(k, R.Sq(m)))
  {
    hide R.Mul, R.Sq;
    var x := R.Mul(m, k) - 1.0;
    R.MulAdd(m, k, y);
    R.MulSign(m, y);
    R.SqOrder(R.Mul(m, y), x);
    R.SqOfProduct(m, y);
    R.SqSign(m);
    R.MulSign(R.Sq(m), R.Sq(y) - R.Mul(R.Sq(t), k));
    R.MulAdd(R.Sq(m), R.Sq(y), R.Mul(R.Sq(t), k));
    R.MulAssoc(R.Sq(m), R.Sq(t), k);
    R.MulAdd(k, R.Sq(m), 0.0);
  }

  /** Below sqrt(n - 1) some counts are signalled although an earlier bucket was higher by one. */
  lemma LowThreshold(c: Config) returns (series: seq<nat>)
    requires c.Valid() && c.minSamples >= 2 && c.zThreshold >= 0.0
    requires R.Sq(c.zThreshold) < c.minSamples as real - 1.0
    ensures |series| == c.minSamples + 1 && ZSignal(c, series).Some? && series[0] == series[|series| - 1] + 1
  {
    var n, tt, k := c.minSamples, R.Sq(c.zThreshold), c.minSamples as real - 1.0;
    var y := (tt + k) / 2.0;
    R.SqSign(c.zThreshold);
    MidpointSquare(tt, k);
    var m := Multiplier(k - y);
    CastProduct(m, n);
    hide R.Mul, R.Sq;
    SpikeReaches(c.zThreshold, k, y, m as real);
    R.MulAdd(m as real, n as real, 1.0);
    MulOne(m as real);
    assert m * n >= 1;
    SpikeSignals(c, m, m * n - 1);
    series := SpikeSeries(n, m, m * n - 1);
  }

  /** A negative threshold signals even a current count at the mean. */
  lemma NegativeThreshold(c: Config) returns (series: seq<nat>)
    requires c.Valid() && c.minSamples >= 2 && c.zThreshold < 0.0
    ensures |series| == c.minSamples + 1 && ZSignal(c, series).Some? && series[0] > series[|series| - 1]
  {
    SpikeSignals(c, 1, 1);
    series := SpikeSeries(c.minSamples, 1, 1);
  }

  /** Exactly when a signal implies a maximum: thresholds of at least sqrt(n - 1), or a single baseline bucket. */
  lemma MaximaThreshold(c: Config)
    requires c.Valid()
    ensures SignalsAreMaxima(c) <==>
            c.minSamples == 1 || (c.zThreshold >= 0.0 && R.Sq(c.zThreshold) >= c.minSamples as real - 1.0)
  {
    hide ZSignal, R.Sq;
    if c.minSamples == 1 {
      forall series: seq<nat> | |series| == 2 ensures ZSignal(c, series).None? { OneBucketIsQuiet(c, series); }
    } else if c.zThreshold < 0.0 {
      var series := NegativeThreshold(c);
      assert series[0] > series[|series| - 1];
    } else if R.Sq(c.zThreshold) < c.minSamples as real - 1.0 {
      var series := LowThreshold(c);
      assert series[0] > series[|series| - 1];
    } else {
      forall series: seq<nat>, k: nat | |series| == c.minSamples + 1 && k < c.minSamples && ZSignal(c, series).Some?
        ensures series[k] <= series[|series| - 1]
      {
        RateSpikeIsMaximum(c, series, k);
      }
    }
  }

  /** The defaults, threshold 3 over 10 samples, are just enough. */
  lemma DefaultSignalsAreMaxima(c: Config)
    requires c.Valid() && c.zThreshold == 3.0 && c.minSamples == 10
    ensures SignalsAreMaxima(c)
  {
    hide SignalsAreMaxima;
    assert R.Sq(3.0) == 9.0;
    MaximaThreshold(c);
  }
}
