/**
 A burst of one signature in an otherwise empty window, which every valid configuration detects. With
 it the situations that the invariants exclude by a condition are reached by runs from empty tables.
 */
module Bursts {
  import opened Wrappers
  import opened Records
  import opened Detectors
  import opened Bucketing
  import opened Counting
  import opened Sorting
  import opened Detection
  import opened Pipeline
  import opened Invariants
  import opened Runs
  import R = Reals

  function Burst(c: Config, service: string, now: Time): (events: seq<Event>)
    ensures |events| >= 1 && |events| >= c.burstFloor
    ensures forall e :: e in events ==> e == Event(service, Info, "burst", now)
  {
    seq(if c.burstFloor > 1 then c.burstFloor else 1, _ => Event(service, Info, "burst", now))
  }

  // ----- The burst is detected -----

  lemma {:induction false} SinceAppend(a: seq<Event>, b: seq<Event>, service: string, since: Time)
    ensures EventsSince(a + b, service, since) == EventsSince(a, service, since) + EventsSince(b, service, since)
  {
    if b == [] { assert a + b == a; }
    else {
      SinceAppend(a, b[..|b| - 1], service, since);
      assert (a + b)[..|a + b| - 1] == a + b[..|b| - 1];
    }
  }

  lemma {:induction false} SinceNone(a: seq<Event>, service: string, since: Time)
    requires forall e :: e in a ==> e.timestamp < since
    ensures EventsSince(a, service, since) == []
  {
    if a != [] { SinceNone(a[..|a| - 1], service, since); }
  }

  ghost predicate AllSince(events: seq<Event>, service: string, since: Time) {
    forall i :: 0 <= i < |events| ==> events[i].service == service && events[i].timestamp >= since
  }

  lemma {:induction false} SinceAll(b: seq<Event>, service: string, since: Time)
    requires AllSince(b, service, since)
    ensures EventsSince(b, service, since) == b
  {
    if b != [] {
      QueryStep(b, service, since);
      hide EventsSince;
      SinceAll(b[..|b| - 1], service, since);
    }
  }

  /** All rows of the signature fall in the last bucket. */
  lemma {:induction false} BurstCounts(w: Window, events: seq<Event>, signature: string, i: nat)
    requires w.Valid() && i < w.buckets
    requires forall e :: e in events ==> e.signature == signature && e.timestamp == w.now
    ensures Count(w, SignatureStamps(events, signature), i) == if i == w.buckets - 1 then |events| else 0
  {
    if events != [] {
      var init := events[..|events| - 1];
      BurstCounts(w, init, signature, i);
      assert SignatureStamps(events, signature) == SignatureStamps(init, signature) + [w.now];
      CountSplit(w, SignatureStamps(init, signature), w.now, i);
      assert Slot(w, w.now) == Some(w.buckets - 1);
    }
  }

  lemma ZeroMean(s: seq<real>)
    requires s != [] && forall i :: 0 <= i < |s| ==> s[i] == 0.0
    ensures Mean(s) == 0.0
  {
    ZeroSum(s);
    R.MulSign(|s| as real, 0.0);
    MeanFromSum(s, 0.0);
  }

  lemma {:induction false} ZeroSum(s: seq<real>)
    requires forall i :: 0 <= i < |s| ==> s[i] == 0.0
    ensures R.Sum(s) == 0.0
  {
    if s != [] { ZeroSum(s[1..]); }
  }

  /** Over empty buckets a count of at least the floor is a burst, for every multiplier. */
  lemma QuietThenBurst(c: Config, series: seq<nat>)
    requires |series| > 1 && forall i :: 0 <= i < |series| - 1 ==> series[i] == 0
    requires series[|series| - 1] >= c.burstFloor
    ensures BurstSignal(c, series).Some?
  {
    ZeroMean(Baseline(series));
    hide Mean;
    R.MulSign(c.burstMultiplier, 0.0);
    R.MulAdd(c.burstMultiplier, 0.0, 0.0);
  }

  lemma {:induction false} SignatureIsFound(c: Config, keys: set<Key>, events: seq<Event>, service: string, now: Time,
                                           signatures: seq<string>, signature: string)
    requires c.Valid() && signature in signatures
    requires BurstSignal(c, Series(DetectionWindow(c, now), SignatureStamps(events, signature))).Some?
    requires forall key :: key in keys ==> key.windowStart != now - c.bucket
    ensures FoundBySignature(c, keys, events, service, now, signatures) != []
  {
    hide BurstSignal, Series, SignatureStamps;
    var init, last := signatures[..|signatures| - 1], signatures[|signatures| - 1];
    assert signatures == init + [last];
    if last != signature { SignatureIsFound(c, keys, events, service, now, init, signature); }
  }

  /** A burst after a window without events is found. */
  lemma BurstIsFound(c: Config, keys: set<Key>, before: seq<Event>, service: string, now: Time)
    requires c.Valid() && forall e :: e in before ==> e.timestamp < DetectionWindow(c, now).Edge()
    requires forall key :: key in keys ==> key.windowStart != now - c.bucket
    ensures Found(c, keys, before + Burst(c, service, now), service, now) != []
  {
    hide FoundByRate, FoundBySignature, Signatures, EventsSince, SignatureStamps, BurstSignal, Burst;
    var w, burst := DetectionWindow(c, now), Burst(c, service, now);
    ProductNonNegative(w.buckets, w.bucket);
    SinceAppend(before, burst, service, w.Edge());
    SinceNone(before, service, w.Edge());
    assert forall i :: 0 <= i < |burst| ==> burst[i] in burst;
    SinceAll(burst, service, w.Edge());
    assert EventsSince(before + burst, service, w.Edge()) == [] + burst == burst;
    var series := Series(w, SignatureStamps(burst, "burst"));
    forall i: nat | i < w.buckets ensures series[i] == if i == w.buckets - 1 then |burst| else 0 {
      BurstCounts(w, burst, "burst", i);
    }
    QuietThenBurst(c, series);
    SignaturesHere(burst);
    assert burst[0] in burst;
    SignatureIsFound(c, keys, burst, service, now, Signatures(burst), "burst");
  }

  // ----- Processing it -----

  /** r is s with one more incident, of this service, open and touched now, and with its alerts. */
  ghost predicate Opens(c: Config, s: Store, r: Store, service: string, now: Time) {
    var n := |s.incidents|;
    && |r.incidents| == n + 1 && r.incidents[..n] == s.incidents
    && r.incidents[n].service == service && r.incidents[n].status == Open && r.incidents[n].updatedAt == now
    && r.alerts == s.alerts + Fired(c, s.alerts, n, now, c.channels)
    && r.events == s.events
  }

  /** Findings for a service without a live incident open one, and leave the other incidents alone. */
  lemma ProcessedOpens(env: Env, s: Store, service: string, now: Time)
    requires env.config.Valid() && Detected(env.config, s, service, now) != []
    requires forall k :: 0 <= k < |s.incidents| && s.incidents[k].service == service ==>
               !Live(s.incidents[k], now - env.config.correlationWindow)
    ensures Opens(env.config, s, Processed(env, s, service, now), service, now)
  {
    hide Found, Absorbed, TriagedAt, Target, Fired, Keys, Live, DeriveSeverity;
    var c, found, n := env.config, Detected(env.config, s, service, now), |s.incidents|;
    var k, a := Target(c, s, service, now), Absorbed(c, s, service, found, now);
    TargetLive(c, s, service, now);
    AbsorbedIncidents(c, s, service, found, now);
    TriagedShape(env, a, k);
  }

  /** The anomalies a run stores are those of its window. */
  lemma ProcessedKeys(env: Env, s: Store, service: string, now: Time)
    requires env.config.Valid()
    ensures forall key :: key in Keys(Processed(env, s, service, now).anomalies) ==>
              key in Keys(s.anomalies) || key.windowStart == now - env.config.bucket
  {
    hide Found, Absorbed, TriagedAt, Target, Fired, Keys, KeyOf;
    var c, found := env.config, Detected(env.config, s, service, now);
    if found != [] {
      var k, a := Target(c, s, service, now), Absorbed(c, s, service, found, now);
      TriagedShape(env, a, k);
      AbsorbedKeysOnly(c, s, service, now);
    }
  }

  lemma AbsorbedKeysOnly(c: Config, s: Store, service: string, now: Time)
    requires c.Valid()
    ensures forall key :: key in Keys(Absorbed(c, s, service, Detected(c, s, service, now), now).anomalies) ==>
              key in Keys(s.anomalies) || key.windowStart == now - c.bucket
  {
    hide Found, Absorbed, Target, KeysDistinct;
    var found := Detected(c, s, service, now);
    var rows := Absorbed(c, s, service, found, now).anomalies;
    FoundShape(c, Keys(s.anomalies), s.events, service, now);
    AbsorbedRows(c, s, service, found, now);
    forall key | key in Keys(rows) ensures key in Keys(s.anomalies) || key.windowStart == now - c.bucket {
      var i :| 0 <= i < |rows| && KeyOf(rows[i].anomaly) == key;
      if i < |s.anomalies| { assert rows[i] == s.anomalies[i]; }
      else { assert found[i - |s.anomalies|] in found; }
    }
  }

  // ----- Repeated channels -----

  function BurstRun(c: Config, service: string): seq<Step> {
    [Ingest(Burst(c, service, 0)), Process(service, 0)]
  }

  lemma BurstRunStore(env: Env, service: string)
    requires env.config.Valid()
    ensures var c, s := env.config, EmptyStore().(events := Burst(env.config, service, 0));
            && Run(env, BurstRun(c, service)) == Processed(env, s, service, 0)
            && Detected(c, s, service, 0) != []
  {
    hide Processed, Found, Burst;
    var burst, none: seq<Step> := Burst(env.config, service, 0), [];
    assert Run(env, none) == EmptyStore() && EmptyStore().events + burst == burst;
    RunAppend(env, none, Ingest(burst));
    RunAppend(env, none + [Ingest(burst)], Process(service, 0));
    assert none + [Ingest(burst)] + [Process(service, 0)] == BurstRun(env.config, service);
    hide Run;
    BurstIsFound(env.config, {}, [], service, 0);
    assert Keys([]) == {};
  }

  /** Exactly with distinct channel names the alerts of every run are spaced by the rate limit. */
  lemma SpacingNeedsDistinctChannels(env: Env)
    requires env.config.Valid()
    ensures Distinct(env.config.channels) <==> forall steps :: Spaced(Run(env, steps).alerts, env.config.rateLimit)
  {
    hide Spaced, Run, BurstRun, Processed, Detected, Distinct, Fired;
    if Distinct(env.config.channels) {
      forall steps ensures Spaced(Run(env, steps).alerts, env.config.rateLimit) { RunSpaced(env, steps); }
    } else {
      var s := EmptyStore().(events := Burst(env.config, "", 0));
      BurstRunStore(env, "");
      ProcessedOpens(env, s, "", 0);
      RepeatedChannel(env.config);
      assert [] + Fired(env.config, [], 0, 0, env.config.channels) == Fired(env.config, [], 0, 0, env.config.channels);
      assert !Spaced(Run(env, BurstRun(env.config, "")).alerts, env.config.rateLimit);
    }
  }

  // ----- Reopening beside a live incident -----

  /** When the first burst has left the detection window. */
  function Later(c: Config): Time {
    (c.minSamples + 1) * c.bucket + 1
  }

  lemma LaterIsLater(c: Config)
    requires c.Valid()
    ensures Later(c) > 0 && DetectionWindow(c, Later(c)).Edge() == 1
  {
    ProductNonNegative(c.minSamples + 1, c.bucket);
  }

  /** An incident resolved at once, and a second one for the next burst. */
  function SecondBurstRun(c: Config, service: string): seq<Step> {
    BurstRun(c, service) + [Patch(0, Resolved, 0)]
    + [Ingest(Burst(c, service, Later(c)))] + [Process(service, Later(c))]
  }

  /** One resolved incident of the service, the first burst, and the keys of its window. */
  ghost predicate ResolvedOne(c: Config, s: Store, service: string) {
    && |s.incidents| == 1 && s.incidents[0].service == service && s.incidents[0].status == Resolved
    && s.events == Burst(c, service, 0)
    && forall key :: key in Keys(s.anomalies) ==> key.windowStart == 0 - c.bucket
  }

  lemma AfterResolution(env: Env, service: string)
    requires env.config.Valid()
    ensures ResolvedOne(env.config, Run(env, BurstRun(env.config, service) + [Patch(0, Resolved, 0)]), service)
  {
    hide Run, BurstRun, Processed, Detected, Keys, Burst, Live;
    var c, s0 := env.config, EmptyStore().(events := Burst(env.config, service, 0));
    RunAppend(env, BurstRun(c, service), Patch(0, Resolved, 0));
    BurstRunStore(env, service);
    ProcessedOpens(env, s0, service, 0);
    ProcessedKeys(env, s0, service, 0);
    NoKeys();
  }

  lemma NoKeys()
    ensures Keys(EmptyStore().anomalies) == {}
  {
  }

  /** A resolved incident and a later open one of the same service. */
  ghost predicate ResolvedThenOpen(s: Store, service: string, at: Time) {
    && |s.incidents| == 2 && s.incidents[0].service == service == s.incidents[1].service
    && s.incidents[0].status == Resolved && s.incidents[1].status == Open && s.incidents[1].updatedAt == at
  }

  lemma SecondBurstStore(env: Env, service: string)
    requires env.config.Valid()
    ensures ResolvedThenOpen(Run(env, SecondBurstRun(env.config, service)), service, Later(env.config))
  {
    hide Run, BurstRun, Processed, Found, Keys, Burst, Later;
    var c, at := env.config, Later(env.config);
    var steps := BurstRun(c, service) + [Patch(0, Resolved, 0)];
    var s := Run(env, steps);
    AfterResolution(env, service);
    LaterIsLater(c);
    RunAppend(env, steps, Ingest(Burst(c, service, at)));
    RunAppend(env, steps + [Ingest(Burst(c, service, at))], Process(service, at));
    BurstIsFound(c, Keys(s.anomalies), s.events, service, at);
    ProcessedOpens(env, s.(events := s.events + Burst(c, service, at)), service, at);
  }

  lemma OrderlyNext(env: Env, steps: seq<Step>, step: Step)
    requires env.config.Valid() && Orderly(env, steps)
    requires Permitted(env.config, Run(env, steps), Clock(steps), step)
    ensures Orderly(env, steps + [step])
    ensures Clock(steps + [step]) == if step.Ingest? then Clock(steps) else Some(step.now)
  {
    hide Run, Permitted;
    assert (steps + [step])[..|steps|] == steps;
  }

  lemma SecondBurstOrderly(env: Env, service: string)
    requires env.config.Valid()
    ensures Orderly(env, SecondBurstRun(env.config, service))
    ensures Clock(SecondBurstRun(env.config, service)) == Some(Later(env.config))
  {
    hide Run, Burst, Later, Orderly, Clock, Safe;
    var c, at := env.config, Later(env.config);
    var a: seq<Step> := [];
    assert Orderly(env, a) && Clock(a) == None by { NothingYet(env); }
    var b := a + [Ingest(Burst(c, service, 0))];
    OrderlyNext(env, a, Ingest(Burst(c, service, 0)));
    OrderlyNext(env, b, Process(service, 0));
    assert b + [Process(service, 0)] == BurstRun(c, service);
    var d := BurstRun(c, service);
    ResolvingIsSafe(c, Run(env, d), 0, 0);
    OrderlyNext(env, d, Patch(0, Resolved, 0));
    OrderlyNext(env, d + [Patch(0, Resolved, 0)], Ingest(Burst(c, service, at)));
    LaterIsLater(c);
    OrderlyNext(env, d + [Patch(0, Resolved, 0)] + [Ingest(Burst(c, service, at))], Process(service, at));
  }

  lemma NothingYet(env: Env)
    requires env.config.Valid()
    ensures Orderly(env, []) && Clock([]) == None
  {
    hide Run;
  }

  lemma ResolvingIsSafe(c: Config, s: Store, k: nat, now: Time)
    ensures Safe(c, s, k, Resolved, now)
  {
  }

  lemma UnsafeReopening(c: Config, s: Store, service: string, now: Time)
    requires ResolvedThenOpen(s, service, now)
    ensures !Safe(c, s, 0, Open, now)
  {
    assert Live(s.incidents[1], now - c.correlationWindow);
  }

  /** After these steps no service has two live incidents, but reopening incident 0 gives one two. */
  ghost predicate ReopeningBreaks(env: Env, steps: seq<Step>, now: Time)
    requires env.config.Valid()
  {
    hide Run, OneLive, Safe;
    && OneLive(env.config, Run(env, steps), now)
    && !Safe(env.config, Run(env, steps), 0, Open, now)
    && !OneLive(env.config, Run(env, steps + [Patch(0, Open, now)]), now)
  }

  lemma UnsafeBreaks(env: Env, steps: seq<Step>, now: Time)
    requires env.config.Valid() && OneLive(env.config, Run(env, steps), now)
    requires !Safe(env.config, Run(env, steps), 0, Open, now)
    ensures ReopeningBreaks(env, steps, now)
  {
    hide Run, OneLive, Safe, Updated;
    PatchKeepsOneLive(env.config, Run(env, steps), 0, Open, now);
    RunAppend(env, steps, Patch(0, Open, now));
  }

  /**
   For every valid configuration an orderly run reaches a state where reopening the first incident
   gives its service two live ones.
   */
  lemma ReopeningBreaksOneLive(env: Env, service: string)
    requires env.config.Valid()
    ensures Orderly(env, SecondBurstRun(env.config, service))
    ensures ReopeningBreaks(env, SecondBurstRun(env.config, service), Later(env.config))
  {
    hide *;
    var steps, now := SecondBurstRun(env.config, service), Later(env.config);
    SecondBurstStore(env, service);
    SecondBurstOrderly(env, service);
    RunOneLive(env, steps, now);
    UnsafeReopening(env.config, Run(env, steps), service, now);
    UnsafeBreaks(env, steps, now);
  }
}
