/**
 The services as they run: one database session whose tables the steps change in place
 (backend/app/detection, correlation, incidents, triage, alerts and pipeline). Rows that a step
 adds are committed at its end, so the queries of the same step do not see them.
 */
module Session {
  import opened Wrappers
  import opened Records
  import opened Detectors
  import opened Bucketing
  import opened Sorting
  import opened Detection
  import opened Triage
  import opened Prompts
  import opened Pipeline

  datatype NotFound = IncidentNotFound(id: nat)

  class Session {
    const env: Env
    var events: seq<Event>
    var anomalies: seq<Row>
    var incidents: seq<Incident>
    var alerts: seq<Alert>
    var records: seq<Record>

    function Snapshot(): Store
      reads this
    {
      Store(events, anomalies, incidents, alerts, records)
    }

    constructor (env: Env)
      ensures this.env == env && Snapshot() == EmptyStore()
    {
      this.env := env;
      events, anomalies, incidents, alerts, records := [], [], [], [], [];
    }

    method Ingest(batch: seq<Event>)
      modifies this`events
      ensures Snapshot() == old(Snapshot()).(events := old(events) + batch)
    {
      events := events + batch;
    }

    /** The two rate detectors on the series of errors. */
    method DetectRates(recent: seq<Event>, keys: set<Key>, service: string, now: Time) returns (found: seq<Anomaly>)
      requires env.config.Valid()
      ensures found == FoundByRate(env.config, keys, recent, service, now)
    {
      hide Series, Fresh, ZScoreDetect, EwmaSignal, Detection.Baseline, Current, ErrorStamps;
      var c, w := env.config, DetectionWindow(env.config, now);
      var series := Bucketize(ErrorStamps(recent), w);
      found := Fresh(keys, service, None, ZSignal(c, series), w);
      var drift := EwmaDetect(c.ewmaAlpha, c.ewmaDrift, c.minSamples, Detection.Baseline(series), Current(series));
      found := found + Fresh(keys, service, None, drift, w);
    }

    /** The burst detector on the series of each signature. */
    method DetectBursts(recent: seq<Event>, keys: set<Key>, service: string, now: Time, signatures: seq<string>)
      returns (found: seq<Anomaly>)
      requires env.config.Valid()
      ensures found == FoundBySignature(env.config, keys, recent, service, now, signatures)
    {
      hide Series, Fresh, BurstSignal, SignatureStamps;
      var c, w := env.config, DetectionWindow(env.config, now);
      found := [];
      for i := 0 to |signatures|
        invariant found == FoundBySignature(c, keys, recent, service, now, signatures[..i])
      {
        assert signatures[..i + 1][..i] == signatures[..i];
        var counts := Bucketize(SignatureStamps(recent, signatures[i]), w);
        found := found + Fresh(keys, service, Some(signatures[i]), BurstSignal(c, counts), w);
      }
      assert signatures[..|signatures|] == signatures;
    }

    /** Detects, keeps what the committed rows do not hold yet, and commits it. */
    method AnalyzeService(service: string, now: Time) returns (detected: seq<Anomaly>)
      requires env.config.Valid()
      modifies this`anomalies
      ensures detected == Detected(env.config, old(Snapshot()), service, now)
      ensures anomalies == old(anomalies) + Unlinked(detected)
    {
      hide FoundByRate, FoundBySignature, EventsSince, Signatures, Keys;
      var recent := EventsSince(events, service, DetectionWindow(env.config, now).Edge());
      var keys := Keys(anomalies);
      detected := DetectRates(recent, keys, service, now);
      var bursts := DetectBursts(recent, keys, service, now, Signatures(recent));
      detected := detected + bursts;
      anomalies := anomalies + Unlinked(detected);
    }

    /** Sets the incident of every row from position `from` on. */
    method Link(from: nat, k: nat)
      requires from <= |anomalies|
      modifies this`anomalies
      ensures anomalies == Linked(old(anomalies), from, k)
    {
      for i := from to |anomalies|
        invariant |anomalies| == |old(anomalies)|
        invariant forall j :: 0 <= j < |anomalies| ==>
          anomalies[j] == if from <= j < i then old(anomalies)[j].(incident := Some(k)) else old(anomalies)[j]
      {
        anomalies := anomalies[i := anomalies[i].(incident := Some(k))];
      }
    }

    method OpenIncident(service: string, from: nat, now: Time) returns (k: nat)
      requires from <= |anomalies|
      modifies this`anomalies, this`incidents
      ensures k == |old(incidents)|
      ensures incidents == old(incidents) + [NewIncident(service, |old(anomalies)| - from, now)]
      ensures anomalies == Linked(old(anomalies), from, k)
    {
      k := |incidents|;
      incidents := incidents + [NewIncident(service, |anomalies| - from, now)];
      Link(from, k);
    }

    /** The severity is derived from all anomalies linked by then. */
    method AttachAnomalies(k: nat, from: nat, now: Time)
      requires k < |incidents| && from <= |anomalies|
      modifies this`anomalies, this`incidents
      ensures anomalies == Linked(old(anomalies), from, k)
      ensures incidents == old(incidents)[k := old(incidents)[k].(
                severity := DeriveSeverity(|AnomaliesOf(anomalies, k)|), updatedAt := now)]
    {
      Link(from, k);
      var severity := DeriveSeverity(|AnomaliesOf(anomalies, k)|);
      incidents := incidents[k := incidents[k].(severity := severity, updatedAt := now)];
    }

    method Correlate(service: string, from: nat, now: Time) returns (k: Option<nat>)
      requires from <= |anomalies|
      modifies this`anomalies, this`incidents
      ensures from == |old(anomalies)| ==> k == None && Snapshot() == old(Snapshot())
      ensures from < |old(anomalies)| ==>
        && k == Some(Target(env.config, old(Snapshot()), service, now))
        && Snapshot() == Correlated(env.config, old(Snapshot()), service, from, now)
    {
      if from == |anomalies| { return None; }
      var incident := FindOpen(incidents, service, now - env.config.correlationWindow);
      if incident.None? {
        var added := OpenIncident(service, from, now);
        return Some(added);
      }
      AttachAnomalies(incident.value, from, now);
      return incident;
    }

    method UpdateStatus(k: nat, status: Status, now: Time) returns (r: Result<Incident, NotFound>)
      modifies this`incidents
      ensures Snapshot() == Updated(old(Snapshot()), k, status, now)
      ensures if k < |incidents| then r == Ok(incidents[k]) else r == Err(IncidentNotFound(k))
    {
      if k >= |incidents| { return Err(IncidentNotFound(k)); }
      var i := incidents[k].(status := status, updatedAt := now);
      if status == Resolved { i := i.(resolvedAt := Some(now)); }
      incidents := incidents[k := i];
      return Ok(i);
    }

    /** One log record per call, on success and on every handled failure. */
    method Log(k: nat, agent: Agent, prompt: string, outcome: Outcome)
      modifies this`records
      ensures records == old(records) + [Record(k, Call(agent, prompt, outcome))]
    {
      records := records + [Record(k, Call(agent, prompt, outcome))];
    }

    /**
     The four agents in order; their findings are written onto the incident at the end. A call that
     raises an exception that no agent handles ends the triage with the earlier calls logged.
     */
    method TriageIncident(k: nat, client: Client) returns (completed: bool)
      requires k < |incidents| && incidents[k].report.None?
      modifies this`incidents, this`records
      ensures completed == (TriageStop(env, client, old(Snapshot()), k) == 4)
      ensures Snapshot() == TriagedBy(env, client, old(Snapshot()), k)
    {
      hide ClassificationPrompt, RootCausePrompt, RemediationPrompt, ExecutivePrompt, IncidentSummary, TopEvents, Query;
      hide OutcomeOf, OrElse, FallbackActions, FallbackSummary, References, AnomaliesOf;
      var linked := AnomaliesOf(anomalies, k);
      var summary, top := IncidentSummary(incidents[k], linked), TopEvents(linked);
      var u, v := env.unicode, env.wording;
      ghost var t := RunTriage(Serving(env, client), incidents[k], linked, |records|);

      var prompt := ClassificationPrompt(u, v, summary, top);
      var reply1 := client.classify(|records|, prompt);
      if reply1.Raises? { return false; }
      var r1 := reply1.result;
      Log(k, Classification, prompt, OutcomeOf(r1));
      var kind := OrElse(r1, Classified(Unknown, 0.0));

      prompt := RootCausePrompt(u, v, kind.category, summary, top);
      var reply2 := client.analyze(|records|, prompt);
      if reply2.Raises? { return false; }
      var r2 := reply2.result;
      Log(k, RootCause, prompt, OutcomeOf(r2));
      var cause := OrElse(r2, Cause(FALLBACK_CAUSE, 0.0));

      var retrieved := env.retrieve(Query(kind.category, cause.rootCause, top));
      prompt := RemediationPrompt(u, v, summary, cause.rootCause, retrieved);
      var reply3 := client.recommend(|records|, prompt);
      if reply3.Raises? { return false; }
      var r3 := reply3.result;
      Log(k, Remediation, prompt, OutcomeOf(r3));
      var actions := OrElse(r3, FallbackActions());

      prompt := ExecutivePrompt(u, v, kind.category, summary, cause.rootCause, actions);
      var reply4 := client.summarize(|records|, prompt);
      if reply4.Raises? { return false; }
      var r4 := reply4.result;
      Log(k, ExecutiveSummary, prompt, OutcomeOf(r4));
      var text := OrElse(r4, FallbackSummary(kind.category, cause.rootCause));

      var report := Report(kind.category, cause.rootCause, text,
                           (kind.confidence + cause.confidence) / 2.0, actions, References(retrieved));
      incidents := incidents[k := incidents[k].(report := Some(report))];
      assert report == t.report;
      assert records == old(records) + Logged(k, t.calls);
      return true;
    }

    /** Every channel without a recent alert fires once; the new alerts are committed together. */
    method RaiseForIncident(k: nat, now: Time) returns (fired: seq<Alert>)
      modifies this`alerts
      ensures fired == Fired(env.config, old(alerts), k, now, env.config.channels)
      ensures Snapshot() == Raised(env.config, old(Snapshot()), k, now)
    {
      var c := env.config;
      fired := [];
      for i := 0 to |c.channels|
        invariant fired == Fired(c, alerts, k, now, c.channels[..i])
      {
        assert c.channels[..i + 1][..i] == c.channels[..i];
        var channel := c.channels[i];
        var key := DedupKey(k, channel);
        if ExistsSince(alerts, key, now - c.rateLimit) { continue; }
        fired := fired + [Alert(k, channel, key, now)];
      }
      assert c.channels[..|c.channels|] == c.channels;
      alerts := alerts + fired;
    }

    method ProcessService(service: string, now: Time, client: Client) returns (r: Result<Option<nat>, Unhandled>)
      requires env.config.Valid()
      modifies this
      ensures Snapshot() == ProcessedBy(env, client, old(Snapshot()), service, now)
      ensures r == if InterruptedBy(env, client, old(Snapshot()), service, now) then Err(Unhandled)
                   else Ok(Touched(env, old(Snapshot()), service, now))
    {
      hide Found, Keys, FindOpen, Linked, AnomaliesOf, DeriveSeverity, RunTriage, Fired, NewIncident;
      ghost var start := Snapshot();
      var from := |anomalies|;
      var detected := AnalyzeService(service, now);
      if detected == [] {
        assert anomalies == start.anomalies;
        return Ok(None);
      }
      var k := Correlate(service, from, now);
      assert Snapshot() == Absorbed(env.config, start, service, detected, now);
      if incidents[k.value].report.None? {
        var completed := TriageIncident(k.value, client);
        if !completed { return Err(Unhandled); }
      }
      var fired := RaiseForIncident(k.value, now);
      return Ok(k);
    }

    /** Each service once, in order of first mention, until one is interrupted. */
    method ProcessServices(services: seq<string>, now: Time, client: Client) returns (r: Result<seq<nat>, Unhandled>)
      requires env.config.Valid()
      modifies this
      ensures var all := ProcessedAllBy(env, client, old(Snapshot()), Dedup(services), now);
              Snapshot() == all.store && r == if all.interrupted then Err(Unhandled) else Ok(all.touched)
    {
      hide ProcessedBy, Touched, InterruptedBy, Dedup;
      var touched: seq<nat> := [];
      var distinct := Dedup(services);
      for i := 0 to |distinct|
        invariant ProcessedAllBy(env, client, old(Snapshot()), distinct[..i], now) == Progress(Snapshot(), touched,
                  false)
      {
        assert distinct[..i + 1][..i] == distinct[..i];
        var k := ProcessService(distinct[i], now, client);
        if k.Err? {
          InterruptedForGood(env, client, old(Snapshot()), distinct, i + 1, now);
          return Err(Unhandled);
        }
        if k.value.Some? { touched := touched + [k.value.value]; }
      }
      assert distinct[..|distinct|] == distinct;
      return Ok(touched);
    }
  }

  /** Once interrupted, a pass over the services changes nothing any more. */
  lemma {:induction false} InterruptedForGood(env: Env, client: Client, s: Store, services: seq<string>, n: nat,
                                              now: Time)
    requires env.config.Valid() && n <= |services|
    requires ProcessedAllBy(env, client, s, services[..n], now).interrupted
    ensures ProcessedAllBy(env, client, s, services, now) == ProcessedAllBy(env, client, s, services[..n], now)
  {
    hide ProcessedBy, Touched, InterruptedBy;
    if n == |services| {
      assert services[..n] == services;
    } else {
      var init := services[..|services| - 1];
      assert init[..n] == services[..n];
      InterruptedForGood(env, client, s, init, n, now);
    }
  }
}
