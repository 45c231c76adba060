/**
 The whole effect of a run for a service on the tables, with or without an interruption, and the dates that
 incidents carry (backend/app/pipeline/pipeline_service.py:44-54, backend/app/incidents/incident_service.py).
 */
module Outcomes {
  import opened Wrappers
  import opened Records
  import opened Counting
  import opened Detection
  import opened Triage
  import opened Pipeline
  import opened Sorting
  import opened Invariants
  import opened Runs
  import opened Interruptions

  // ----- Alerts of one call -----

  function OnChannel(channel: string): Alert -> bool {
    (a: Alert) => a.channel == channel
  }

  /** An alert about incident k on this channel, no older than since. */
  ghost predicate RecentAlert(alerts: seq<Alert>, k: nat, channel: string, since: Time) {
    exists i :: 0 <= i < |alerts| && alerts[i].incident == k && alerts[i].channel == channel &&
      alerts[i].createdAt >= since
  }

  ghost predicate Keyed(alerts: seq<Alert>) {
    forall i :: 0 <= i < |alerts| ==> alerts[i].dedupKey == DedupKey(alerts[i].incident, alerts[i].channel)
  }

  /** The check by key is a check by incident and channel. */
  lemma RecentIff(alerts: seq<Alert>, k: nat, channel: string, since: Time)
    requires Keyed(alerts)
    ensures ExistsSince(alerts, DedupKey(k, channel), since) <==> RecentAlert(alerts, k, channel, since)
  {
    hide DedupKey;
    if ExistsSince(alerts, DedupKey(k, channel), since) {
      var i :| 0 <= i < |alerts| && alerts[i].dedupKey == DedupKey(k, channel) && alerts[i].createdAt >= since;
      DedupKeyInjective(alerts[i].incident, alerts[i].channel, k, channel);
    }
  }

  /** A call alerts a channel as often as it is listed, and not at all if it has a recent alert. */
  lemma {:induction false} FiredPerChannel(c: Config, alerts: seq<Alert>, k: nat, now: Time, channels: seq<string>,
                                           channel: string)
    requires Keyed(alerts)
    ensures CountIf(OnChannel(channel), Fired(c, alerts, k, now, channels)) ==
            if RecentAlert(alerts, k, channel, now - c.rateLimit) then 0 else multiset(channels)[channel]
  {
    hide ExistsSince, DedupKey, CountIf, Keyed, RecentAlert;
    if channels == [] { NoneCounted(channel); }
    else {
      var init, last := channels[..|channels| - 1], channels[|channels| - 1];
      assert channels == init + [last];
      FiredPerChannel(c, alerts, k, now, init, channel);
      RecentIff(alerts, k, last, now - c.rateLimit);
      var more := if ExistsSince(alerts, DedupKey(k, last), now - c.rateLimit) then []
        else [Alert(k, last, DedupKey(k, last), now)];
      CountAppend(OnChannel(channel), Fired(c, alerts, k, now, init), more);
      OneCounted(channel, Alert(k, last, DedupKey(k, last), now));
      NoneCounted(channel);
    }
  }

  lemma NoneCounted(channel: string)
    ensures CountIf(OnChannel(channel), []) == 0
  {
  }

  lemma OneCounted(channel: string, a: Alert)
    ensures CountIf(OnChannel(channel), [a]) == if a.channel == channel then 1 else 0
  {
  }

  // ----- One run -----

  /** The new rows are linked to incident k. */
  ghost predicate RowsJoin(s: Store, r: Store, found: seq<Anomaly>, k: nat) {
    && |r.anomalies| == |s.anomalies| + |found|
    && (forall i :: 0 <= i < |s.anomalies| ==> r.anomalies[i] == s.anomalies[i])
    && (forall i :: 0 <= i < |found| ==> r.anomalies[|s.anomalies| + i] == Row(found[i], Some(k)))
  }

  /** Incident k is dated now, its severity counts its anomalies, and no other incident changes. */
  ghost predicate IncidentGrows(s: Store, r: Store, k: nat, service: string, now: Time) {
    && k <= |s.incidents| && |r.incidents| == (if k == |s.incidents| then |s.incidents| + 1 else |s.incidents|)
    && (forall j :: 0 <= j < |s.incidents| && j != k ==> r.incidents[j] == s.incidents[j])
    && r.incidents[k].service == service && r.incidents[k].updatedAt == now
    && r.incidents[k].severity == DeriveSeverity(|AnomaliesOf(r.anomalies, k)|)
    && (k < |s.incidents| ==>
          && r.incidents[k].status == s.incidents[k].status && r.incidents[k].createdAt == s.incidents[k].createdAt
          && r.incidents[k].resolvedAt == s.incidents[k].resolvedAt
          && (s.incidents[k].report.Some? ==> r.incidents[k].report == s.incidents[k].report))
    && (k == |s.incidents| ==>
          r.incidents[k].status == Open && r.incidents[k].createdAt == now && r.incidents[k].resolvedAt == None)
  }

  /** The new alerts are about incident k, dated now, one kind for each channel, or there are none. */
  ghost predicate AlertsGrow(c: Config, s: Store, r: Store, k: nat, now: Time, done: bool) {
    && s.alerts <= r.alerts
    && (forall i :: |s.alerts| <= i < |r.alerts| ==>
          done && r.alerts[i].incident == k && r.alerts[i].createdAt == now && r.alerts[i].channel in c.channels)
    && (done ==> forall channel :: channel in c.channels ==>
          RecentAlert(r.alerts, k, channel, now - c.rateLimit))
  }

  /** A run without findings changes nothing and returns no incident. */
  lemma QuietRun(env: Env, client: Client, s: Store, service: string, now: Time)
    requires env.config.Valid() && Detected(env.config, s, service, now) == []
    ensures ProcessedBy(env, client, s, service, now) == s && Touched(env, s, service, now) == None
  {
    hide Found, RunStop;
    NothingFound(Serving(env, client), s, service, now, RunStop(env, client, s, service, now));
  }

  /**
   A run with findings links them to one incident of the service, which it returns: the live one touched last, or
   a new one. Every channel is alerted about it if nothing raises, and otherwise none is.
   */
  lemma BusyRun(env: Env, client: Client, s: Store, service: string, now: Time)
    requires env.config.Valid() && AllLinked(s) && Keyed(s.alerts) && Detected(env.config, s, service, now) != []
    ensures var c, r := env.config, ProcessedBy(env, client, s, service, now);
            var k, done := Target(c, s, service, now), !InterruptedBy(env, client, s, service, now);
            && Touched(env, s, service, now) == Some(k) && r.events == s.events
            && RowsJoin(s, r, Detected(c, s, service, now), k)
            && IncidentGrows(s, r, k, service, now)
            && AlertsGrow(c, s, r, k, now, done)
            && (done ==> Reported(r, k))
  {
    hide Found, Absorbed, TriagedUntil, Target, RunStop, RowsJoin, IncidentGrows, AlertsGrow, Fired, AllLinked, Keyed;
    var c, e, stop := env.config, Serving(env, client), RunStop(env, client, s, service, now);
    var k, found := Target(c, s, service, now), Detected(c, s, service, now);
    var a := Absorbed(c, s, service, found, now);
    var t := TriagedUntil(e, a, k, stop);
    AbsorbedGrows(c, s, service, found, now);
    AbsorbedIncidents(c, s, service, found, now);
    TriageGrows(e, s, a, found, k, service, now, stop);
    if InterruptedBy(env, client, s, service, now) { NoAlertsGrow(c, s, t, k, now); }
    else { RaisedGrows(c, s, t, found, k, service, now); }
  }

  lemma AbsorbedGrows(c: Config, s: Store, service: string, found: seq<Anomaly>, now: Time)
    requires found != [] && AllLinked(s)
    ensures var k, a := Target(c, s, service, now), Absorbed(c, s, service, found, now);
            RowsJoin(s, a, found, k) && IncidentGrows(s, a, k, service, now)
  {
    hide Target, DeriveSeverity, AnomaliesOf, AllLinked, Absorbed;
    var k := Target(c, s, service, now);
    TargetOfService(c, s, service, now);
    AbsorbedIncidents(c, s, service, found, now);
    AbsorbedRows(c, s, service, found, now);
    AbsorbedCounts(c, s, service, found, now, k);
    NoneYet(s);
  }

  /** A triage changes of the tables the log and at most the report of its incident. */
  lemma TriageGrows(env: Env, s: Store, a: Store, found: seq<Anomaly>, k: nat, service: string, now: Time, stop: nat)
    requires k < |a.incidents| && RowsJoin(s, a, found, k) && IncidentGrows(s, a, k, service, now)
    ensures var t := TriagedUntil(env, a, k, stop);
            && RowsJoin(s, t, found, k) && IncidentGrows(s, t, k, service, now)
            && t.events == a.events && t.alerts == a.alerts && k < |t.incidents|
            && (t.incidents[k].report.Some? <==> stop >= 4 || a.incidents[k].report.Some?)
  {
    hide TriagedUntil, CallsUntil, Logged, DeriveSeverity, AnomaliesOf;
    if a.incidents[k].report.Some? { AlreadyTriaged(env, a, k, stop); } else { UntilShape(env, a, k, stop); }
  }

  lemma NoAlertsGrow(c: Config, s: Store, t: Store, k: nat, now: Time)
    requires t.alerts == s.alerts
    ensures AlertsGrow(c, s, t, k, now, false)
  {
  }

  lemma RaisedGrows(c: Config, s: Store, t: Store, found: seq<Anomaly>, k: nat, service: string, now: Time)
    requires Keyed(s.alerts) && t.alerts == s.alerts && RowsJoin(s, t, found, k) && IncidentGrows(s, t, k, service, now)
    ensures var r := Raised(c, t, k, now);
            AlertsGrow(c, s, r, k, now, true) && RowsJoin(s, r, found, k) && IncidentGrows(s, r, k, service, now)
  {
    hide Fired, ExistsSince, DedupKey, AnomaliesOf, DeriveSeverity, RecentAlert;
    var r := Raised(c, t, k, now);
    FiredShape(c, t.alerts, k, now, c.channels);
    forall i | |s.alerts| <= i < |r.alerts|
      ensures r.alerts[i].incident == k && r.alerts[i].createdAt == now && r.alerts[i].channel in c.channels
    {
      assert r.alerts[i] in Fired(c, t.alerts, k, now, c.channels);
    }
    assert forall i :: 0 <= i < |s.alerts| ==> r.alerts[i] == s.alerts[i];
    assert forall i :: |s.alerts| <= i < |r.alerts| ==> r.alerts[i] in Fired(c, t.alerts, k, now, c.channels);
    forall channel | channel in c.channels ensures RecentAlert(r.alerts, k, channel, now - c.rateLimit) {
      EveryChannelAlerted(c, t, k, now, channel);
      RecentIff(r.alerts, k, channel, now - c.rateLimit);
    }
  }

  // ----- The dates of incidents -----

  /** The step changes incident k of s, or opens it. */
  predicate Touches(env: Env, s: Store, step: Step, k: nat)
    requires env.config.Valid()
  {
    hide Detected, Target;
    match step
    case Ingest(_) => false
    case Process(service, now) =>
      Detected(env.config, s, service, now) != [] && Target(env.config, s, service, now) == k
    case Patch(id, _, _) => id == k < |s.incidents|
  }

  function TimeOfStep(step: Step): Time
    requires !step.Ingest?
  {
    match step case Process(_, now) => now case Patch(_, _, now) => now
  }

  function FirstTouch(env: Env, attempts: seq<Attempt>, k: nat): Option<Time>
    requires env.config.Valid()
  {
    hide ApplyBy, Touches;
    if attempts == [] then None
    else
      var init, last := attempts[..|attempts| - 1], attempts[|attempts| - 1].step;
      var before := FirstTouch(env, init, k);
      if before.None? && !last.Ingest? && Touches(env, RunBy(env, init), last, k)
        then Some(TimeOfStep(last)) else before
  }

  function LastTouch(env: Env, attempts: seq<Attempt>, k: nat): Option<Time>
    requires env.config.Valid()
  {
    hide ApplyBy, Touches;
    if attempts == [] then None
    else
      var init, last := attempts[..|attempts| - 1], attempts[|attempts| - 1].step;
      if !last.Ingest? && Touches(env, RunBy(env, init), last, k) then Some(TimeOfStep(last))
      else LastTouch(env, init, k)
  }

  /** Incident k carries these dates; without one it does not exist. */
  ghost predicate Dated(s: Store, k: nat, first: Option<Time>, last: Option<Time>) {
    && (k < |s.incidents| <==> first.Some?) && (first.Some? <==> last.Some?)
    && (k < |s.incidents| ==> s.incidents[k].createdAt == first.value && s.incidents[k].updatedAt == last.value)
  }

  /** What a step that makes r of s does to the dates of incident k. */
  ghost predicate DatesStep(s: Store, r: Store, step: Step, k: nat, touches: bool) {
    && (touches ==> k <= |s.incidents| && !step.Ingest?)
    && (k < |r.incidents| <==> k < |s.incidents| || touches)
    && (k < |s.incidents| ==> k < |r.incidents| && r.incidents[k].createdAt == s.incidents[k].createdAt)
    && (touches && k >= |s.incidents| ==> r.incidents[k].createdAt == TimeOfStep(step))
    && (touches ==> r.incidents[k].updatedAt == TimeOfStep(step))
    && (k < |s.incidents| && !touches ==> r.incidents[k].updatedAt == s.incidents[k].updatedAt)
  }

  lemma StepDates(env: Env, s: Store, a: Attempt, k: nat)
    requires env.config.Valid() && AllLinked(s) && Keyed(s.alerts)
    ensures DatesStep(s, ApplyBy(env, s, a), a.step, k, Touches(env, s, a.step, k))
  {
    hide Detected, Target, ProcessedBy, AllLinked, Keyed, RunStop, AlertsGrow, RowsJoin, AnomaliesOf, DeriveSeverity,
      Processed,
      InterruptedBy;
    if a.step.Process? {
      if Detected(env.config, s, a.step.service, a.step.now) == [] {
        QuietRun(env, a.client, s, a.step.service, a.step.now);
      } else {
        BusyRun(env, a.client, s, a.step.service, a.step.now);
      }
    }
  }

  /** In every run an incident is dated by the first and by the last step that touched it. */
  lemma {:induction false} RunDated(env: Env, attempts: seq<Attempt>, k: nat)
    requires env.config.Valid()
    ensures Dated(RunBy(env, attempts), k, FirstTouch(env, attempts, k), LastTouch(env, attempts, k))
  {
    hide ApplyBy, Touches, Sound, TimeOfStep, Keyed, AllLinked;
    if attempts != [] {
      var init, last := attempts[..|attempts| - 1], attempts[|attempts| - 1];
      RunDated(env, init, k);
      InterruptedRunSound(env, init);
      SoundLinked(RunBy(env, init));
      StepDates(env, RunBy(env, init), last, k);
    }
  }

  lemma SoundLinked(s: Store)
    requires Sound(s)
    ensures AllLinked(s) && Keyed(s.alerts)
  {
    hide AllLinked, DedupKey, KeysUnique, SeveritiesDerived, LogsAttempted, AlertedTriaged;
  }
}
