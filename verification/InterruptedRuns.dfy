/**
 Interruptions change reports, log and alerts only. So what correlation and status changes make of the
 incidents holds of interrupted runs as it does of others, and what is known of alerts, prompts and the risk
 score is proved for them directly.
 */
module InterruptedRuns {
  import opened Wrappers
  import R = Regex
  import opened Records
  import opened Detection
  import opened Triage
  import opened Prompts
  import opened Pipeline
  import opened Sorting
  import opened Invariants
  import opened Cases
  import opened Runs
  import opened SessionWindows
  import opened Independence
  import opened Risk
  import opened Interruptions

  // ----- The core of the tables -----

  /** The tables without reports, log and alerts. */
  function Core(s: Store): Store {
    Stripped(s).(alerts := [])
  }

  /** A step on the core: detection, correlation and status changes. */
  function CoreStep(c: Config, s: Store, step: Step): Store
    requires c.Valid()
  {
    match step
    case Ingest(batch) => s.(events := s.events + batch)
    case Process(service, now) =>
      var found := Detected(c, s, service, now);
      if found == [] then s else Absorbed(c, s, service, found, now)
    case Patch(id, status, now) => Updated(s, id, status, now)
  }

  lemma AbsorbedCore(c: Config, s: Store, service: string, found: seq<Anomaly>, now: Time)
    ensures Core(Absorbed(c, s, service, found, now)) == Absorbed(c, Core(s), service, found, now)
  {
    AbsorbedStripped(c, s, service, found, now);
    hide Stripped;
    AbsorbedSilently(c, Stripped(s), service, found, now);
  }

  lemma AbsorbedSilently(c: Config, s: Store, service: string, found: seq<Anomaly>, now: Time)
    ensures Absorbed(c, s.(alerts := []), service, found, now) == Absorbed(c, s, service, found, now).(alerts := [])
  {
    hide Target, AnomaliesOf, DeriveSeverity, Linked, Unlinked, Detected;
    SameTargetSilently(c, s, service, now);
    SameTargetSilently(c, s.(anomalies := s.anomalies + Unlinked(found)), service, now);
  }

  lemma SameTargetSilently(c: Config, s: Store, service: string, now: Time)
    ensures Target(c, s.(alerts := []), service, now) == Target(c, s, service, now)
  {
    hide FindOpen;
  }

  lemma UntilCore(env: Env, s: Store, k: nat, stop: nat)
    requires k < |s.incidents|
    ensures Core(TriagedUntil(env, s, k, stop)) == Core(s)
  {
    hide TriagedUntil, CallsUntil, Logged;
    if s.incidents[k].report.Some? { AlreadyTriaged(env, s, k, stop); }
    else {
      UntilShape(env, s, k, stop);
      assert Unreported(TriagedUntil(env, s, k, stop).incidents) == Unreported(s.incidents);
    }
  }

  lemma RaisedCore(c: Config, s: Store, k: nat, now: Time)
    ensures Core(Raised(c, s, k, now)) == Core(s)
  {
    hide Fired, Unreported;
  }

  lemma ProcessedUntilCore(env: Env, s: Store, service: string, now: Time, stop: nat)
    requires env.config.Valid()
    ensures Core(ProcessedUntil(env, s, service, now, stop)) == CoreStep(env.config, Core(s), Process(service, now))
  {
    hide Found, Absorbed, Target, TriagedUntil, Raised, Keys, Core;
    var c, found := env.config, Detected(env.config, s, service, now);
    DetectedCore(c, s, service, now);
    if found != [] {
      var k, a := Target(c, s, service, now), Absorbed(c, s, service, found, now);
      AbsorbedCore(c, s, service, found, now);
      UntilCore(env, a, k, stop);
      RaisedCore(c, TriagedUntil(env, a, k, stop), k, now);
    }
  }

  lemma DetectedCore(c: Config, s: Store, service: string, now: Time)
    requires c.Valid()
    ensures Detected(c, Core(s), service, now) == Detected(c, s, service, now)
  {
    hide Found, Keys, Unreported;
  }

  lemma UpdatedCore(c: Config, s: Store, k: nat, status: Status, now: Time)
    requires c.Valid()
    ensures Core(Updated(s, k, status, now)) == CoreStep(c, Core(s), Patch(k, status, now))
  {
    hide Detected, Absorbed;
    UpdatedStripped(s, k, status, now);
    hide Stripped;
  }

  lemma IngestCore(c: Config, s: Store, batch: seq<Event>)
    requires c.Valid()
    ensures Core(s.(events := s.events + batch)) == CoreStep(c, Core(s), Ingest(batch))
  {
    hide Detected, Absorbed, Updated;
  }

  lemma ApplyByCore(env: Env, s: Store, a: Attempt)
    requires env.config.Valid()
    ensures Core(ApplyBy(env, s, a)) == CoreStep(env.config, Core(s), a.step)
  {
    hide Core, CoreStep, Updated, Processed, ProcessedUntil, RunStop;
    match a.step
    case Ingest(batch) => IngestCore(env.config, s, batch);
    case Process(service, now) =>
      ProcessedUntilCore(Serving(env, a.client), s, service, now, RunStop(env, a.client, s, service, now));
    case Patch(id, status, now) => UpdatedCore(env.config, s, id, status, now);
  }

  lemma ApplyCore(env: Env, s: Store, step: Step)
    requires env.config.Valid()
    ensures Core(Apply(env, s, step)) == CoreStep(env.config, Core(s), step)
  {
    hide Core, CoreStep, Updated, Processed, ProcessedUntil;
    match step
    case Ingest(batch) => IngestCore(env.config, s, batch);
    case Process(service, now) =>
      ProcessedUntilCore(env, s, service, now, 4);
      NeverInterrupted(env, s, service, now, 4);
    case Patch(id, status, now) => UpdatedCore(env.config, s, id, status, now);
  }

  function StepsOf(attempts: seq<Attempt>): (steps: seq<Step>)
    ensures |steps| == |attempts| && forall i :: 0 <= i < |steps| ==> steps[i] == attempts[i].step
  {
    seq(|attempts|, i requires 0 <= i < |attempts| => attempts[i].step)
  }

  /** Whatever the clients do, a run leaves the core that the same steps leave without interruptions. */
  lemma {:induction false} InterruptionsAreMarginal(env: Env, attempts: seq<Attempt>)
    requires env.config.Valid()
    ensures Core(RunBy(env, attempts)) == Core(Run(env, StepsOf(attempts)))
  {
    hide Core, CoreStep, Apply, ApplyBy;
    if attempts != [] {
      var n, steps := |attempts| - 1, StepsOf(attempts);
      InterruptionsAreMarginal(env, attempts[..n]);
      assert steps[..n] == StepsOf(attempts[..n]);
      ApplyByCore(env, RunBy(env, attempts[..n]), attempts[n]);
      ApplyCore(env, Run(env, steps[..n]), steps[n]);
    }
  }

  /** The two stores agree on everything but reports, log and alerts. */
  ghost predicate SameCore(s: Store, r: Store) {
    && r.events == s.events && r.anomalies == s.anomalies && |r.incidents| == |s.incidents|
    && forall k :: 0 <= k < |s.incidents| ==> r.incidents[k].(report := None) == s.incidents[k].(report := None)
  }

  lemma CoreMeans(s: Store, r: Store)
    requires Core(s) == Core(r)
    ensures SameCore(s, r)
  {
    forall k | 0 <= k < |s.incidents| ensures r.incidents[k].(report := None) == s.incidents[k].(report := None) {
      assert Core(s).incidents[k] == Core(r).incidents[k];
    }
  }

  lemma RunsSameCore(env: Env, attempts: seq<Attempt>)
    requires env.config.Valid()
    ensures SameCore(Run(env, StepsOf(attempts)), RunBy(env, attempts))
  {
    hide Core, Run, RunBy, SameCore;
    InterruptionsAreMarginal(env, attempts);
    CoreMeans(Run(env, StepsOf(attempts)), RunBy(env, attempts));
  }

  // ----- Incidents -----

  /** No step lowers a severity, interrupted or not. */
  lemma InterruptedSeverityNeverFalls(env: Env, s: Store, a: Attempt)
    requires env.config.Valid() && SeveritiesDerived(s)
    ensures NoSeverityFalls(s, ApplyBy(env, s, a))
  {
    hide Core, CoreStep, Apply, ApplyBy, SeveritiesDerived;
    ApplyByCore(env, s, a);
    ApplyCore(env, s, a.step);
    CoreMeans(Apply(env, s, a.step), ApplyBy(env, s, a));
    SeverityNeverFalls(env, s, a.step);
    SameSeverities(s, Apply(env, s, a.step), ApplyBy(env, s, a));
  }

  lemma SameSeverities(s: Store, m: Store, r: Store)
    requires NoSeverityFalls(s, m) && SameCore(m, r)
    ensures NoSeverityFalls(s, r)
  {
    forall k: nat | k < |s.incidents| ensures s.incidents[k].severity.Rank() <= r.incidents[k].severity.Rank() {
      assert r.incidents[k].(report := None) == m.incidents[k].(report := None);
    }
  }

  /** In an orderly run no service ever has two live incidents, interrupted or not. */
  lemma InterruptedRunOneLive(env: Env, attempts: seq<Attempt>, now: Time)
    requires env.config.Valid() && Orderly(env, StepsOf(attempts))
    requires Clock(StepsOf(attempts)).Some? ==> Clock(StepsOf(attempts)).value <= now
    ensures OneLive(env.config, RunBy(env, attempts), now)
  {
    hide Run, RunBy, Orderly, Clock, OneLive;
    var s, r := Run(env, StepsOf(attempts)), RunBy(env, attempts);
    RunOneLive(env, StepsOf(attempts), now);
    RunsSameCore(env, attempts);
    forall k: nat | k < |s.incidents|
      ensures r.incidents[k].service == s.incidents[k].service && r.incidents[k].status == s.incidents[k].status
      ensures r.incidents[k].updatedAt == s.incidents[k].updatedAt
    {
      assert r.incidents[k].(report := None) == s.incidents[k].(report := None);
    }
    OneLiveSame(env.config, s, r, now);
  }

  /** An incident has the status it was last given and carries the time it was last resolved. */
  lemma InterruptedRunStamped(env: Env, attempts: seq<Attempt>, k: nat)
    requires env.config.Valid() && k < |RunBy(env, attempts).incidents|
    ensures var i, steps := RunBy(env, attempts).incidents[k], StepsOf(attempts);
            && i.status == LastStatus(env, steps, k)
            && i.resolvedAt == LastResolution(env, steps, k)
            && (i.status == Resolved ==> i.resolvedAt.Some?)
  {
    hide Run, RunBy, LastStatus, LastResolution;
    var s, r := Run(env, StepsOf(attempts)), RunBy(env, attempts);
    RunsSameCore(env, attempts);
    RunStamped(env, StepsOf(attempts), k);
    assert r.incidents[k].(report := None) == s.incidents[k].(report := None);
  }

  /** The incidents of an undisturbed service are the sessions of its batches, interrupted or not. */
  lemma InterruptedIncidentsAreSessions(env: Env, attempts: seq<Attempt>, service: string)
    requires env.config.Valid() && Undisturbed(env, StepsOf(attempts), service)
    ensures AreSessions(service, CasesOf(RunBy(env, attempts), service),
                        Sessions(BatchesOf(env, StepsOf(attempts), service), env.config.correlationWindow))
  {
    hide Run, RunBy, Undisturbed, AreSessions, CasesOf, Sessions, BatchesOf, TimeOrdered, Outlines, StepsOf, SameCore;
    var steps, w := StepsOf(attempts), env.config.correlationWindow;
    var s, r := Run(env, steps), RunBy(env, attempts);
    IncidentsAreSessions(env, steps, service);
    RunsSameCore(env, attempts);
    CoreIsButReports(s, r, service);
    OutlinesKept(s, r, service);
    SameOutlines(service, CasesOf(s, service), CasesOf(r, service), Sessions(BatchesOf(env, steps, service), w));
  }

  lemma CoreIsButReports(s: Store, r: Store, service: string)
    requires SameCore(s, r)
    ensures SameButReports(s, r, service)
  {
    forall k | 0 <= k < |s.incidents| ensures r.incidents[k].service == s.incidents[k].service {
      assert r.incidents[k].(report := None) == s.incidents[k].(report := None);
    }
  }

  // ----- Alerts -----

  /** A run for a service appends the alerts of one call, or none. */
  lemma AlertsBy(env: Env, s: Store, service: string, now: Time, stop: nat)
    requires env.config.Valid()
    ensures var c, r := env.config, ProcessedUntil(env, s, service, now, stop);
            || r.alerts == s.alerts
            || r.alerts == Raised(c, s, Target(c, s, service, now), now).alerts
  {
    hide Found, Absorbed, Target, TriagedUntil, Fired, CallsUntil, Logged;
    var c, found := env.config, Detected(env.config, s, service, now);
    if found != [] {
      var k, a := Target(c, s, service, now), Absorbed(c, s, service, found, now);
      AbsorbedIncidents(c, s, service, found, now);
      if a.incidents[k].report.Some? { AlreadyTriaged(env, a, k, stop); } else { UntilShape(env, a, k, stop); }
    }
  }

  /** With distinct channels the alerts of every run are spaced, interrupted or not. */
  lemma {:induction false} InterruptedRunSpaced(env: Env, attempts: seq<Attempt>)
    requires env.config.Valid() && Distinct(env.config.channels)
    ensures Spaced(RunBy(env, attempts).alerts, env.config.rateLimit)
  {
    hide ApplyBy, Distinct;
    if attempts != [] {
      InterruptedRunSpaced(env, attempts[..|attempts| - 1]);
      AppliedSpaced(env, RunBy(env, attempts[..|attempts| - 1]), attempts[|attempts| - 1]);
    }
  }

  lemma AppliedSpaced(env: Env, s: Store, a: Attempt)
    requires env.config.Valid() && Distinct(env.config.channels) && Spaced(s.alerts, env.config.rateLimit)
    ensures Spaced(ApplyBy(env, s, a).alerts, env.config.rateLimit)
  {
    hide ProcessedUntil, Processed, Raised, RunStop, Target, Spaced, Distinct, Updated;
    var c := env.config;
    if a.step.Process? {
      var service, now := a.step.service, a.step.now;
      AlertsBy(Serving(env, a.client), s, service, now, RunStop(env, a.client, s, service, now));
      RaisedSpaced(c, s, Target(c, s, service, now), now);
    } else {
      SameAlerts(env, s, a.step);
    }
  }

  lemma SameAlerts(env: Env, s: Store, step: Step)
    requires env.config.Valid() && !step.Process?
    ensures Apply(env, s, step).alerts == s.alerts
  {
    hide Processed;
  }

  // ----- Prompts -----

  /** The last logged call of a triaged incident is its executive summary. */
  ghost predicate LastExecutive(calls: seq<Call>, report: Report) {
    calls != [] && (Once(calls[|calls| - 1].prompt) <==> forall i :: 0 <= i < |report.actions| ==>
      Clean(report.actions[i]))
  }

  ghost predicate LastExecutives(s: Store) {
    forall k: nat :: k < |s.incidents| && s.incidents[k].report.Some? ==>
      LastExecutive(CallsOf(s.records, k), s.incidents[k].report.value)
  }

  lemma PrefixClosed(records: seq<Record>, k: nat, t: Triaged, n: nat)
    requires PromptsClosed(records) && ClosedOnce(t) && n <= 4
    ensures PromptsClosed(records + Logged(k, t.calls[..n]))
  {
    hide Once, Clean;
    var all, m := records + Logged(k, t.calls[..n]), |records|;
    assert FourAgents()[3] == ExecutiveSummary && Agents(t.calls)[3] == t.calls[3].agent;
    forall i | 0 <= i < |all| && all[i].call.agent != ExecutiveSummary ensures Once(all[i].call.prompt) {
      if i < m { assert all[i] == records[i]; }
      else { assert all[i].call == t.calls[i - m]; }
    }
  }

  lemma ClosedLast(calls: seq<Call>, t: Triaged)
    requires ClosedOnce(t)
    ensures LastExecutive(calls + t.calls, t.report)
  {
    hide Once, Clean;
  }

  lemma UntilClosed(env: Env, s: Store, k: nat, stop: nat)
    requires R.Sane(env.unicode) && k < |s.incidents| && PromptsClosed(s.records) && LastExecutives(s)
    ensures PromptsClosed(TriagedUntil(env, s, k, stop).records) && LastExecutives(TriagedUntil(env, s, k, stop))
  {
    hide TriagedUntil, RunTriage, ClosedOnce, PromptsClosed, LastExecutive, CallsOf, Logged, AnomaliesOf;
    if s.incidents[k].report.Some? { AlreadyTriaged(env, s, k, stop); }
    else {
      var t, r := RunTriage(env, s.incidents[k], AnomaliesOf(s.anomalies, k), |s.records|), TriagedUntil(env, s, k,
        stop);
      var n := if stop < 4 then stop else 4;
      TriagePromptsOnce(env, s.incidents[k], AnomaliesOf(s.anomalies, k), |s.records|);
      UntilShape(env, s, k, stop);
      UntilReport(env, s, k, stop);
      assert t.calls[..4] == t.calls;
      PrefixClosed(s.records, k, t, n);
      ClosedLast(CallsOf(s.records, k), t);
      forall j: nat ensures CallsOf(r.records, j) == if j == k
        then CallsOf(s.records, k) + t.calls[..n] else CallsOf(s.records, j) {
        FurtherCalls(s, r, k, t.calls[..n], j);
      }
    }
  }

  lemma AbsorbedClosed(c: Config, s: Store, service: string, found: seq<Anomaly>, now: Time)
    requires LastExecutives(s)
    ensures LastExecutives(Absorbed(c, s, service, found, now)) &&
            Absorbed(c, s, service, found, now).records == s.records
  {
    hide Absorbed, Target, CallsOf, LastExecutive, DeriveSeverity, AnomaliesOf;
    AbsorbedIncidents(c, s, service, found, now);
  }

  lemma ProcessedUntilClosed(env: Env, s: Store, service: string, now: Time, stop: nat)
    requires env.config.Valid() && R.Sane(env.unicode) && PromptsClosed(s.records) && LastExecutives(s)
    ensures var r := ProcessedUntil(env, s, service, now, stop); PromptsClosed(r.records) && LastExecutives(r)
  {
    hide Found, Absorbed, Target, TriagedUntil, Fired, PromptsClosed, LastExecutive, CallsOf;
    var c, found := env.config, Detected(env.config, s, service, now);
    if found != [] {
      AbsorbedClosed(c, s, service, found, now);
      UntilClosed(env, Absorbed(c, s, service, found, now), Target(c, s, service, now), stop);
    }
  }

  /**
   In the log of every run, interrupted or not, each prompt of the first three agents holds its delimiter
   exactly once, and the executive prompt of a triaged incident does iff the actions in its report are clean.
   */
  lemma {:induction false} InterruptedRunPromptsOnce(env: Env, attempts: seq<Attempt>)
    requires env.config.Valid() && R.Sane(env.unicode)
    ensures PromptsClosed(RunBy(env, attempts).records) && LastExecutives(RunBy(env, attempts))
  {
    hide ApplyBy, PromptsClosed, LastExecutive, CallsOf;
    if attempts == [] { NoPrompts(); }
    else {
      InterruptedRunPromptsOnce(env, attempts[..|attempts| - 1]);
      AppliedClosed(env, RunBy(env, attempts[..|attempts| - 1]), attempts[|attempts| - 1]);
    }
  }

  lemma AppliedClosed(env: Env, s: Store, a: Attempt)
    requires env.config.Valid() && R.Sane(env.unicode) && PromptsClosed(s.records) && LastExecutives(s)
    ensures PromptsClosed(ApplyBy(env, s, a).records) && LastExecutives(ApplyBy(env, s, a))
  {
    hide ProcessedUntil, PromptsClosed, LastExecutive, CallsOf, RunStop, Processed;
    if a.step.Process? {
      var stop := RunStop(env, a.client, s, a.step.service, a.step.now);
      ProcessedUntilClosed(Serving(env, a.client), s, a.step.service, a.step.now, stop);
    }
  }

  // ----- The risk score -----

  /** A run for a service never raises the score, interrupted or not. */
  lemma InterruptedLowersScore(env: Env, s: Store, a: Attempt, window: nat, at: Time)
    requires env.config.Valid() && SeveritiesDerived(s) && Calm([a.step])
    ensures Score(ApplyBy(env, s, a), window, at) <= Score(s, window, at)
  {
    hide Score, ProcessedBy, SeveritiesDerived, Apply, Burden;
    assert [a.step][0] == a.step;
    if a.step.Process? {
      var r := ApplyBy(env, s, a);
      AppendsBy(env, s, a);
      InterruptedSeverityNeverFalls(env, s, a);
      forall k | 0 <= k < |s.incidents| ensures Burden(s.incidents[k]) <= Burden(r.incidents[k]) {
        BurdenUp(s.incidents[k], r.incidents[k]);
      }
      ScoreDown(s, r, window, at);
    } else {
      CalmStep(env, s, a.step, window, at);
    }
  }

  lemma AppendsBy(env: Env, s: Store, a: Attempt)
    requires env.config.Valid() && a.step.Process?
    ensures Appends(s, ApplyBy(env, s, a))
  {
    hide ProcessedUntil, RunStop, Processed, Core, CoreStep, Target, Fired;
    var service, now := a.step.service, a.step.now;
    var m, r := Apply(env, s, a.step), ApplyBy(env, s, a);
    ApplyByCore(env, s, a);
    ApplyCore(env, s, a.step);
    CoreMeans(m, r);
    ProcessedAppends(env, s, service, now);
    AlertsBy(Serving(env, a.client), s, service, now, RunStop(env, a.client, s, service, now));
    forall k | 0 <= k < |s.incidents| ensures r.incidents[k].status == s.incidents[k].status {
      assert r.incidents[k].(report := None) == m.incidents[k].(report := None);
    }
  }

  /** From any point of a run on, calm steps never raise the score, interrupted or not. */
  lemma {:induction false} InterruptedCalmNeverRaises(env: Env, before: seq<Attempt>, attempts: seq<Attempt>,
                                                      window: nat, at: Time)
    requires env.config.Valid() && Calm(StepsOf(attempts))
    ensures Score(RunBy(env, before + attempts), window, at) <= Score(RunBy(env, before), window, at)
  {
    hide Score, ApplyBy, RunBy, Sound;
    if attempts == [] {
      assert before + attempts == before;
    } else {
      var init, last := attempts[..|attempts| - 1], attempts[|attempts| - 1];
      assert before + attempts == before + init + [last];
      assert StepsOf(init) == StepsOf(attempts)[..|init|];
      InterruptedCalmNeverRaises(env, before, init, window, at);
      RunByAppend(env, before + init, last);
      InterruptedRunSound(env, before + init);
      SoundSeverities(RunBy(env, before + init));
      InterruptedLowersScore(env, RunBy(env, before + init), last, window, at);
    }
  }

  lemma SoundSeverities(s: Store)
    requires Sound(s)
    ensures SeveritiesDerived(s)
  {
    hide SeveritiesDerived;
  }
}
