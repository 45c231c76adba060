/**
 Clients whose calls raise exceptions that no agent handles (backend/app/triage/base_agent.py catches four
 kinds only): when a triage completes, what an interrupted step leaves in the tables, and what later steps
 make of it.
 */
module Interruptions {
  import opened Wrappers
  import opened Records
  import opened Detection
  import opened Triage
  import opened Prompts
  import opened Bucketing
  import opened Pipeline
  import opened Invariants
  import opened Cases
  import opened Runs
  import opened Bursts

  /** A step of a run and the client that serves it. */
  datatype Attempt = Attempt(step: Step, client: Client)

  function ApplyBy(env: Env, s: Store, a: Attempt): Store
    requires env.config.Valid()
  {
    if a.step.Process? then ProcessedBy(env, a.client, s, a.step.service, a.step.now) else Apply(env, s, a.step)
  }

  function RunBy(env: Env, attempts: seq<Attempt>): Store
    requires env.config.Valid()
  {
    hide ApplyBy;
    if attempts == [] then EmptyStore()
    else ApplyBy(env, RunBy(env, attempts[..|attempts| - 1]), attempts[|attempts| - 1])
  }

  // ----- When a triage completes -----

  /**
   The client answers the classification prompt, the root-cause prompt that this answer leads to, the
   remediation prompt that both lead to, and the executive prompt that all three lead to; a handled failure
   counts as an answer, its fallback leads on.
   */
  predicate GivesThroughout(env: Env, client: Client, i: Incident, anomalies: seq<Anomaly>, n: nat) {
    hide *;
    var u, v, summary, events := env.unicode, env.wording, IncidentSummary(i, anomalies), TopEvents(anomalies);
    var first := client.classify(n, ClassificationPrompt(u, v, summary, events));
    first.Gives? &&
    var category := OrElse(first.result, Classified(Unknown, 0.0)).category;
    var second := client.analyze(n + 1, RootCausePrompt(u, v, category, summary, events));
    second.Gives? &&
    var cause := OrElse(second.result, Cause(FALLBACK_CAUSE, 0.0)).rootCause;
    var retrieved := env.retrieve(Query(category, cause, events));
    var third := client.recommend(n + 2, RemediationPrompt(u, v, summary, cause, retrieved));
    third.Gives? &&
    var actions := OrElse(third.result, FallbackActions());
    client.summarize(n + 3, ExecutivePrompt(u, v, category, summary, cause, actions)).Gives?
  }

  /** Incident k of s has a report. */
  predicate Reported(s: Store, k: nat) {
    k < |s.incidents| && s.incidents[k].report.Some?
  }

  lemma StopMeansRaise(env: Env, client: Client, i: Incident, anomalies: seq<Anomaly>, n: nat)
    ensures StopAt(client, RunTriage(Serving(env, client), i, anomalies, n).calls, n) == 4 <==>
            GivesThroughout(env, client, i, anomalies, n)
  {
    hide ClassificationPrompt, RootCausePrompt, RemediationPrompt, ExecutivePrompt, IncidentSummary, TopEvents, Query;
    hide FallbackActions, FallbackSummary, References;
  }

  /** A triage writes its report if and only if the client answers the four prompts that its answers lead to. */
  lemma TriageCompletesIff(env: Env, client: Client, s: Store, k: nat)
    requires k < |s.incidents| && s.incidents[k].report.None?
    ensures Reported(TriagedBy(env, client, s, k), k) <==>
            GivesThroughout(env, client, s.incidents[k], AnomaliesOf(s.anomalies, k), |s.records|)
  {
    hide RunTriage, AnomaliesOf, GivesThroughout, StopAt, TriagedUntil, CallsUntil, Logged;
    StopMeansRaise(env, client, s.incidents[k], AnomaliesOf(s.anomalies, k), |s.records|);
    UntilShape(Serving(env, client), s, k, TriageStop(env, client, s, k));
  }

  /** Otherwise it only logs the calls before the one that raises: the first of its four prompts not answered. */
  lemma InterruptedTriage(env: Env, client: Client, s: Store, k: nat)
    requires k < |s.incidents| && s.incidents[k].report.None?
    requires !GivesThroughout(env, client, s.incidents[k], AnomaliesOf(s.anomalies, k), |s.records|)
    ensures var stop := TriageStop(env, client, s, k);
            && stop < 4
            && TriagedBy(env, client, s, k) ==
               s.(records := s.records + Logged(k, CallsUntil(Serving(env, client), s, k, stop)))
  {
    hide RunTriage, AnomaliesOf, GivesThroughout, StopAt, Logged;
    StopMeansRaise(env, client, s.incidents[k], AnomaliesOf(s.anomalies, k), |s.records|);
  }

  // ----- Clients that never raise -----

  /** The client answers as the model does. */
  ghost predicate Agrees(client: Client, llm: Llm) {
    && (forall n, p :: client.classify(n, p) == Gives(llm.classify(n, p)))
    && (forall n, p :: client.analyze(n, p) == Gives(llm.analyze(n, p)))
    && (forall n, p :: client.recommend(n, p) == Gives(llm.recommend(n, p)))
    && (forall n, p :: client.summarize(n, p) == Gives(llm.summarize(n, p)))
  }

  lemma SameTriage(env: Env, client: Client, i: Incident, anomalies: seq<Anomaly>, n: nat)
    requires Agrees(client, env.llm)
    ensures RunTriage(Serving(env, client), i, anomalies, n) == RunTriage(env, i, anomalies, n)
    ensures StopAt(client, RunTriage(env, i, anomalies, n).calls, n) == 4
  {
    hide ClassificationPrompt, RootCausePrompt, RemediationPrompt, ExecutivePrompt, IncidentSummary, TopEvents, Query;
    hide OutcomeOf, OrElse, FallbackActions, FallbackSummary, References;
  }

  lemma SameTriaged(env: Env, client: Client, s: Store, k: nat)
    requires k < |s.incidents| && Agrees(client, env.llm)
    ensures TriageStop(env, client, s, k) == 4
    ensures TriagedAt(Serving(env, client), s, k) == TriagedAt(env, s, k)
  {
    hide RunTriage, StopAt, Agrees, Logged, AnomaliesOf;
    SameTriage(env, client, s.incidents[k], AnomaliesOf(s.anomalies, k), |s.records|);
  }

  lemma QuietProcessed(env: Env, client: Client, s: Store, service: string, now: Time)
    requires env.config.Valid() && Agrees(client, env.llm)
    ensures ProcessedBy(env, client, s, service, now) == Processed(env, s, service, now)
    ensures !InterruptedBy(env, client, s, service, now)
  {
    hide Found, Absorbed, Target, TriagedAt, Raised, TriageStop, Agrees;
    var c, found := env.config, Detected(env.config, s, service, now);
    SameTriaged(env, client, Absorbed(c, s, service, found, now), Target(c, s, service, now));
    hide ProcessedUntil;
    NeverInterrupted(Serving(env, client), s, service, now, 4);
  }

  /** Runs whose clients answer as the model does are the runs of the pipeline. */
  lemma {:induction false} QuietRuns(env: Env, attempts: seq<Attempt>, steps: seq<Step>)
    requires env.config.Valid() && |attempts| == |steps|
    requires forall i :: 0 <= i < |steps| ==> attempts[i].step == steps[i] && Agrees(attempts[i].client, env.llm)
    ensures RunBy(env, attempts) == Run(env, steps)
  {
    hide Apply, ApplyBy, Agrees;
    if steps != [] {
      var n := |steps| - 1;
      QuietRuns(env, attempts[..n], steps[..n]);
      QuietStep(env, Run(env, steps[..n]), attempts[n]);
    }
  }

  lemma QuietStep(env: Env, s: Store, a: Attempt)
    requires env.config.Valid() && Agrees(a.client, env.llm)
    ensures ApplyBy(env, s, a) == Apply(env, s, a.step)
  {
    hide Processed, ProcessedBy, InterruptedBy, Agrees, Updated, Found;
    if a.step.Process? { QuietProcessed(env, a.client, s, a.step.service, a.step.now); }
  }

  /** Without interruptions a pass over the services processes them all and returns the touched incidents. */
  lemma {:induction false} QuietPass(env: Env, client: Client, s: Store, services: seq<string>, now: Time)
    requires env.config.Valid() && Agrees(client, env.llm)
    ensures ProcessedAllBy(env, client, s, services, now) ==
            Progress(ProcessedAll(env, s, services, now), TouchedAll(env, s, services, now), false)
  {
    hide Processed, Touched, ProcessedBy, InterruptedBy, Agrees;
    if services != [] {
      var init, last := services[..|services| - 1], services[|services| - 1];
      QuietPass(env, client, s, init, now);
      QuietProcessed(env, client, ProcessedAll(env, s, init, now), last, now);
    }
  }

  // ----- The log of interrupted triages -----

  /** The agents of triages that each raised before their last call, one after the other. */
  ghost predicate Aborted(agents: seq<Agent>)
    decreases |agents|
  {
    agents == [] || exists n: nat :: 0 < n < 4 && EndsWith(agents, n) && Aborted(agents[..|agents| - n])
  }

  /** The last n agents are the first n of a triage. */
  ghost predicate EndsWith(agents: seq<Agent>, n: nat) {
    n <= |agents| && n <= 4 && agents[|agents| - n..] == FourAgents()[..n]
  }

  lemma AbortedAppend(agents: seq<Agent>, n: nat)
    requires Aborted(agents) && n < 4
    ensures Aborted(agents + FourAgents()[..n])
  {
    var all := agents + FourAgents()[..n];
    if n == 0 { assert all == agents; }
    else { assert EndsWith(all, n) && all[..|all| - n] == agents; }
  }

  /** Aborted triages, then a complete one if there is a report. */
  ghost predicate AttemptsLogged(calls: seq<Call>, triaged: bool) {
    var agents := Agents(calls);
    if triaged then EndsWith(agents, 4) && Aborted(agents[..|agents| - 4]) else Aborted(agents)
  }

  ghost predicate LogsAttempted(s: Store) {
    && (forall k: nat :: k < |s.incidents| ==> AttemptsLogged(CallsOf(s.records, k), s.incidents[k].report.Some?))
    && (forall k: nat :: k >= |s.incidents| ==> CallsOf(s.records, k) == [])
  }

  /** Only triaged incidents have alerts. */
  ghost predicate AlertedTriaged(s: Store) {
    forall i :: 0 <= i < |s.alerts| ==>
      s.alerts[i].incident < |s.incidents| && s.incidents[s.alerts[i].incident].report.Some?
  }

  ghost predicate Sound(s: Store) {
    && AllLinked(s) && KeysUnique(s) && SeveritiesDerived(s) && AlertsKeyed(s)
    && LogsAttempted(s) && AlertedTriaged(s)
  }

  lemma AgentsAppend(a: seq<Call>, b: seq<Call>)
    ensures Agents(a + b) == Agents(a) + Agents(b)
  {
  }

  ghost predicate BeginsTriage(calls: seq<Call>) {
    |calls| <= 4 && Agents(calls) == FourAgents()[..|calls|]
  }

  lemma AttemptsAppend(calls: seq<Call>, more: seq<Call>)
    requires AttemptsLogged(calls, false) && BeginsTriage(more)
    ensures AttemptsLogged(calls + more, |more| == 4)
  {
    AgentsAppend(calls, more);
    var agents, all := Agents(calls), Agents(calls + more);
    if |more| == 4 { assert all[..|all| - 4] == agents && FourAgents()[..4] == FourAgents(); }
    else { AbortedAppend(agents, |more|); }
  }

  lemma CallsUntilAgents(env: Env, s: Store, k: nat, stop: nat)
    requires k < |s.incidents|
    ensures BeginsTriage(CallsUntil(env, s, k, stop))
  {
    hide RunTriage, AnomaliesOf, Agents, FourAgents;
    FourCalls(env, s.incidents[k], AnomaliesOf(s.anomalies, k), |s.records|);
    var t := RunTriage(env, s.incidents[k], AnomaliesOf(s.anomalies, k), |s.records|);
    AgentsPrefix(t.calls, if stop < 4 then stop else 4);
  }

  lemma AgentsPrefix(calls: seq<Call>, n: nat)
    requires n <= |calls|
    ensures Agents(calls[..n]) == Agents(calls)[..n]
  {
  }

  lemma UntilAttempts(env: Env, s: Store, k: nat, stop: nat)
    requires k < |s.incidents| && s.incidents[k].report.None? && LogsAttempted(s)
    ensures LogsAttempted(TriagedUntil(env, s, k, stop))
  {
    hide TriagedUntil, CallsUntil, AttemptsLogged, CallsOf, Logged;
    var r, calls := TriagedUntil(env, s, k, stop), CallsUntil(env, s, k, stop);
    UntilShape(env, s, k, stop);
    CallsUntilAgents(env, s, k, stop);
    AttemptsAppend(CallsOf(s.records, k), calls);
    forall j: nat ensures CallsOf(r.records, j) == if j == k
      then CallsOf(s.records, k) + calls else CallsOf(s.records, j) {
      FurtherCalls(s, r, k, calls, j);
    }
  }

  lemma UntilSound(env: Env, s: Store, k: nat, stop: nat)
    requires k < |s.incidents| && s.incidents[k].report.None? && Sound(s)
    ensures Sound(TriagedUntil(env, s, k, stop))
  {
    hide TriagedUntil, CallsUntil, LogsAttempted, AllLinked, AlertsKeyed, KeysUnique, SeveritiesDerived, Logged;
    var r := TriagedUntil(env, s, k, stop);
    UntilShape(env, s, k, stop);
    UntilAttempts(env, s, k, stop);
    LinksKept(s, r);
    RowsKept(s, r);
    AlertsKept(s, r);
  }

  lemma AbsorbedSound(c: Config, s: Store, service: string, found: seq<Anomaly>, now: Time)
    requires Sound(s) && found != [] && KeysDistinct(found)
    requires forall a :: a in found ==> a.service == service && KeyOf(a) !in Keys(s.anomalies)
    ensures Sound(Absorbed(c, s, service, found, now))
  {
    hide Absorbed, Target, AllLinked, KeysUnique, SeveritiesDerived, LogsAttempted, AlertsKeyed, DeriveSeverity, KeyOf;
    hide AnomaliesOf, KeysDistinct, Keys;
    AbsorbedLinked(c, s, service, found, now);
    AbsorbedUnique(c, s, service, found, now);
    AbsorbedSeverities(c, s, service, found, now);
    AbsorbedIncidents(c, s, service, found, now);
    AbsorbedAttempts(c, s, service, found, now);
    AlertsKept(s, Absorbed(c, s, service, found, now));
  }

  lemma AbsorbedAttempts(c: Config, s: Store, service: string, found: seq<Anomaly>, now: Time)
    requires LogsAttempted(s)
    ensures LogsAttempted(Absorbed(c, s, service, found, now))
  {
    hide Absorbed, Target, CallsOf, Aborted, DeriveSeverity, AnomaliesOf;
    AbsorbedIncidents(c, s, service, found, now);
    NothingAborted();
  }

  lemma NothingAborted()
    ensures AttemptsLogged([], false)
  {
  }

  lemma RaisedSound(c: Config, s: Store, k: nat, now: Time)
    requires Sound(s) && k < |s.incidents| && s.incidents[k].report.Some?
    ensures Sound(Raised(c, s, k, now))
  {
    hide Fired, AlertsKeyed, AllLinked, KeysUnique, SeveritiesDerived, AttemptsLogged, CallsOf;
    var r := Raised(c, s, k, now);
    RaisedKeyed(c, s, k, now);
    LinksKept(s, r);
    RowsKept(s, r);
    forall i | 0 <= i < |r.alerts|
      ensures r.alerts[i].incident < |r.incidents| && r.incidents[r.alerts[i].incident].report.Some?
    {
      if i >= |s.alerts| { FiredIn(c, s.alerts, k, now, c.channels, i - |s.alerts|); }
    }
  }

  lemma ProcessedUntilSound(env: Env, s: Store, service: string, now: Time, stop: nat)
    requires env.config.Valid() && Sound(s)
    ensures Sound(ProcessedUntil(env, s, service, now, stop))
  {
    hide Sound, Found, Absorbed, TriagedUntil, Raised, Keys, KeyOf, KeysDistinct, Target, OfRun;
    var c, found := env.config, Detected(env.config, s, service, now);
    if found != [] {
      var k, a := Target(c, s, service, now), Absorbed(c, s, service, found, now);
      FoundForConsistency(c, s, service, now);
      AbsorbedSound(c, s, service, found, now);
      TriageKeepsSound(env, a, k, stop);
      if !Interrupts(env, s, service, now, stop) { RaisedSound(c, TriagedUntil(env, a, k, stop), k, now); }
    }
  }

  lemma TriageKeepsSound(env: Env, s: Store, k: nat, stop: nat)
    requires k < |s.incidents| && Sound(s)
    ensures var r := TriagedUntil(env, s, k, stop);
            && Sound(r) && |r.incidents| == |s.incidents|
            && (r.incidents[k].report.Some? <==> s.incidents[k].report.Some? || stop >= 4)
  {
    hide Sound, TriagedUntil, CallsUntil;
    if s.incidents[k].report.Some? { AlreadyTriaged(env, s, k, stop); }
    else {
      UntilSound(env, s, k, stop);
      UntilShape(env, s, k, stop);
    }
  }

  lemma NothingFound(env: Env, s: Store, service: string, now: Time, stop: nat)
    requires env.config.Valid() && Detected(env.config, s, service, now) == []
    ensures ProcessedUntil(env, s, service, now, stop) == s && !Interrupts(env, s, service, now, stop)
    ensures Touched(env, s, service, now) == None
  {
    hide Found, Absorbed, Target, TriagedUntil, Raised;
  }

  lemma StepSound(env: Env, s: Store, step: Step)
    requires env.config.Valid() && Sound(s) && !step.Process?
    ensures Sound(Apply(env, s, step))
  {
    hide AllLinked, AlertsKeyed, KeysUnique, SeveritiesDerived, LogsAttempted, AlertedTriaged, Processed;
    var r := Apply(env, s, step);
    LinksKept(s, r);
    RowsKept(s, r);
    AlertsKept(s, r);
    ReportsKept(s, r);
  }

  lemma ReportsKept(s: Store, r: Store)
    requires LogsAttempted(s) && AlertedTriaged(s)
    requires r.records == s.records && r.alerts == s.alerts && |r.incidents| == |s.incidents|
    requires forall k :: 0 <= k < |s.incidents| ==> r.incidents[k].report == s.incidents[k].report
    ensures LogsAttempted(r) && AlertedTriaged(r)
  {
    hide AttemptsLogged, CallsOf;
  }

  lemma EmptySound()
    ensures Sound(EmptyStore())
  {
  }

  /**
   After every run, however often calls raise: links, keys, severities and alert keys are as without
   interruptions, each log is a series of aborted triages with a complete one at the end exactly if the
   incident has a report, and no incident is alerted before it is triaged.
   */
  lemma {:induction false} InterruptedRunSound(env: Env, attempts: seq<Attempt>)
    requires env.config.Valid()
    ensures Sound(RunBy(env, attempts))
  {
    hide Sound, ProcessedUntil, Apply, RunStop;
    if attempts == [] { EmptySound(); }
    else {
      var s, a := RunBy(env, attempts[..|attempts| - 1]), attempts[|attempts| - 1];
      InterruptedRunSound(env, attempts[..|attempts| - 1]);
      if a.step.Process? {
        var stop := RunStop(env, a.client, s, a.step.service, a.step.now);
        ProcessedUntilSound(Serving(env, a.client), s, a.step.service, a.step.now, stop);
      } else { StepSound(env, s, a.step); }
    }
  }

  lemma SoundGrounded(s: Store)
    requires Sound(s)
    ensures Grounded(s)
  {
    hide AllLinked, AlertsKeyed, KeysUnique, SeveritiesDerived, AttemptsLogged, CallsOf, AlertedTriaged;
  }

  // ----- After an interruption -----

  /** Incident k of r has no report, and r has the events and the alerts of s. */
  ghost predicate Halted(s: Store, r: Store, k: nat) {
    r.events == s.events && r.alerts == s.alerts && k < |r.incidents| && r.incidents[k].report.None?
  }

  /** An interrupted run leaves its incident without report and the alerts as they were. */
  lemma InterruptionHalts(env: Env, s: Store, service: string, now: Time, stop: nat)
    requires env.config.Valid() && Interrupts(env, s, service, now, stop)
    ensures Halted(s, ProcessedUntil(env, s, service, now, stop), Target(env.config, s, service, now))
    ensures ProcessedUntil(env, s, service, now, stop).anomalies ==
            Absorbed(env.config, s, service, Detected(env.config, s, service, now), now).anomalies
  {
    hide Found, Absorbed, Target, TriagedUntil, CallsUntil, Logged;
    var c, found := env.config, Detected(env.config, s, service, now);
    var k, a := Target(c, s, service, now), Absorbed(c, s, service, found, now);
    AbsorbedIncidents(c, s, service, found, now);
    UntilShape(env, a, k, stop);
  }

  lemma ServingInterrupts(env: Env, client: Client, s: Store, service: string, now: Time, stop: nat)
    requires env.config.Valid()
    ensures Interrupts(Serving(env, client), s, service, now, stop) <==> Interrupts(env, s, service, now, stop)
  {
  }

  /** Running the service again at the same time does not repair it: nothing is found, and nothing changes. */
  lemma InterruptionIsNotRepaired(env: Env, client: Client, s: Store, service: string, now: Time, again: Client)
    requires env.config.Valid() && InterruptedBy(env, client, s, service, now)
    ensures var r := ProcessedBy(env, client, s, service, now);
            && Halted(s, r, Target(env.config, s, service, now))
            && ProcessedBy(env, again, r, service, now) == r
            && Touched(env, r, service, now) == None
  {
    hide Found, Absorbed, Target, Keys, KeyOf, ProcessedUntil, Interrupts, Touched, RunStop, Halted;
    var c, found, stop := env.config, Detected(env.config, s, service, now), RunStop(env, client, s, service, now);
    var e := Serving(env, client);
    var r := ProcessedUntil(e, s, service, now, stop);
    ServingInterrupts(env, client, s, service, now, stop);
    InterruptionHalts(e, s, service, now, stop);
    AbsorbedKeys(c, s, service, found, now);
    HaltedEvents(s, r, Target(c, s, service, now));
    FoundAgain(c, Keys(s.anomalies), Keys(r.anomalies), s.events, service, now);
    NothingFound(Serving(env, again), r, service, now, RunStop(env, again, r, service, now));
    NothingFound(env, r, service, now, 0);
  }

  lemma HaltedEvents(s: Store, r: Store, k: nat)
    requires Halted(s, r, k)
    ensures r.events == s.events
  {
  }

  /** A run for a service changes of the old incidents at most the one that correlation picks. */
  lemma OtherRowsKept(env: Env, s: Store, service: string, now: Time, stop: nat, k: nat)
    requires env.config.Valid() && k < |s.incidents|
    requires Detected(env.config, s, service, now) == [] || Target(env.config, s, service, now) != k
    ensures var r := ProcessedUntil(env, s, service, now, stop); k < |r.incidents| && r.incidents[k] == s.incidents[k]
  {
    hide Found, Absorbed, Target, TriagedUntil, Fired, CallsUntil, Logged, DeriveSeverity;
    var c, found := env.config, Detected(env.config, s, service, now);
    if found != [] {
      var m, a := Target(c, s, service, now), Absorbed(c, s, service, found, now);
      AbsorbedIncidents(c, s, service, found, now);
      if a.incidents[m].report.Some? { AlreadyTriaged(env, a, m, stop); } else { UntilShape(env, a, m, stop); }
    }
  }

  lemma TargetReported(env: Env, s: Store, service: string, now: Time, stop: nat)
    requires env.config.Valid() && Detected(env.config, s, service, now) != []
    requires !Reported(s, Target(env.config, s, service, now))
    ensures Reported(ProcessedUntil(env, s, service, now, stop), Target(env.config, s, service, now)) <==> stop >= 4
    ensures Interrupts(env, s, service, now, stop) <==> stop < 4
  {
    hide Found, Absorbed, Target, TriagedUntil, Fired, CallsUntil, Logged, DeriveSeverity;
    var c, found := env.config, Detected(env.config, s, service, now);
    var m, a := Target(c, s, service, now), Absorbed(c, s, service, found, now);
    AbsorbedIncidents(c, s, service, found, now);
    UntilShape(env, a, m, stop);
  }

  /**
   An incident without report gets one in a run for a service if and only if the run finds something,
   correlation picks this incident for it, and the client answers throughout.
   */
  lemma ReportedIff(env: Env, client: Client, s: Store, k: nat, service: string, now: Time)
    requires env.config.Valid() && k < |s.incidents| && !Reported(s, k)
    ensures Reported(ProcessedBy(env, client, s, service, now), k) <==>
            && Detected(env.config, s, service, now) != []
            && Target(env.config, s, service, now) == k
            && !InterruptedBy(env, client, s, service, now)
  {
    hide Found, Target, ProcessedUntil, RunStop, Interrupts;
    var e, stop := Serving(env, client), RunStop(env, client, s, service, now);
    ServingInterrupts(env, client, s, service, now, stop);
    if Detected(env.config, s, service, now) != [] && Target(env.config, s, service, now) == k {
      TargetReported(e, s, service, now, stop);
    } else {
      OtherRowsKept(e, s, service, now, stop, k);
    }
  }

  /** The run that reports an incident alerts every channel about it. */
  lemma ReportedIsAlerted(env: Env, client: Client, s: Store, k: nat, service: string, now: Time, channel: string)
    requires env.config.Valid() && k < |s.incidents| && !Reported(s, k) && channel in env.config.channels
    requires Reported(ProcessedBy(env, client, s, service, now), k)
    ensures ExistsSince(ProcessedBy(env, client, s, service, now).alerts, DedupKey(k, channel),
            now - env.config.rateLimit)
  {
    hide Found, Target, Absorbed, TriagedUntil, RunStop, Interrupts, ExistsSince, DedupKey, Fired;
    var c, e, stop := env.config, Serving(env, client), RunStop(env, client, s, service, now);
    ReportedIff(env, client, s, k, service, now);
    ServingInterrupts(env, client, s, service, now, stop);
    var a := Absorbed(c, s, service, Detected(c, s, service, now), now);
    EveryChannelAlerted(c, TriagedUntil(e, a, k, stop), k, now, channel);
  }

  // ----- Incidents that are never triaged -----

  /** The step is no status change of incident k, and no run that could still pick it. */
  predicate PassesBy(c: Config, i: Incident, k: nat, step: Step) {
    match step
    case Ingest(_) => true
    case Process(service, now) => service == i.service ==> !Live(i, now - c.correlationWindow)
    case Patch(id, _, _) => id != k
  }

  lemma PassedBy(env: Env, s: Store, k: nat, a: Attempt)
    requires env.config.Valid() && k < |s.incidents| && PassesBy(env.config, s.incidents[k], k, a.step)
    ensures var r := ApplyBy(env, s, a); k < |r.incidents| && r.incidents[k] == s.incidents[k]
  {
    hide Detected, Target, Processed, ProcessedUntil, RunStop, Live;
    if a.step.Process? {
      TargetLive(env.config, s, a.step.service, a.step.now);
      OtherRowsKept(Serving(env, a.client), s, a.step.service, a.step.now,
                    RunStop(env, a.client, s, a.step.service, a.step.now), k);
    }
  }

  /** An incident that every further step passes by stays as it is: without report, it is abandoned for good. */
  lemma {:induction false} AbandonedForGood(env: Env, before: seq<Attempt>, attempts: seq<Attempt>, k: nat)
    requires env.config.Valid() && k < |RunBy(env, before).incidents|
    requires forall a :: a in attempts ==> PassesBy(env.config, RunBy(env, before).incidents[k], k, a.step)
    ensures var r := RunBy(env, before + attempts);
            k < |r.incidents| && r.incidents[k] == RunBy(env, before).incidents[k]
  {
    hide RunBy, ApplyBy, PassesBy;
    if attempts == [] {
      assert before + attempts == before;
    } else {
      var init, last := attempts[..|attempts| - 1], attempts[|attempts| - 1];
      assert before + attempts == before + init + [last];
      AbandonedForGood(env, before, init, k);
      RunByAppend(env, before + init, last);
      PassedBy(env, RunBy(env, before + init), k, last);
    }
  }

  lemma RunByAppend(env: Env, attempts: seq<Attempt>, a: Attempt)
    requires env.config.Valid()
    ensures RunBy(env, attempts + [a]) == ApplyBy(env, RunBy(env, attempts), a)
  {
    hide ApplyBy;
    assert (attempts + [a])[..|attempts|] == attempts;
  }

  /** A client whose calls all raise, and one whose calls all fail in a handled way. */
  function DownClient(): Client {
    Client((n, p) => Raises, (n, p) => Raises, (n, p) => Raises, (n, p) => Raises)
  }

  function FailingClient(): Client {
    Client((n, p) => Gives(Err(Timeout)), (n, p) => Gives(Err(Timeout)), (n, p) => Gives(Err(Timeout)),
           (n, p) => Gives(Err(Timeout)))
  }

  lemma TheirStops(env: Env, s: Store, service: string, now: Time)
    requires env.config.Valid()
    ensures RunStop(env, DownClient(), s, service, now) == 0 && RunStop(env, FailingClient(), s, service, now) == 4
  {
    hide Found, Absorbed, Target, RunTriage;
  }

  /** r has one more incident than s, which has a report iff the triage is done. */
  ghost predicate OpensRow(s: Store, r: Store, service: string, now: Time, done: bool) {
    var n := |s.incidents|;
    && r.events == s.events
    && |r.incidents| == n + 1 && r.incidents[..n] == s.incidents
    && r.incidents[n].service == service && r.incidents[n].updatedAt == now
    && (r.incidents[n].report.Some? <==> done)
  }

  /** Findings for a service without a live incident open one; it has a report unless the client raises. */
  lemma OpensBy(env: Env, client: Client, s: Store, service: string, now: Time)
    requires env.config.Valid() && Detected(env.config, s, service, now) != []
    requires forall k :: 0 <= k < |s.incidents| && s.incidents[k].service == service ==>
               !Live(s.incidents[k], now - env.config.correlationWindow)
    ensures OpensRow(s, ProcessedBy(env, client, s, service, now), service, now,
              RunStop(env, client, s, service, now) == 4)
  {
    hide Found, Absorbed, TriagedUntil, Target, Fired, Live, DeriveSeverity, RunStop, CallsUntil, Logged;
    var c, e, found, n := env.config, Serving(env, client), Detected(env.config, s, service, now), |s.incidents|;
    var a := Absorbed(c, s, service, found, now);
    TargetLive(c, s, service, now);
    AbsorbedIncidents(c, s, service, found, now);
    UntilShape(e, a, n, RunStop(env, client, s, service, now));
  }

  lemma KeysBy(env: Env, client: Client, s: Store, service: string, now: Time)
    requires env.config.Valid()
    ensures forall key :: key in Keys(ProcessedBy(env, client, s, service, now).anomalies) ==>
              key in Keys(s.anomalies) || key.windowStart == now - env.config.bucket
  {
    hide Found, Absorbed, TriagedUntil, Target, Fired, Keys, RunStop, CallsUntil, Logged, KeyOf;
    var c, e, found := env.config, Serving(env, client), Detected(env.config, s, service, now);
    if found != [] {
      var k, a := Target(c, s, service, now), Absorbed(c, s, service, found, now);
      var stop := RunStop(env, client, s, service, now);
      AbsorbedKeysOnly(c, s, service, now);
      if a.incidents[k].report.Some? { AlreadyTriaged(e, a, k, stop); } else { UntilShape(e, a, k, stop); }
    }
  }

  function AbandonedAt(c: Config): Time {
    Later(c) + c.correlationWindow
  }

  /** A burst while the client is down, and another one after detection and correlation windows have passed. */
  function AbandonedRun(c: Config, service: string): seq<Attempt> {
    var at := AbandonedAt(c);
    DownRun(c, service)
    + [Attempt(Ingest(Burst(c, service, at)), FailingClient())] + [Attempt(Process(service, at), FailingClient())]
  }

  function DownRun(c: Config, service: string): seq<Attempt> {
    [Attempt(Ingest(Burst(c, service, 0)), DownClient())] + [Attempt(Process(service, 0), DownClient())]
  }

  lemma DownRunStore(env: Env, service: string)
    requires env.config.Valid()
    ensures var s := EmptyStore().(events := Burst(env.config, service, 0));
            && RunBy(env, DownRun(env.config, service)) == ProcessedBy(env, DownClient(), s, service, 0)
            && Detected(env.config, s, service, 0) != []
  {
    hide ProcessedBy, Found, Burst, DownClient, Processed, Updated;
    var burst, none: seq<Attempt> := Burst(env.config, service, 0), [];
    assert RunBy(env, none) == EmptyStore() && EmptyStore().events + burst == burst;
    RunByAppend(env, none, Attempt(Ingest(burst), DownClient()));
    RunByAppend(env, none + [Attempt(Ingest(burst), DownClient())], Attempt(Process(service, 0), DownClient()));
    assert none + [Attempt(Ingest(burst), DownClient())] == [Attempt(Ingest(burst), DownClient())];
    hide RunBy;
    BurstIsFound(env.config, {}, [], service, 0);
    NoKeys();
  }

  /** Interruptions happen: a burst while the client is down is one. */
  lemma InterruptionHappens(env: Env, service: string)
    requires env.config.Valid()
    ensures InterruptedBy(env, DownClient(), EmptyStore().(events := Burst(env.config, service, 0)), service, 0)
  {
    hide Detected, Interrupts, Target, Burst, RunStop, DownClient, ProcessedBy, RunBy, DownRun, ProcessedUntil;
    var s := EmptyStore().(events := Burst(env.config, service, 0));
    DownRunStore(env, service);
    TheirStops(env, s, service, 0);
    TargetReported(env, s, service, 0, 0);
  }

  /** One incident of the service without report, the first burst, and the keys of its window. */
  ghost predicate LeftBehind(c: Config, s: Store, service: string) {
    && |s.incidents| == 1 && s.incidents[0].service == service && s.incidents[0].updatedAt == 0
    && s.incidents[0].report.None? && s.events == Burst(c, service, 0)
    && forall key :: key in Keys(s.anomalies) ==> key.windowStart == 0 - c.bucket
  }

  lemma DownRunLeaves(env: Env, service: string)
    requires env.config.Valid()
    ensures LeftBehind(env.config, RunBy(env, DownRun(env.config, service)), service)
  {
    hide RunBy, DownRun, ProcessedBy, Detected, Keys, Burst, Live, DownClient, RunStop;
    var s := EmptyStore().(events := Burst(env.config, service, 0));
    DownRunStore(env, service);
    TheirStops(env, s, service, 0);
    OpensBy(env, DownClient(), s, service, 0);
    KeysBy(env, DownClient(), s, service, 0);
    NoKeys();
  }

  /** The first incident has no report, the second one has. */
  ghost predicate PassedOver(s: Store) {
    |s.incidents| == 2 && s.incidents[0].report.None? && s.incidents[1].report.Some?
    && s.incidents[0].service == s.incidents[1].service
  }

  /**
   For every valid configuration: after an interruption, the next run that finds something for the service and
   is not interrupted can open a second incident and leave the interrupted one untriaged.
   */
  lemma NextRunMayAbandon(env: Env, service: string)
    requires env.config.Valid()
    ensures LeftBehind(env.config, RunBy(env, DownRun(env.config, service)), service)
    ensures PassedOver(RunBy(env, AbandonedRun(env.config, service)))
  {
    hide *;
    var before := RunBy(env, DownRun(env.config, service));
    DownRunLeaves(env, service);
    AbandonedStore(env, service);
    SecondIncident(env, before, service);
  }

  function Fed(c: Config, s: Store, service: string): Store {
    s.(events := s.events + Burst(c, service, AbandonedAt(c)))
  }

  lemma AbandonedStore(env: Env, service: string)
    requires env.config.Valid()
    ensures RunBy(env, AbandonedRun(env.config, service)) ==
            ProcessedBy(env, FailingClient(), Fed(env.config, RunBy(env, DownRun(env.config, service)), service),
              service,
              AbandonedAt(env.config))
  {
    hide RunBy, DownRun, ProcessedBy, Burst, Later, FailingClient;
    var c, attempts := env.config, DownRun(env.config, service);
    var ingest := Attempt(Ingest(Burst(c, service, AbandonedAt(c))), FailingClient());
    RunByAppend(env, attempts, ingest);
    RunByAppend(env, attempts + [ingest], Attempt(Process(service, AbandonedAt(c)), FailingClient()));
  }

  lemma SecondIncident(env: Env, s: Store, service: string)
    requires env.config.Valid() && LeftBehind(env.config, s, service)
    ensures PassedOver(ProcessedBy(env, FailingClient(), Fed(env.config, s, service), service,
                         AbandonedAt(env.config)))
  {
    hide ProcessedBy, Found, Keys, Burst, Later, FailingClient, RunStop;
    var c, at, fed := env.config, AbandonedAt(env.config), Fed(env.config, s, service);
    LaterIsLater(c);
    BurstIsFound(c, Keys(s.anomalies), s.events, service, at);
    TheirStops(env, fed, service, at);
    OpensBy(env, FailingClient(), fed, service, at);
  }
}
