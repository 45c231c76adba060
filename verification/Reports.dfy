/**
 What a report tells. Every field of it is the model's answer to the logged prompt of one agent, or that
 agent's fallback (backend/app/triage/agents), whatever the other agents met with; and every report of a run
 can be traced to four records of the log.
 */
module Reports {
  import opened Wrappers
  import opened Records
  import opened Detectors
  import opened Detection
  import opened Triage
  import opened Prompts
  import opened Text
  import opened Pipeline
  import opened Invariants
  import opened Cases
  import opened Runs
  import opened Interruptions

  // ----- The fields of a report -----

  /** The category is the one answered to the prompt, and unknown if the call failed. */
  ghost predicate CategoryTold(llm: Llm, n: nat, call: Call, report: Report) {
    match llm.classify(n, call.prompt)
    case Ok(answer) => call.outcome == Answered && report.category == answer.category
    case Err(f) => call.outcome == Failed(f) && report.category == Unknown
  }

  ghost predicate CauseTold(llm: Llm, n: nat, call: Call, report: Report) {
    match llm.analyze(n, call.prompt)
    case Ok(answer) => call.outcome == Answered && report.rootCause == answer.rootCause
    case Err(f) =>
      call.outcome == Failed(f) && report.rootCause == "Root cause undetermined; triage unavailable."
  }

  ghost predicate ActionsTold(llm: Llm, n: nat, call: Call, report: Report) {
    match llm.recommend(n, call.prompt)
    case Ok(answer) => call.outcome == Answered && report.actions == answer
    case Err(f) =>
      call.outcome == Failed(f) && |report.actions| == 3 &&
      report.actions[0] == "Investigate the dominant error signature on the affected service." &&
      report.actions[1] == "Roll back the most recent correlated deployment if applicable." &&
      report.actions[2] == "Escalate to the on-call owner if the error rate keeps climbing."
  }

  ghost predicate SummaryTold(llm: Llm, n: nat, call: Call, report: Report) {
    match llm.summarize(n, call.prompt)
    case Ok(answer) => call.outcome == Answered && report.summary == answer
    case Err(f) =>
      call.outcome == Failed(f) &&
      report.summary == "A " + CategoryText(report.category) + " incident was detected. Probable cause: " +
                        report.rootCause +
                        ". Automated summary (triage fallback); review the recommended actions."
  }

  /** The confidence of an answer, and none for a failed call. */
  function ClassifyConfidence(llm: Llm, n: nat, prompt: string): real {
    match llm.classify(n, prompt) case Ok(answer) => answer.confidence case Err(_) => 0.0
  }

  function CauseConfidence(llm: Llm, n: nat, prompt: string): real {
    match llm.analyze(n, prompt) case Ok(answer) => answer.confidence case Err(_) => 0.0
  }

  /** The report is what the model said to these four prompts, the first of them call number n. */
  ghost predicate Told(llm: Llm, n: nat, calls: seq<Call>, report: Report) {
    && Agents(calls) == [Classification, RootCause, Remediation, ExecutiveSummary] && |calls| == 4
    && CategoryTold(llm, n, calls[0], report)
    && CauseTold(llm, n + 1, calls[1], report)
    && ActionsTold(llm, n + 2, calls[2], report)
    && SummaryTold(llm, n + 3, calls[3], report)
    && 2.0 * report.confidence ==
       ClassifyConfidence(llm, n, calls[0].prompt) + CauseConfidence(llm, n + 1, calls[1].prompt)
  }

  /** Each prompt is about the incident and what the report says by then. */
  ghost predicate Asked(env: Env, i: Incident, anomalies: seq<Anomaly>, calls: seq<Call>, report: Report,
                        retrieved: seq<Excerpt>)
    requires |calls| == 4
  {
    var u, v, summary, events := env.unicode, env.wording, IncidentSummary(i, anomalies), TopEvents(anomalies);
    && calls[0].prompt == ClassificationPrompt(u, v, summary, events)
    && calls[1].prompt == RootCausePrompt(u, v, report.category, summary, events)
    && retrieved == env.retrieve(Query(report.category, report.rootCause, events))
    && calls[2].prompt == RemediationPrompt(u, v, summary, report.rootCause, retrieved)
    && calls[3].prompt == ExecutivePrompt(u, v, report.category, summary, report.rootCause, report.actions)
  }

  /** The references are the retrieved runbooks in order. */
  ghost predicate Refers(report: Report, retrieved: seq<Excerpt>) {
    && |report.references| == |retrieved|
    && forall k :: 0 <= k < |retrieved| ==>
         report.references[k].slug == retrieved[k].slug && report.references[k].title == retrieved[k].title
  }

  lemma TriageAsks(env: Env, i: Incident, anomalies: seq<Anomaly>, first: nat) returns (retrieved: seq<Excerpt>)
    ensures var t := RunTriage(env, i, anomalies, first);
            Asked(env, i, anomalies, t.calls, t.report, retrieved) && Refers(t.report, retrieved)
  {
    hide ClassificationPrompt, RootCausePrompt, RemediationPrompt, ExecutivePrompt, IncidentSummary, TopEvents, Query;
    hide OutcomeOf, FallbackActions, FallbackSummary;
    var t := RunTriage(env, i, anomalies, first);
    retrieved := env.retrieve(Query(t.report.category, t.report.rootCause, TopEvents(anomalies)));
  }

  /** Every field of the report is the answer to the logged prompt of its agent, or that agent's fallback. */
  lemma TriageTells(env: Env, i: Incident, anomalies: seq<Anomaly>, first: nat)
    ensures var t := RunTriage(env, i, anomalies, first); Told(env.llm, first, t.calls, t.report)
  {
    FourCalls(env, i, anomalies, first);
    hide ClassificationPrompt, RootCausePrompt, RemediationPrompt, ExecutivePrompt, IncidentSummary, TopEvents, Query;
    hide References, Agents, CategoryText;
  }

  // ----- What the prompts are about -----

  /** A number without its fraction. */
  lemma TruncatedMeans(x: real)
    ensures x >= 0.0 ==> Truncated(x) as real <= x < Truncated(x) as real + 1.0
    ensures x <= 0.0 ==> Truncated(x) as real - 1.0 < x <= Truncated(x) as real
  {
  }

  /** An anomaly is shown by its signature, one without by its strategy, with its current value as count. */
  lemma TopEventsTell(anomalies: seq<Anomaly>, k: nat)
    requires k < |anomalies|
    ensures var a, e := anomalies[k], TopEvents(anomalies)[k];
            && e.level == "ERROR" && e.count == Truncated(a.currentValue)
            && (a.signature.Some? && a.signature.value != "" ==> e.signature == a.signature.value)
            && (a.signature.None? || a.signature.value == "" ==>
                  e.signature == match a.strategy case ZScore => "z_score" case Ewma => "ewma"
                                                  case SignatureFrequency => "signature_frequency")
  {
  }

  ghost predicate Named(a: Anomaly) {
    a.signature.Some? && a.signature.value != ""
  }

  lemma {:induction false} NamedTexts(anomalies: seq<Anomaly>, names: seq<string>)
    requires |anomalies| == |names|
    requires forall k :: 0 <= k < |names| ==> Named(anomalies[k]) && anomalies[k].signature.value == names[k]
    ensures SignatureTexts(anomalies) == names
  {
    if names != [] { NamedTexts(anomalies[1..], names[1..]); }
  }

  lemma {:induction false} UnnamedTexts(anomalies: seq<Anomaly>)
    requires forall k :: 0 <= k < |anomalies| ==> !Named(anomalies[k])
    ensures SignatureTexts(anomalies) == []
  {
    if anomalies != [] { UnnamedTexts(anomalies[1..]); }
  }

  lemma TextsCons(a: Anomaly, rest: seq<Anomaly>)
    ensures SignatureTexts([a] + rest) == (if Named(a) then [a.signature.value] else []) + SignatureTexts(rest)
  {
    assert ([a] + rest)[1..] == rest;
  }

  /** The signatures of the anomalies are listed in order; anomalies without one do not show. */
  lemma {:induction false} TextsAppend(a: seq<Anomaly>, b: seq<Anomaly>)
    ensures SignatureTexts(a + b) == SignatureTexts(a) + SignatureTexts(b)
  {
    assert SignatureTexts([]) == [];
    hide SignatureTexts;
    if a == [] { assert a + b == b; }
    else {
      TextsAppend(a[1..], b);
      TextsCons(a[0], a[1..]);
      TextsCons(a[0], a[1..] + b);
      assert a == [a[0]] + a[1..] && a + b == [a[0]] + (a[1..] + b);
    }
  }

  // ----- Reports of a run -----

  /** From record m on, the log holds these calls of incident k. */
  ghost predicate LoggedAt(s: Store, k: nat, m: nat, calls: seq<Call>) {
    m + |calls| <= |s.records| && forall j :: 0 <= j < |calls| ==> s.records[m + j] == Record(k, calls[j])
  }

  /** Some client of the run answered the four prompts logged from record m on, and the report says what it said. */
  ghost predicate Traced(env: Env, attempts: seq<Attempt>, s: Store, k: nat, report: Report, x: nat, m: nat,
                         calls: seq<Call>) {
    && x < |attempts| && LoggedAt(s, k, m, calls) && |calls| == 4
    && StopAt(attempts[x].client, calls, m) == 4
    && Told(Answering(attempts[x].client), m, calls, report)
  }

  ghost predicate AllTraced(env: Env, attempts: seq<Attempt>, s: Store) {
    forall k: nat :: k < |s.incidents| && s.incidents[k].report.Some? ==>
      exists x, m, calls :: Traced(env, attempts, s, k, s.incidents[k].report.value, x, m, calls)
  }

  lemma TracedFurther(env: Env, attempts: seq<Attempt>, more: seq<Attempt>, s: Store, r: Store)
    requires AllTraced(env, attempts, s) && attempts <= more && s.records <= r.records
    requires forall k: nat :: k < |r.incidents| && r.incidents[k].report.Some? ==>
               k < |s.incidents| && r.incidents[k].report == s.incidents[k].report
    ensures AllTraced(env, more, r)
  {
    hide Told, StopAt;
    forall k: nat | k < |r.incidents| && r.incidents[k].report.Some?
      ensures exists x, m, calls :: Traced(env, more, r, k, r.incidents[k].report.value, x, m, calls)
    {
      var x, m, calls :| Traced(env, attempts, s, k, s.incidents[k].report.value, x, m, calls);
      assert Traced(env, more, r, k, r.incidents[k].report.value, x, m, calls);
    }
  }

  lemma LoggedHere(s: Store, r: Store, k: nat, calls: seq<Call>)
    requires r.records == s.records + Logged(k, calls)
    ensures LoggedAt(r, k, |s.records|, calls) && s.records <= r.records
  {
  }

  /** A completed triage is traced to the records it wrote. */
  lemma TriageTraced(env: Env, attempts: seq<Attempt>, client: Client, x: nat, s: Store, k: nat)
    requires k < |s.incidents| && s.incidents[k].report.None? && x < |attempts| && attempts[x].client == client
    requires TriageStop(env, client, s, k) == 4
    ensures var r := TriagedBy(env, client, s, k);
            k < |r.incidents| && r.incidents[k].report.Some? && s.records <= r.records &&
            exists m, calls :: Traced(env, attempts, r, k, r.incidents[k].report.value, x, m, calls)
  {
    hide RunTriage, Told, StopAt, AnomaliesOf, Logged, LoggedAt, TriagedUntil, Answering;
    var e := Serving(env, client);
    var t := RunTriage(e, s.incidents[k], AnomaliesOf(s.anomalies, k), |s.records|);
    var r := TriagedBy(env, client, s, k);
    TriageTells(e, s.incidents[k], AnomaliesOf(s.anomalies, k), |s.records|);
    UntilShape(e, s, k, 4);
    UntilReport(e, s, k, 4);
    assert t.calls[..4] == t.calls;
    LoggedHere(s, r, k, t.calls);
    assert Traced(env, attempts, r, k, t.report, x, |s.records|, t.calls);
  }

  lemma TriageKeepsTraced(env: Env, attempts: seq<Attempt>, client: Client, x: nat, s: Store, k: nat)
    requires k < |s.incidents| && x < |attempts| && attempts[x].client == client && AllTraced(env, attempts, s)
    ensures AllTraced(env, attempts, TriagedBy(env, client, s, k))
  {
    hide RunTriage, Traced, AnomaliesOf, Logged, TriagedUntil, CallsUntil, TriageStop;
    var e, stop, r := Serving(env, client), TriageStop(env, client, s, k), TriagedBy(env, client, s, k);
    if s.incidents[k].report.Some? { AlreadyTriaged(e, s, k, stop); }
    else {
      UntilShape(e, s, k, stop);
      if stop == 4 { TriageTraced(env, attempts, client, x, s, k); }
      forall j: nat | j < |r.incidents| && j != k && r.incidents[j].report.Some?
        ensures exists x, m, calls :: Traced(env, attempts, r, j, r.incidents[j].report.value, x, m, calls)
      {
        var y, m, calls :| Traced(env, attempts, s, j, s.incidents[j].report.value, y, m, calls);
        StillTraced(env, attempts, s, r, j, s.incidents[j].report.value, y, m, calls);
      }
    }
  }

  lemma StillTraced(env: Env, attempts: seq<Attempt>, s: Store, r: Store, k: nat, report: Report, x: nat, m: nat,
                    calls: seq<Call>)
    requires Traced(env, attempts, s, k, report, x, m, calls) && s.records <= r.records
    ensures Traced(env, attempts, r, k, report, x, m, calls)
  {
    hide Told, StopAt;
  }

  lemma AbsorbedTraced(env: Env, attempts: seq<Attempt>, s: Store, service: string, found: seq<Anomaly>, now: Time)
    requires AllTraced(env, attempts, s)
    ensures AllTraced(env, attempts, Absorbed(env.config, s, service, found, now))
  {
    hide Absorbed, Target, DeriveSeverity, AnomaliesOf, Traced, AllTraced;
    AbsorbedIncidents(env.config, s, service, found, now);
    TracedFurther(env, attempts, attempts, s, Absorbed(env.config, s, service, found, now));
  }

  lemma ProcessKeepsTraced(env: Env, attempts: seq<Attempt>, s: Store, a: Attempt)
    requires env.config.Valid() && AllTraced(env, attempts, s) && a in attempts && a.step.Process?
    ensures AllTraced(env, attempts, ProcessedBy(env, a.client, s, a.step.service, a.step.now))
  {
    hide Found, Absorbed, Target, TriagedUntil, Fired, AllTraced, TriageStop, Interrupts;
    var c, service, now := env.config, a.step.service, a.step.now;
    var x :| 0 <= x < |attempts| && attempts[x] == a;
    var found := Detected(c, s, service, now);
    if found != [] {
      var k, b := Target(c, s, service, now), Absorbed(c, s, service, found, now);
      AbsorbedTraced(env, attempts, s, service, found, now);
      TriageKeepsTraced(env, attempts, a.client, x, b, k);
      var t := TriagedBy(env, a.client, b, k);
      SameReportsTraced(env, attempts, t, Raised(c, t, k, now));
    }
  }

  lemma SameReportsTraced(env: Env, attempts: seq<Attempt>, s: Store, r: Store)
    requires AllTraced(env, attempts, s) && r.records == s.records && |r.incidents| == |s.incidents|
    requires forall k :: 0 <= k < |s.incidents| ==> r.incidents[k].report == s.incidents[k].report
    ensures AllTraced(env, attempts, r)
  {
    hide AllTraced;
    TracedFurther(env, attempts, attempts, s, r);
  }

  lemma StepTraced(env: Env, attempts: seq<Attempt>, s: Store, a: Attempt)
    requires env.config.Valid() && AllTraced(env, attempts, s)
    ensures AllTraced(env, attempts + [a], ApplyBy(env, s, a))
  {
    hide AllTraced, ProcessedBy, Processed;
    TracedFurther(env, attempts, attempts + [a], s, s);
    if a.step.Process? { ProcessKeepsTraced(env, attempts + [a], s, a); }
    else { SameReportsTraced(env, attempts + [a], s, ApplyBy(env, s, a)); }
  }

  /**
   After every run each report is what one of the run's clients said to the four prompts that the log holds of
   the incident, none of which raised.
   */
  lemma {:induction false} RunReportsTraced(env: Env, attempts: seq<Attempt>)
    requires env.config.Valid()
    ensures AllTraced(env, attempts, RunBy(env, attempts))
  {
    hide ApplyBy, AllTraced;
    if attempts == [] { NothingTraced(env); }
    else {
      var init, last := attempts[..|attempts| - 1], attempts[|attempts| - 1];
      RunReportsTraced(env, init);
      StepTraced(env, init, RunBy(env, init), last);
      assert attempts == init + [last];
    }
  }

  lemma NothingTraced(env: Env)
    ensures AllTraced(env, [], EmptyStore())
  {
  }
}
