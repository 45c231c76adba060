/**
 The triage of one incident: four calls of the model, each with a deterministic fallback
 (backend/app/triage/triage_service.py, base_agent.py and agents/).
 */
module Triage {
  import opened Wrappers
  import opened Records
  import opened Detectors
  import opened Prompts
  import opened Text
  import opened Regex

  function Or(s: string, default: string): string {
    if s == "" then default else s
  }

  function StrategyText(s: Strategy): string {
    match s
    case ZScore => "z_score"
    case Ewma => "ewma"
    case SignatureFrequency => "signature_frequency"
  }

  function SeverityText(s: Severity): string {
    match s
    case Low => "LOW"
    case Medium => "MEDIUM"
    case High => "HIGH"
    case Severe => "CRITICAL"
  }

  /** The signatures that are present and not empty. */
  function SignatureTexts(anomalies: seq<Anomaly>): seq<string> {
    if anomalies == [] then []
    else
      var a := anomalies[0];
      (if a.signature.Some? && a.signature.value != "" then [a.signature.value] else [])
      + SignatureTexts(anomalies[1..])
  }

  function IncidentSummary(i: Incident, anomalies: seq<Anomaly>): string {
    "Degradation in " + i.service + " on service " + Or(i.service, "unknown") +
    " (severity " + SeverityText(i.severity) + "); " + IntText(|anomalies|) + " anomalies with signatures: " +
    Or(Join(SignatureTexts(anomalies), ", "), "no distinct signatures") + "."
  }

  /** `int(x)`: truncation towards zero. */
  function Truncated(x: real): int {
    if x >= 0.0 then x.Floor else -((-x).Floor)
  }

  function EventName(a: Anomaly): string {
    if a.signature.Some? && a.signature.value != "" then a.signature.value else StrategyText(a.strategy)
  }

  function TopEvents(anomalies: seq<Anomaly>): (events: seq<TopEvent>)
    ensures |events| == |anomalies|
  {
    seq(|anomalies|, i requires 0 <= i < |anomalies| =>
      TopEvent(EventName(anomalies[i]), Truncated(anomalies[i].currentValue), "ERROR"))
  }

  const FALLBACK_CAUSE := "Root cause undetermined; triage unavailable."

  function FallbackActions(): seq<string> {
    [ "Investigate the dominant error signature on the affected service.",
      "Roll back the most recent correlated deployment if applicable.",
      "Escalate to the on-call owner if the error rate keeps climbing." ]
  }

  function FallbackSummary(category: Category, rootCause: string): string {
    "A " + CategoryText(category) + " incident was detected. Probable cause: " + rootCause +
    ". Automated summary (triage fallback); review the recommended actions."
  }

  function OutcomeOf<T>(r: Result<T, Failure>): Outcome {
    match r
    case Ok(_) => Answered
    case Err(f) => Failed(f)
  }

  function OrElse<T>(r: Result<T, Failure>, default: T): T {
    match r
    case Ok(v) => v
    case Err(_) => default
  }

  function References(retrieved: seq<Excerpt>): seq<Reference> {
    seq(|retrieved|, i requires 0 <= i < |retrieved| => Reference(retrieved[i].slug, retrieved[i].title))
  }

  function Query(category: Category, rootCause: string, events: seq<TopEvent>): string {
    CategoryText(category) + " " + rootCause + " " +
    Join(seq(|events|, i requires 0 <= i < |events| => events[i].signature), " ")
  }

  datatype Triaged = Triaged(report: Report, calls: seq<Call>)

  /** The four calls and the report; `first` is the number of calls made before. */
  function RunTriage(env: Env, i: Incident, anomalies: seq<Anomaly>, first: nat): (t: Triaged)
    ensures |t.calls| == 4
  {
    hide *;
    var summary, events := IncidentSummary(i, anomalies), TopEvents(anomalies);
    var u, v := env.unicode, env.wording;
    var p1 := ClassificationPrompt(u, v, summary, events);
    var r1 := env.llm.classify(first, p1);
    var kind := OrElse(r1, Classified(Unknown, 0.0));
    var p2 := RootCausePrompt(u, v, kind.category, summary, events);
    var r2 := env.llm.analyze(first + 1, p2);
    var cause := OrElse(r2, Cause(FALLBACK_CAUSE, 0.0));
    var retrieved := env.retrieve(Query(kind.category, cause.rootCause, events));
    var p3 := RemediationPrompt(u, v, summary, cause.rootCause, retrieved);
    var r3 := env.llm.recommend(first + 2, p3);
    var actions := OrElse(r3, FallbackActions());
    var p4 := ExecutivePrompt(u, v, kind.category, summary, cause.rootCause, actions);
    var r4 := env.llm.summarize(first + 3, p4);
    Triaged(
      Report(kind.category, cause.rootCause, OrElse(r4, FallbackSummary(kind.category, cause.rootCause)),
             (kind.confidence + cause.confidence) / 2.0, actions, References(retrieved)),
      [ Call(Classification, p1, OutcomeOf(r1)), Call(RootCause, p2, OutcomeOf(r2)),
        Call(Remediation, p3, OutcomeOf(r3)), Call(ExecutiveSummary, p4, OutcomeOf(r4)) ])
  }

  // ----- Calls that raise -----

  /** The model behind a client; where the client raises, its answer is never used. */
  function Answering(client: Client): Llm {
    Llm((n: nat, p: string) => ResultOf(client.classify(n, p)),
        (n: nat, p: string) => ResultOf(client.analyze(n, p)),
        (n: nat, p: string) => ResultOf(client.recommend(n, p)),
        (n: nat, p: string) => ResultOf(client.summarize(n, p)))
  }

  function ResultOf<T>(reply: Reply<T>): Result<T, Failure> {
    match reply
    case Gives(result) => result
    case Raises => Err(Timeout)
  }

  function Serving(env: Env, client: Client): Env {
    env.(llm := Answering(client))
  }

  /** The number of the first of these four calls that raises; 4 if none does. */
  function StopAt(client: Client, calls: seq<Call>, first: nat): (stop: nat)
    requires |calls| == 4
    ensures stop <= 4
  {
    if client.classify(first, calls[0].prompt).Raises? then 0
    else if client.analyze(first + 1, calls[1].prompt).Raises? then 1
    else if client.recommend(first + 2, calls[2].prompt).Raises? then 2
    else if client.summarize(first + 3, calls[3].prompt).Raises? then 3
    else 4
  }

  /** The agents of one triage, in order. */
  function FourAgents(): seq<Agent> {
    [Classification, RootCause, Remediation, ExecutiveSummary]
  }

  function Agents(calls: seq<Call>): (agents: seq<Agent>)
    ensures |agents| == |calls| && forall i :: 0 <= i < |calls| ==> agents[i] == calls[i].agent
  {
    seq(|calls|, i requires 0 <= i < |calls| => calls[i].agent)
  }

  lemma FourCalls(env: Env, i: Incident, anomalies: seq<Anomaly>, first: nat)
    ensures Agents(RunTriage(env, i, anomalies, first).calls) == FourAgents()
  {
    hide ClassificationPrompt, RootCausePrompt, RemediationPrompt, ExecutivePrompt, IncidentSummary, TopEvents, Query;
    hide OutcomeOf, OrElse, FallbackActions, FallbackSummary, References;
  }

  ghost predicate AllFailed(calls: seq<Call>) {
    forall k :: 0 <= k < |calls| ==> calls[k].outcome.Failed?
  }

  /** When all four logged calls failed, what was triaged shows in the references only. */
  lemma OutageReport(env: Env, i: Incident, anomalies: seq<Anomaly>, first: nat)
    ensures var t := RunTriage(env, i, anomalies, first);
            AllFailed(t.calls) ==> exists references ::
              t.report == Report(Unknown, FALLBACK_CAUSE, FallbackSummary(Unknown, FALLBACK_CAUSE), 0.0,
                                 FallbackActions(), references)
  {
    hide ClassificationPrompt, RootCausePrompt, RemediationPrompt, ExecutivePrompt, IncidentSummary, TopEvents, Query;
    hide FallbackActions, FallbackSummary, References;
    var t := RunTriage(env, i, anomalies, first);
    if AllFailed(t.calls) {
      assert t.calls[0].outcome.Failed? && t.calls[1].outcome.Failed? && t.calls[2].outcome.Failed? &&
        t.calls[3].outcome.Failed?;
      assert t.report == Report(Unknown, FALLBACK_CAUSE, FallbackSummary(Unknown, FALLBACK_CAUSE), 0.0,
                                FallbackActions(), t.report.references);
    }
  }

  /** The model's answer depends on the prompt alone. */
  ghost predicate Stateless(llm: Llm) {
    && (forall m, n, p :: llm.classify(m, p) == llm.classify(n, p))
    && (forall m, n, p :: llm.analyze(m, p) == llm.analyze(n, p))
    && (forall m, n, p :: llm.recommend(m, p) == llm.recommend(n, p))
    && (forall m, n, p :: llm.summarize(m, p) == llm.summarize(n, p))
  }

  /** With such a model, triage does not depend on how many calls were made before. */
  lemma TriageIsStateless(env: Env, i: Incident, anomalies: seq<Anomaly>, m: nat, n: nat)
    requires Stateless(env.llm)
    ensures RunTriage(env, i, anomalies, m) == RunTriage(env, i, anomalies, n)
  {
    hide ClassificationPrompt, RootCausePrompt, RemediationPrompt, ExecutivePrompt, IncidentSummary, TopEvents, Query;
    hide OutcomeOf, OrElse, FallbackActions, FallbackSummary, References;
  }

  lemma TopEventsAreClean(anomalies: seq<Anomaly>)
    ensures LevelsClean(TopEvents(anomalies))
  {
    NoAngleClean("ERROR");
  }

  /** The first three prompts close their data once, the fourth iff no recommended action brings the delimiter in. */
  ghost predicate ClosedOnce(t: Triaged) {
    && |t.calls| == 4 && Agents(t.calls) == FourAgents()
    && Once(t.calls[0].prompt) && Once(t.calls[1].prompt) && Once(t.calls[2].prompt)
    && (Once(t.calls[3].prompt) <==> forall k :: 0 <= k < |t.report.actions| ==> Clean(t.report.actions[k]))
  }

  /**
   Whatever the logs, the runbooks and the model say, the first three prompts of a triage close
   their data exactly once. The fourth does so iff no recommended action brings the delimiter in.
   */
  lemma TriagePromptsOnce(env: Env, i: Incident, anomalies: seq<Anomaly>, first: nat)
    requires Sane(env.unicode)
    ensures ClosedOnce(RunTriage(env, i, anomalies, first))
  {
    hide OutcomeOf, FallbackActions, FallbackSummary, References, Clean, Once, OrElse;
    hide ClassificationPrompt, RootCausePrompt, RemediationPrompt, ExecutivePrompt, IncidentSummary, TopEvents, Query;
    var t := RunTriage(env, i, anomalies, first);
    var summary, events := IncidentSummary(i, anomalies), TopEvents(anomalies);
    var u, v := env.unicode, env.wording;
    TopEventsAreClean(anomalies);
    ClassificationPromptOnce(u, v, summary, events);
    RootCausePromptOnce(u, v, t.report.category, summary, events);
    var retrieved := env.retrieve(Query(t.report.category, t.report.rootCause, events));
    RemediationPromptOnce(u, v, summary, t.report.rootCause, retrieved);
    ExecutivePromptOnce(u, v, t.report.category, summary, t.report.rootCause, t.report.actions);
  }
}
