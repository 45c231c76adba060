/** Whole runs: any interleaving of ingestion, processing and status changes, from empty tables. */
module Runs {
  import opened Wrappers
  import opened Records
  import opened Detection
  import opened Triage
  import opened Prompts
  import opened Regex
  import opened Pipeline
  import opened Invariants
  import opened Sorting

  datatype Step =
    | Ingest(batch: seq<Event>)
    | Process(service: string, now: Time)
    | Patch(id: nat, status: Status, now: Time)

  function Apply(env: Env, s: Store, step: Step): Store
    requires env.config.Valid()
  {
    match step
    case Ingest(batch) => s.(events := s.events + batch)
    case Process(service, now) => Processed(env, s, service, now)
    case Patch(id, status, now) => Updated(s, id, status, now)
  }

  function Run(env: Env, steps: seq<Step>): Store
    requires env.config.Valid()
  {
    hide Apply;
    if steps == [] then EmptyStore() else Apply(env, Run(env, steps[..|steps| - 1]), steps[|steps| - 1])
  }

  lemma RunAppend(env: Env, before: seq<Step>, step: Step)
    requires env.config.Valid()
    ensures Run(env, before + [step]) == Apply(env, Run(env, before), step)
  {
    hide Apply;
    assert (before + [step])[..|before|] == before;
  }

  // ----- Consistency of every run -----

  lemma EmptyConsistent()
    ensures Consistent(EmptyStore()) && AllTriaged(EmptyStore())
  {
  }

  lemma IngestConsistent(s: Store, batch: seq<Event>)
    requires Consistent(s)
    ensures Consistent(s.(events := s.events + batch))
  {
    hide AllLinked, AlertsKeyed, KeysUnique, SeveritiesDerived;
    var r := s.(events := s.events + batch);
    LinksKept(s, r);
    RowsKept(s, r);
    AlertsKept(s, r);
  }

  lemma ProcessedTriaged(env: Env, s: Store, service: string, now: Time)
    requires env.config.Valid() && AllTriaged(s)
    ensures AllTriaged(Processed(env, s, service, now))
  {
    hide Found, Absorbed, TriagedAt, Target;
    var c, found := env.config, Detected(env.config, s, service, now);
    if found != [] {
      AbsorbedIncidents(c, s, service, found, now);
      TriagedShape(env, Absorbed(c, s, service, found, now), Target(c, s, service, now));
    }
  }

  lemma ApplyConsistent(env: Env, s: Store, step: Step)
    requires env.config.Valid() && Consistent(s) && AllTriaged(s)
    ensures Consistent(Apply(env, s, step)) && AllTriaged(Apply(env, s, step))
  {
    hide Consistent, Processed;
    match step
    case Ingest(batch) => IngestConsistent(s, batch);
    case Process(service, now) =>
      ProcessedConsistent(env, s, service, now);
      ProcessedTriaged(env, s, service, now);
    case Patch(id, status, now) => UpdatedConsistent(s, id, status, now);
  }

  /**
   After any run every anomaly is linked to an incident of its service, keys are unique, severities
   are derived from the linked counts, and every incident has its four calls logged.
   */
  lemma {:induction false} RunConsistent(env: Env, steps: seq<Step>)
    requires env.config.Valid()
    ensures Consistent(Run(env, steps)) && AllTriaged(Run(env, steps))
  {
    hide Consistent, AllTriaged, Apply;
    if steps == [] { EmptyConsistent(); }
    else {
      RunConsistent(env, steps[..|steps| - 1]);
      ApplyConsistent(env, Run(env, steps[..|steps| - 1]), steps[|steps| - 1]);
    }
  }

  lemma ProcessedSpaced(env: Env, s: Store, service: string, now: Time)
    requires env.config.Valid() && Distinct(env.config.channels) && Spaced(s.alerts, env.config.rateLimit)
    ensures Spaced(Processed(env, s, service, now).alerts, env.config.rateLimit)
  {
    hide Spaced, Found, Absorbed, TriagedAt, Target, Raised;
    var c, found := env.config, Detected(env.config, s, service, now);
    if found != [] {
      var k, a := Target(c, s, service, now), Absorbed(c, s, service, found, now);
      AbsorbedIncidents(c, s, service, found, now);
      TriagedShape(env, a, k);
      RaisedSpaced(c, TriagedAt(env, a, k), k, now);
    }
  }

  /** With distinct channels the alerts of any run are spaced, without any assumption on the clock. */
  lemma {:induction false} RunSpaced(env: Env, steps: seq<Step>)
    requires env.config.Valid() && Distinct(env.config.channels)
    ensures Spaced(Run(env, steps).alerts, env.config.rateLimit)
  {
    hide Processed;
    if steps != [] {
      var s, step := Run(env, steps[..|steps| - 1]), steps[|steps| - 1];
      RunSpaced(env, steps[..|steps| - 1]);
      if step.Process? { ProcessedSpaced(env, s, step.service, step.now); }
    }
  }

  /** Anomalies linked to the first n incidents. */
  function LinkedTotal(s: Store, n: nat): nat {
    if n == 0 then 0 else LinkedTotal(s, n - 1) + |AnomaliesOf(s.anomalies, n - 1)|
  }

  function LinkedBelow(rows: seq<Row>, n: nat): nat {
    if rows == [] then 0
    else
      var r := rows[|rows| - 1];
      LinkedBelow(rows[..|rows| - 1], n) + (if r.incident.Some? && r.incident.value < n then 1 else 0)
  }

  lemma {:induction false} LinkedBelowNext(rows: seq<Row>, n: nat)
    ensures LinkedBelow(rows, n + 1) == LinkedBelow(rows, n) + |AnomaliesOf(rows, n)|
  {
    if rows != [] { LinkedBelowNext(rows[..|rows| - 1], n); }
  }

  lemma {:induction false} LinkedBelowZero(rows: seq<Row>)
    ensures LinkedBelow(rows, 0) == 0
  {
    if rows != [] { LinkedBelowZero(rows[..|rows| - 1]); }
  }

  lemma {:induction false} LinkedTotalIsBelow(s: Store, n: nat)
    ensures LinkedTotal(s, n) == LinkedBelow(s.anomalies, n)
  {
    if n == 0 { LinkedBelowZero(s.anomalies); }
    else {
      LinkedTotalIsBelow(s, n - 1);
      LinkedBelowNext(s.anomalies, n - 1);
    }
  }

  lemma {:induction false} AllBelow(rows: seq<Row>, n: nat)
    requires forall i :: 0 <= i < |rows| ==> rows[i].incident.Some? && rows[i].incident.value < n
    ensures LinkedBelow(rows, n) == |rows|
  {
    if rows != [] { AllBelow(rows[..|rows| - 1], n); }
  }

  /** The incidents' anomaly counts add up to the number of anomalies: each is linked exactly once. */
  lemma CountsAddUp(s: Store)
    requires AllLinked(s)
    ensures LinkedTotal(s, |s.incidents|) == |s.anomalies|
  {
    forall i | 0 <= i < |s.anomalies|
      ensures s.anomalies[i].incident.Some? && s.anomalies[i].incident.value < |s.incidents|
    {
      assert RowLinked(s, s.anomalies[i]);
    }
    LinkedTotalIsBelow(s, |s.incidents|);
    AllBelow(s.anomalies, |s.incidents|);
  }

  // ----- Severity never falls -----

  ghost predicate NoSeverityFalls(s: Store, r: Store) {
    && |s.incidents| <= |r.incidents|
    && forall k: nat :: k < |s.incidents| ==> s.incidents[k].severity.Rank() <= r.incidents[k].severity.Rank()
  }

  lemma DeriveMonotone(m: nat, n: nat)
    requires m <= n
    ensures DeriveSeverity(m).Rank() <= DeriveSeverity(n).Rank()
  {
  }

  lemma AbsorbedSeverityUp(c: Config, s: Store, service: string, found: seq<Anomaly>, now: Time)
    requires SeveritiesDerived(s)
    ensures NoSeverityFalls(s, Absorbed(c, s, service, found, now))
  {
    hide Absorbed, Target, DeriveSeverity, AnomaliesOf;
    var k := Target(c, s, service, now);
    AbsorbedIncidents(c, s, service, found, now);
    AbsorbedCounts(c, s, service, found, now, k);
    if k < |s.incidents| {
      DeriveMonotone(|AnomaliesOf(s.anomalies, k)|, |AnomaliesOf(s.anomalies, k)| + |found|);
    }
  }

  lemma SeverityNeverFalls(env: Env, s: Store, step: Step)
    requires env.config.Valid() && SeveritiesDerived(s)
    ensures NoSeverityFalls(s, Apply(env, s, step))
  {
    hide Found, Absorbed, TriagedAt, Target, AllLinked, KeysUnique, SeveritiesDerived, TriageLogged, AlertsKeyed;
    if step.Process? {
      var c, found := env.config, Detected(env.config, s, step.service, step.now);
      if found != [] {
        var k, a := Target(c, s, step.service, step.now), Absorbed(c, s, step.service, found, step.now);
        AbsorbedSeverityUp(c, s, step.service, found, step.now);
        TriagedShape(env, a, k);
      }
    }
  }

  // ----- Status changes of a run -----

  /** The status the run's last change of incident k set. */
  function LastStatus(env: Env, steps: seq<Step>, k: nat): Status
    requires env.config.Valid()
  {
    hide Apply;
    if steps == [] then Open
    else
      var init, last := steps[..|steps| - 1], steps[|steps| - 1];
      if last.Patch? && last.id == k < |Run(env, init).incidents| then last.status else LastStatus(env, init, k)
  }

  /** The time of the run's last change of incident k to Resolved. */
  function LastResolution(env: Env, steps: seq<Step>, k: nat): Option<Time>
    requires env.config.Valid()
  {
    hide Apply;
    if steps == [] then None
    else
      var init, last := steps[..|steps| - 1], steps[|steps| - 1];
      if last.Patch? && last.id == k < |Run(env, init).incidents| && last.status == Resolved then Some(last.now)
      else LastResolution(env, init, k)
  }

  /** Incident k has this status and resolution time; before it exists it counts as open. */
  ghost predicate Stands(s: Store, k: nat, status: Status, resolvedAt: Option<Time>) {
    if k < |s.incidents| then s.incidents[k].status == status && s.incidents[k].resolvedAt == resolvedAt
    else status == Open && resolvedAt == None
  }

  lemma ProcessedStands(env: Env, s: Store, service: string, now: Time, k: nat, status: Status,
                        resolvedAt: Option<Time>)
    requires env.config.Valid() && Stands(s, k, status, resolvedAt)
    ensures Stands(Processed(env, s, service, now), k, status, resolvedAt)
  {
    hide Found, Absorbed, TriagedAt, Target, Fired, Keys, DeriveSeverity;
    var c, found := env.config, Detected(env.config, s, service, now);
    if found != [] {
      AbsorbedIncidents(c, s, service, found, now);
      TriagedShape(env, Absorbed(c, s, service, found, now), Target(c, s, service, now));
    }
  }

  lemma {:induction false} StatusStands(env: Env, steps: seq<Step>, k: nat)
    requires env.config.Valid()
    ensures Stands(Run(env, steps), k, LastStatus(env, steps, k), LastResolution(env, steps, k))
    ensures LastStatus(env, steps, k) == Resolved ==> LastResolution(env, steps, k).Some?
  {
    hide Processed;
    if steps != [] {
      var init, last := steps[..|steps| - 1], steps[|steps| - 1];
      StatusStands(env, init, k);
      if last.Process? {
        ProcessedStands(env, Run(env, init), last.service, last.now, k, LastStatus(env, init, k),
          LastResolution(env, init, k));
      }
    }
  }

  /** In every run an incident has the status it was last given and carries the time it was last resolved. */
  lemma RunStamped(env: Env, steps: seq<Step>, k: nat)
    requires env.config.Valid() && k < |Run(env, steps).incidents|
    ensures var i := Run(env, steps).incidents[k];
            && i.status == LastStatus(env, steps, k)
            && i.resolvedAt == LastResolution(env, steps, k)
            && (i.status == Resolved ==> i.resolvedAt.Some?)
  {
    hide Run, LastStatus, LastResolution;
    StatusStands(env, steps, k);
  }

  // ----- Prompts -----

  /** Every logged prompt but the executive summaries holds its delimiter once. */
  ghost predicate PromptsClosed(records: seq<Record>) {
    forall i :: 0 <= i < |records| && records[i].call.agent != ExecutiveSummary ==> Once(records[i].call.prompt)
  }

  /** The executive prompt of a triaged incident does so iff no action in its report brings the delimiter in. */
  ghost predicate ExecutivesClosed(s: Store) {
    forall k: nat :: k < |s.incidents| && s.incidents[k].report.Some? ==>
      ExecutiveClosed(CallsOf(s.records, k), s.incidents[k].report.value)
  }

  ghost predicate ExecutiveClosed(calls: seq<Call>, report: Report) {
    |calls| == 4 && (Once(calls[3].prompt) <==> forall i :: 0 <= i < |report.actions| ==> Clean(report.actions[i]))
  }

  lemma LoggedClosed(records: seq<Record>, k: nat, t: Triaged)
    requires PromptsClosed(records) && ClosedOnce(t)
    ensures PromptsClosed(records + Logged(k, t.calls)) && ExecutiveClosed(t.calls, t.report)
  {
    hide Once, Clean;
    var all, n := records + Logged(k, t.calls), |records|;
    assert FourAgents()[3] == ExecutiveSummary && Agents(t.calls)[3] == t.calls[3].agent;
    forall i | 0 <= i < |all| && all[i].call.agent != ExecutiveSummary ensures Once(all[i].call.prompt) {
      if i < n { assert all[i] == records[i]; }
      else { assert all[i].call == t.calls[i - n]; }
    }
  }

  /** What a triage at incident k does to the log and the report. */
  lemma TriagedUnfolds(env: Env, s: Store, k: nat)
    requires k < |s.incidents| && s.incidents[k].report.None?
    ensures var t, r := RunTriage(env, s.incidents[k], AnomaliesOf(s.anomalies, k), |s.records|), TriagedAt(env, s, k);
            && r.records == s.records + Logged(k, t.calls)
            && r.incidents == s.incidents[k := s.incidents[k].(report := Some(t.report))]
  {
    hide RunTriage, Logged;
  }

  lemma TriagedClosed(env: Env, s: Store, k: nat)
    requires Sane(env.unicode) && k < |s.incidents| && TriageLogged(s)
    requires PromptsClosed(s.records) && ExecutivesClosed(s)
    ensures PromptsClosed(TriagedAt(env, s, k).records) && ExecutivesClosed(TriagedAt(env, s, k))
  {
    hide TriagedAt, RunTriage, ClosedOnce, PromptsClosed, ExecutiveClosed, TriageLogged, CallsOf, Logged;
    TriagedShape(env, s, k);
    if s.incidents[k].report.None? {
      var t, r := RunTriage(env, s.incidents[k], AnomaliesOf(s.anomalies, k), |s.records|), TriagedAt(env, s, k);
      TriagePromptsOnce(env, s.incidents[k], AnomaliesOf(s.anomalies, k), |s.records|);
      TriagedUnfolds(env, s, k);
      LoggedClosed(s.records, k, t);
      NothingLoggedYet(s, k);
      forall j: nat ensures CallsOf(r.records, j) == if j == k then t.calls else CallsOf(s.records, j) {
        TriagedCalls(env, s, k, j);
        assert CallsOf(s.records, j) + [] == CallsOf(s.records, j) && [] + t.calls == t.calls;
      }
    }
  }

  lemma ProcessedClosed(env: Env, s: Store, service: string, now: Time)
    requires env.config.Valid() && Sane(env.unicode) && Consistent(s)
    requires PromptsClosed(s.records) && ExecutivesClosed(s)
    ensures var r := Processed(env, s, service, now); PromptsClosed(r.records) && ExecutivesClosed(r)
  {
    hide Found, Absorbed, TriagedAt, Target, Fired, Keys, TriageLogged, PromptsClosed, ExecutiveClosed, CallsOf;
    hide DeriveSeverity, AllLinked, KeysUnique, SeveritiesDerived, AlertsKeyed;
    var c, found := env.config, Detected(env.config, s, service, now);
    if found != [] {
      var k, a := Target(c, s, service, now), Absorbed(c, s, service, found, now);
      AbsorbedIncidents(c, s, service, found, now);
      AbsorbedLogged(c, s, service, found, now);
      TriagedClosed(env, a, k);
    }
  }

  /**
   In the log of every run each prompt of the first three agents holds its delimiter exactly once, and
   the executive prompt of an incident does iff the recommended actions in its report are clean.
   */
  lemma {:induction false} RunPromptsOnce(env: Env, steps: seq<Step>)
    requires env.config.Valid() && Sane(env.unicode)
    ensures PromptsClosed(Run(env, steps).records) && ExecutivesClosed(Run(env, steps))
  {
    hide Processed, PromptsClosed, ExecutiveClosed, CallsOf, Consistent;
    if steps == [] { assert PromptsClosed([]) by { NoPrompts(); } }
    else {
      var init, last := steps[..|steps| - 1], steps[|steps| - 1];
      RunPromptsOnce(env, init);
      RunConsistent(env, init);
      if last.Process? { ProcessedClosed(env, Run(env, init), last.service, last.now); }
    }
  }

  lemma NoPrompts()
    ensures PromptsClosed([])
  {
  }

  // ----- Running again -----

  lemma AbsorbedKeys(c: Config, s: Store, service: string, found: seq<Anomaly>, now: Time)
    ensures var keys := Keys(Absorbed(c, s, service, found, now).anomalies);
            Keys(s.anomalies) <= keys && forall a :: a in found ==> KeyOf(a) in keys
  {
    var r := Absorbed(c, s, service, found, now);
    AbsorbedRows(c, s, service, found, now);
    hide Absorbed, Target, KeyOf;
    forall key | key in Keys(s.anomalies) ensures key in Keys(r.anomalies) {
      var i :| 0 <= i < |s.anomalies| && KeyOf(s.anomalies[i].anomaly) == key;
      assert r.anomalies[i] == s.anomalies[i];
    }
    forall a | a in found ensures KeyOf(a) in Keys(r.anomalies) {
      var i :| 0 <= i < |found| && found[i] == a;
      assert r.anomalies[|s.anomalies| + i].anomaly == a;
    }
  }

  /** Processing a service again at the same time returns nothing and changes no table. */
  lemma ProcessedAgain(env: Env, s: Store, service: string, now: Time)
    requires env.config.Valid()
    ensures var r := Processed(env, s, service, now);
            && Processed(env, r, service, now) == r
            && Touched(env, r, service, now) == None
  {
    hide Found, Absorbed, TriagedAt, Target, Keys, Fired;
    var c, found := env.config, Detected(env.config, s, service, now);
    if found != [] {
      var k, a := Target(c, s, service, now), Absorbed(c, s, service, found, now);
      AbsorbedKeys(c, s, service, found, now);
      AbsorbedIncidents(c, s, service, found, now);
      TriagedShape(env, a, k);
      FoundAgain(c, Keys(s.anomalies), Keys(a.anomalies), s.events, service, now);
    }
  }

  // ----- At most one live incident -----

  /** Incidents i and j are different rows of one service and both live. */
  predicate TwoLive(s: Store, i: nat, j: nat, since: Time) {
    && i < |s.incidents| && j < |s.incidents| && i != j
    && s.incidents[i].service == s.incidents[j].service
    && Live(s.incidents[i], since) && Live(s.incidents[j], since)
  }

  /** No service has two unresolved incidents inside the correlation window. */
  ghost predicate OneLive(c: Config, s: Store, now: Time) {
    NoTwoLive(s, now - c.correlationWindow)
  }

  ghost predicate NoTwoLive(s: Store, since: Time) {
    forall i: nat, j: nat :: !TwoLive(s, i, j, since)
  }

  lemma OneLiveLater(c: Config, s: Store, now: Time, later: Time)
    requires OneLive(c, s, now) && now <= later
    ensures OneLive(c, s, later)
  {
    var before, after := now - c.correlationWindow, later - c.correlationWindow;
    forall i: nat, j: nat ensures !TwoLive(s, i, j, after) {
      assert !TwoLive(s, i, j, before);
    }
  }

  lemma TargetLive(c: Config, s: Store, service: string, now: Time)
    ensures var k, since := Target(c, s, service, now), now - c.correlationWindow;
            if k < |s.incidents| then s.incidents[k].service == service && Live(s.incidents[k], since)
            else forall j: nat :: j < |s.incidents| && s.incidents[j].service == service ==>
              !Live(s.incidents[j], since)
  {
    hide Live;
  }

  /** The incident a run touches is the only live one of its service afterwards. */
  lemma AbsorbedOneLive(c: Config, s: Store, service: string, found: seq<Anomaly>, now: Time)
    requires OneLive(c, s, now)
    ensures OneLive(c, Absorbed(c, s, service, found, now), now)
  {
    hide Absorbed, Target, DeriveSeverity, AnomaliesOf;
    var since, k, r := now - c.correlationWindow, Target(c, s, service, now), Absorbed(c, s, service, found, now);
    TargetLive(c, s, service, now);
    AbsorbedIncidents(c, s, service, found, now);
    forall i: nat, j: nat ensures !TwoLive(r, i, j, since) {
      assert !TwoLive(s, i, j, since);
    }
  }

  lemma ProcessedOneLive(env: Env, s: Store, service: string, now: Time)
    requires env.config.Valid() && OneLive(env.config, s, now)
    ensures OneLive(env.config, Processed(env, s, service, now), now)
  {
    hide Found, Absorbed, TriagedAt, Target, OneLive;
    var c, found := env.config, Detected(env.config, s, service, now);
    if found != [] {
      var k, a := Target(c, s, service, now), Absorbed(c, s, service, found, now);
      AbsorbedOneLive(c, s, service, found, now);
      TriagedShape(env, a, k);
      OneLiveSame(c, a, TriagedAt(env, a, k), now);
      OneLiveSame(c, TriagedAt(env, a, k), Raised(c, TriagedAt(env, a, k), k, now), now);
    }
  }

  lemma OneLiveSame(c: Config, s: Store, r: Store, now: Time)
    requires OneLive(c, s, now) && |r.incidents| == |s.incidents|
    requires forall k: nat :: k < |s.incidents| ==>
      && r.incidents[k].service == s.incidents[k].service
      && r.incidents[k].status == s.incidents[k].status
      && r.incidents[k].updatedAt == s.incidents[k].updatedAt
    ensures OneLive(c, r, now)
  {
    var since := now - c.correlationWindow;
    forall i: nat, j: nat ensures !TwoLive(r, i, j, since) {
      assert !TwoLive(s, i, j, since);
    }
  }

  /** The check a caller can make before a status change: it resolves, or no other incident of the service is live. */
  predicate Safe(c: Config, s: Store, k: nat, status: Status, now: Time) {
    k >= |s.incidents| || status == Resolved || !OtherLive(s, k, now - c.correlationWindow)
  }

  predicate OtherLive(s: Store, k: nat, since: Time)
    requires k < |s.incidents|
  {
    exists j :: 0 <= j < |s.incidents| && j != k
                && s.incidents[j].service == s.incidents[k].service && Live(s.incidents[j], since)
  }

  /** A status change keeps the single live incident exactly when the check allows it. */
  lemma PatchKeepsOneLive(c: Config, s: Store, k: nat, status: Status, now: Time)
    requires OneLive(c, s, now)
    ensures OneLive(c, Updated(s, k, status, now), now) <==> Safe(c, s, k, status, now)
  {
    var since, r := now - c.correlationWindow, Updated(s, k, status, now);
    if Safe(c, s, k, status, now) {
      forall i: nat, j: nat ensures !TwoLive(r, i, j, since) {
        assert !TwoLive(s, i, j, since);
      }
    } else {
      var j: nat :| j < |s.incidents| && j != k && s.incidents[j].service == s.incidents[k].service &&
        Live(s.incidents[j], since);
      assert TwoLive(r, k, j, since);
    }
  }

  /** The time of the last processing or status change. */
  function Clock(steps: seq<Step>): Option<Time> {
    if steps == [] then None
    else
      var last := steps[|steps| - 1];
      if last.Ingest? then Clock(steps[..|steps| - 1]) else Some(last.now)
  }

  /** The step is not dated before the clock, and if it is a status change, it passes the check. */
  ghost predicate Permitted(c: Config, s: Store, clock: Option<Time>, step: Step) {
    && (!step.Ingest? && clock.Some? ==> clock.value <= step.now)
    && (step.Patch? ==> Safe(c, s, step.id, step.status, step.now))
  }

  /** Times do not run backwards and every status change passes the check. */
  ghost predicate Orderly(env: Env, steps: seq<Step>)
    requires env.config.Valid()
  {
    hide Apply, Permitted;
    steps == [] ||
    var init, last := steps[..|steps| - 1], steps[|steps| - 1];
    Orderly(env, init) && Permitted(env.config, Run(env, init), Clock(init), last)
  }

  lemma EmptyOneLive(c: Config, now: Time)
    ensures OneLive(c, EmptyStore(), now)
  {
  }

  /** In an orderly run no service ever has two live incidents. */
  lemma {:induction false} RunOneLive(env: Env, steps: seq<Step>, now: Time)
    requires env.config.Valid() && Orderly(env, steps)
    requires Clock(steps).Some? ==> Clock(steps).value <= now
    ensures OneLive(env.config, Run(env, steps), now)
  {
    hide NoTwoLive, Processed, Updated, Safe;
    if steps == [] { EmptyOneLive(env.config, now); }
    else {
      var c, init, last := env.config, steps[..|steps| - 1], steps[|steps| - 1];
      var s := Run(env, init);
      if last.Ingest? {
        RunOneLive(env, init, now);
        OneLiveSame(c, s, Run(env, steps), now);
      } else {
        RunOneLive(env, init, last.now);
        if last.Process? { ProcessedOneLive(env, s, last.service, last.now); }
        else { PatchKeepsOneLive(c, s, last.id, last.status, last.now); }
        OneLiveLater(c, Run(env, steps), last.now, now);
      }
    }
  }
}
