/**
 Correlation as session windows: without status changes, the incidents that the pipeline builds
 online are the sessions of the detected batches, computed offline by cutting at long gaps.
 */
module SessionWindows {
  import opened Wrappers
  import opened Records
  import opened Detection
  import opened Pipeline
  import opened Cases
  import opened Invariants
  import opened Runs

  /** The anomalies of one detection run that found some. */
  datatype Batch = Batch(found: seq<Anomaly>, at: Time)

  // ----- Offline -----

  /** How many batches follow one another without a gap above the window. */
  function GroupLength(b: seq<Batch>, window: nat): (n: nat)
    requires b != []
    ensures 0 < n <= |b|
  {
    if |b| == 1 || b[1].at - b[0].at > window then 1 else 1 + GroupLength(b[1..], window)
  }

  function Sessions(b: seq<Batch>, window: nat): seq<seq<Batch>> {
    if b == [] then []
    else
      var n := GroupLength(b, window);
      [b[..n]] + Sessions(b[n..], window)
  }

  function Flatten(groups: seq<seq<Batch>>): seq<Batch> {
    if groups == [] then [] else groups[0] + Flatten(groups[1..])
  }

  /** The gap before the i-th batch of the group fits the window. */
  predicate Close(group: seq<Batch>, i: nat, window: nat)
    requires 0 < i < |group|
  {
    group[i].at - group[i - 1].at <= window
  }

  ghost predicate Tight(group: seq<Batch>, window: nat) {
    group != [] && forall i: nat :: 0 < i < |group| ==> Close(group, i, window)
  }

  ghost predicate NonEmpty(groups: seq<seq<Batch>>) {
    forall j :: 0 <= j < |groups| ==> groups[j] != []
  }

  function LastOf(groups: seq<seq<Batch>>, j: nat): Time
    requires j < |groups| && groups[j] != []
  {
    groups[j][|groups[j]| - 1].at
  }

  /** The gap before the j-th group does not fit the window. */
  ghost predicate Cut(groups: seq<seq<Batch>>, j: nat, window: nat)
    requires NonEmpty(groups) && 0 < j < |groups|
  {
    groups[j][0].at - LastOf(groups, j - 1) > window
  }

  /** Consecutive groups are more than the window apart. */
  ghost predicate Apart(groups: seq<seq<Batch>>, window: nat) {
    NonEmpty(groups) && forall j: nat :: 0 < j < |groups| ==> Cut(groups, j, window)
  }

  lemma ApartCons(g: seq<Batch>, rest: seq<seq<Batch>>, window: nat)
    requires g != [] && Apart(rest, window)
    requires rest != [] ==> rest[0][0].at - g[|g| - 1].at > window
    ensures Apart([g] + rest, window)
  {
    var groups := [g] + rest;
    forall j: nat | 0 < j < |groups| ensures Cut(groups, j, window) {
      if j > 1 { assert Cut(rest, j - 1, window); }
    }
  }

  lemma {:induction false} GroupIsMaximal(b: seq<Batch>, window: nat)
    requires b != []
    ensures var n := GroupLength(b, window);
            Tight(b[..n], window) && (n < |b| ==> b[n].at - b[n - 1].at > window)
  {
    if |b| > 1 && b[1].at - b[0].at <= window {
      var n := GroupLength(b[1..], window);
      GroupIsMaximal(b[1..], window);
      var group, tail := b[..n + 1], b[1..][..n];
      if n + 1 < |b| { assert b[1..][n] == b[n + 1] && b[1..][n - 1] == b[n]; }
      forall i: nat | 0 < i < |group| ensures Close(group, i, window) {
        if i > 1 { assert Close(tail, i - 1, window); }
      }
    }
  }

  lemma SessionsStep(b: seq<Batch>, window: nat)
    requires b != []
    ensures var n := GroupLength(b, window);
            && Sessions(b, window) == [b[..n]] + Sessions(b[n..], window)
            && Flatten(Sessions(b, window)) == b[..n] + Flatten(Sessions(b[n..], window))
            && b == b[..n] + b[n..]
  {
    hide Flatten, GroupLength;
    var n := GroupLength(b, window);
    FlattenCons(b[..n], Sessions(b[n..], window));
  }

  lemma FlattenCons(g: seq<Batch>, rest: seq<seq<Batch>>)
    ensures Flatten([g] + rest) == g + Flatten(rest)
  {
    assert ([g] + rest)[1..] == rest;
  }

  /** The sessions are the maximal groups of batches whose consecutive gaps fit the window. */
  lemma {:induction false} SessionsAreMaximal(b: seq<Batch>, window: nat)
    ensures var groups := Sessions(b, window);
            && Flatten(groups) == b
            && (forall j :: 0 <= j < |groups| ==> Tight(groups[j], window))
            && Apart(groups, window)
            && (b != [] ==> groups != [] && groups[0][0] == b[0])
    decreases |b|
  {
    if b != [] {
      var n := GroupLength(b, window);
      var rest := Sessions(b[n..], window);
      GroupIsMaximal(b, window);
      SessionsAreMaximal(b[n..], window);
      SessionsStep(b, window);
      hide *;
      ApartCons(b[..n], rest, window);
    }
  }

  lemma {:induction false} GroupLengthAppend(b: seq<Batch>, x: Batch, window: nat)
    requires b != []
    ensures var n := GroupLength(b, window);
            GroupLength(b + [x], window) ==
            if n == |b| && x.at - b[|b| - 1].at <= window then n + 1 else n
    decreases |b|
  {
    var all := b + [x];
    if |b| == 1 {
      assert all[1..] == [x];
    } else {
      assert all[1..] == b[1..] + [x] && all[1] == b[1];
      if b[1].at - b[0].at <= window { GroupLengthAppend(b[1..], x, window); }
    }
  }

  /** One more batch extends the last session or starts a new one. */
  function Extended(groups: seq<seq<Batch>>, x: Batch, window: nat): seq<seq<Batch>> {
    if groups != [] && groups[|groups| - 1] != [] &&
      x.at - groups[|groups| - 1][|groups[|groups| - 1]| - 1].at <= window
    then groups[..|groups| - 1] + [groups[|groups| - 1] + [x]]
    else groups + [[x]]
  }

  lemma {:induction false} SessionsAppend(b: seq<Batch>, x: Batch, window: nat)
    ensures Sessions(b + [x], window) == Extended(Sessions(b, window), x, window)
    decreases |b|
  {
    var all := b + [x];
    if b == [] {
      assert all == [x] && all[..1] == [x] && all[1..] == [];
    } else {
      var n := GroupLength(b, window);
      GroupLengthAppend(b, x, window);
      if n < |b| {
        assert all[..n] == b[..n] && all[n..] == b[n..] + [x];
        SessionsAppend(b[n..], x, window);
        ExtendedTail(b[..n], Sessions(b[n..], window), x, window);
      } else {
        assert b[..n] == b && b[n..] == [] && Sessions(b, window) == [b];
        if x.at - b[n - 1].at <= window { assert all[..n + 1] == all && all[n + 1..] == []; }
        else { assert all[..n] == b && all[n..] == [x] && [x][..1] == [x] && [x][1..] == []; }
      }
    }
  }

  lemma ExtendedTail(g: seq<Batch>, rest: seq<seq<Batch>>, x: Batch, window: nat)
    requires rest != []
    ensures Extended([g] + rest, x, window) == [g] + Extended(rest, x, window)
  {
    assert ([g] + rest)[..|rest|] == [g] + rest[..|rest| - 1];
  }

  // ----- Online -----

  /** What correlation decides about a case. */
  datatype Outline = Outline(
    service: string,
    severity: Severity,
    status: Status,
    createdAt: Time,
    updatedAt: Time,
    anomalies: seq<Anomaly>)

  function OutlineOf(k: Case): Outline {
    var i := k.incident;
    Outline(i.service, i.severity, i.status, i.createdAt, i.updatedAt, k.anomalies)
  }

  function Outlines(cases: seq<Case>): (o: seq<Outline>)
    ensures |o| == |cases| && forall x :: 0 <= x < |cases| ==> o[x] == OutlineOf(cases[x])
  {
    seq(|cases|, x requires 0 <= x < |cases| => OutlineOf(cases[x]))
  }

  function Anomalies(group: seq<Batch>): seq<Anomaly> {
    if group == [] then [] else Anomalies(group[..|group| - 1]) + group[|group| - 1].found
  }

  /** The incident a session should become: opened by its first batch, last touched by its last. */
  function SessionOutline(service: string, group: seq<Batch>): Outline
    requires group != []
  {
    Outline(service, DeriveSeverity(|Anomalies(group)|), Open, group[0].at, group[|group| - 1].at, Anomalies(group))
  }

  /** The cases are exactly the sessions, in order. */
  ghost predicate AreSessions(service: string, cases: seq<Case>, groups: seq<seq<Batch>>) {
    && |cases| == |groups|
    && forall j :: 0 <= j < |groups| ==> groups[j] != [] && OutlineOf(cases[j]) == SessionOutline(service, groups[j])
  }

  ghost predicate TimeOrdered(b: seq<Batch>) {
    forall i, j :: 0 <= i < j < |b| ==> b[i].at <= b[j].at
  }

  /** When the last incident was touched after all others and none is resolved, the choice is between it and none. */
  lemma LatestIsLast(list: seq<Incident>, since: Time)
    requires list != [] && forall k :: 0 <= k < |list| ==> list[k].status != Resolved
    requires forall k :: 0 <= k < |list| - 1 ==> list[k].updatedAt < list[|list| - 1].updatedAt
    ensures Latest(list, since) == if list[|list| - 1].updatedAt >= since then Some(|list| - 1) else None
  {
    var r := Latest(list, since);
    assert Live(list[|list| - 1], since) <==> list[|list| - 1].updatedAt >= since;
    if r.Some? { assert Live(list[r.value], since); }
  }

  lemma {:induction false} FlattenOrdered(groups: seq<seq<Batch>>)
    requires TimeOrdered(Flatten(groups)) && forall j :: 0 <= j < |groups| ==> groups[j] != []
    ensures forall j :: 0 <= j < |groups| ==> groups[j][0].at <= LastOf(groups, j)
    ensures forall j :: 0 <= j < |groups| ==> LastOf(groups, j) <= Flatten(groups)[|Flatten(groups)| - 1].at
  {
    if groups != [] {
      var g, rest := groups[0], groups[1..];
      var all, tail := Flatten(groups), Flatten(rest);
      assert all == g + tail;
      forall i, j | 0 <= i < j < |tail| ensures tail[i].at <= tail[j].at {
        assert all[|g| + i] == tail[i] && all[|g| + j] == tail[j];
      }
      FlattenOrdered(rest);
      assert all[0] == g[0] && all[|g| - 1] == g[|g| - 1];
      if rest != [] { assert rest[0] != [] && |tail| > 0; assert all[|all| - 1] == tail[|tail| - 1]; }
      forall j | 0 <= j < |groups|
        ensures groups[j][0].at <= LastOf(groups, j) && LastOf(groups, j) <= all[|all| - 1].at
      {
        if j > 0 { assert groups[j] == rest[j - 1] && LastOf(groups, j) == LastOf(rest, j - 1); }
      }
    }
  }

  /** Sessions end one after the other. */
  lemma {:induction false} EndsIncrease(groups: seq<seq<Batch>>, window: nat, i: nat, j: nat)
    requires Apart(groups, window) && i < j < |groups|
    requires forall k :: 0 <= k < |groups| ==> groups[k][0].at <= LastOf(groups, k)
    ensures LastOf(groups, i) < LastOf(groups, j)
    decreases j
  {
    assert Cut(groups, j, window);
    if i < j - 1 { EndsIncrease(groups, window, i, j - 1); }
  }

  /** The case that takes a batch in is the last session, if the batch is within the window of it. */
  lemma TargetIsLastSession(c: Config, service: string, cases: seq<Case>, b: seq<Batch>, at: Time)
    requires TimeOrdered(b) && AreSessions(service, cases, Sessions(b, c.correlationWindow))
    ensures var groups := Sessions(b, c.correlationWindow);
            CaseTarget(c, cases, at) ==
            if groups != [] && at - LastOf(groups, |groups| - 1) <= c.correlationWindow then |cases| - 1 else |cases|
  {
    var groups, list := Sessions(b, c.correlationWindow), IncidentList(cases);
    SessionsAreMaximal(b, c.correlationWindow);
    if groups != [] {
      FlattenOrdered(groups);
      forall k | 0 <= k < |list|
        ensures list[k].status != Resolved && list[k].updatedAt == LastOf(groups, k)
      {
        assert OutlineOf(cases[k]) == SessionOutline(service, groups[k]);
      }
      forall k | 0 <= k < |list| - 1 ensures list[k].updatedAt < list[|list| - 1].updatedAt {
        EndsIncrease(groups, c.correlationWindow, k, |groups| - 1);
      }
      LatestIsLast(list, at - c.correlationWindow);
    }
  }

  lemma AnomaliesGrow(group: seq<Batch>, x: Batch)
    ensures Anomalies(group + [x]) == Anomalies(group) + x.found
  {
    assert (group + [x])[..|group|] == group;
  }

  /** Joining a batch to a case that is a session makes it the longer session. */
  lemma JoinedOutline(service: string, k: Case, group: seq<Batch>, x: Batch)
    requires group != [] && OutlineOf(k) == SessionOutline(service, group)
    ensures OutlineOf(Joined(k, x.found, x.at)) == SessionOutline(service, group + [x])
  {
    hide Anomalies, DeriveSeverity;
    AnomaliesGrow(group, x);
  }

  lemma OpenedOutline(service: string, x: Batch)
    ensures OutlineOf(Case(NewIncident(service, |x.found|, x.at), x.found, [], [])) == SessionOutline(service, [x])
  {
    hide DeriveSeverity;
    AnomaliesGrow([], x);
    assert [] + [x] == [x] && [] + x.found == x.found;
  }

  /** Correlating one more batch keeps the cases equal to the sessions. */
  lemma GrownIsExtended(c: Config, service: string, cases: seq<Case>, b: seq<Batch>, x: Batch)
    requires TimeOrdered(b) && AreSessions(service, cases, Sessions(b, c.correlationWindow))
    ensures AreSessions(service, Grown(c, cases, service, x.found, x.at), Sessions(b + [x], c.correlationWindow))
  {
    hide Sessions, CaseTarget, OutlineOf, SessionOutline, Joined, NewIncident, TimeOrdered;
    var w := c.correlationWindow;
    var groups := Sessions(b, w);
    var n := |groups| - 1;
    TargetIsLastSession(c, service, cases, b, x.at);
    SessionsAppend(b, x, w);
    if groups != [] && x.at - LastOf(groups, n) <= w { JoinedOutline(service, cases[n], groups[n], x); }
    else { OpenedOutline(service, x); }
  }

  // ----- Runs -----

  /** The incidents of the service look the same to correlation in both stores. */
  ghost predicate SameButReports(s: Store, r: Store, service: string) {
    && r.anomalies == s.anomalies && |r.incidents| == |s.incidents|
    && forall k :: 0 <= k < |s.incidents| ==>
         && r.incidents[k].service == s.incidents[k].service
         && (s.incidents[k].service == service ==> r.incidents[k].(report := None) == s.incidents[k].(report := None))
  }

  lemma OutlinesKept(s: Store, r: Store, service: string)
    requires SameButReports(s, r, service)
    ensures Outlines(CasesOf(r, service)) == Outlines(CasesOf(s, service))
  {
    hide AnomaliesOf, AlertsOf, CallsOf, IncidentsOf;
    IncidentsOfSame(s.incidents, r.incidents, service);
    var a, b, ids := CasesOf(r, service), CasesOf(s, service), IncidentsOf(s.incidents, service);
    forall x | 0 <= x < |ids| ensures OutlineOf(a[x]) == OutlineOf(b[x]) {
      var k := ids[x];
      assert r.incidents[k].(report := None) == s.incidents[k].(report := None);
    }
  }

  lemma SameOutlines(service: string, a: seq<Case>, b: seq<Case>, groups: seq<seq<Batch>>)
    requires Outlines(a) == Outlines(b) && AreSessions(service, a, groups)
    ensures AreSessions(service, b, groups)
  {
    hide OutlineOf, SessionOutline;
    forall j | 0 <= j < |groups| ensures groups[j] != [] && OutlineOf(b[j]) == SessionOutline(service, groups[j]) {
      assert Outlines(a)[j] == Outlines(b)[j];
    }
  }

  /** Triage and alerts leave the outlines as correlation made them. */
  lemma ProcessedOutlines(env: Env, s: Store, processed: string, now: Time, service: string)
    requires env.config.Valid() && Grounded(s)
    ensures var c, found, cases := env.config, Detected(env.config, s, processed, now), CasesOf(s, service);
            Outlines(CasesOf(Processed(env, s, processed, now), service)) ==
            Outlines(if processed == service && found != [] then Grown(c, cases, service, found, now) else cases)
  {
    hide Found, Absorbed, TriagedAt, Target, Fired, Keys, Grown, CasesOf, Outlines, Grounded;
    var c, found := env.config, Detected(env.config, s, processed, now);
    if found != [] {
      var k, a := Target(c, s, processed, now), Absorbed(c, s, processed, found, now);
      AbsorbedCases(c, s, processed, found, now);
      TriagedShape(env, a, k);
      OutlinesKept(a, Processed(env, s, processed, now), service);
    }
  }

  function NewBatch(env: Env, s: Store, step: Step, service: string): seq<Batch>
    requires env.config.Valid()
  {
    if step.Process? && step.service == service && Detected(env.config, s, service, step.now) != []
    then [Batch(Detected(env.config, s, service, step.now), step.now)]
    else []
  }

  /** What the runs for the service found, oldest first. */
  function BatchesOf(env: Env, steps: seq<Step>, service: string): seq<Batch>
    requires env.config.Valid()
  {
    hide Apply, NewBatch;
    if steps == [] then []
    else
      var init, last := steps[..|steps| - 1], steps[|steps| - 1];
      BatchesOf(env, init, service) + NewBatch(env, Run(env, init), last, service)
  }

  /** A run for the service is not dated before a batch already found, and a status change is of another service. */
  ghost predicate Allowed(incidents: seq<Incident>, b: seq<Batch>, step: Step, service: string) {
    match step
    case Ingest(_) => true
    case Process(processed, now) => processed == service ==> NoneAfter(b, now)
    case Patch(id, _, _) => id < |incidents| ==> incidents[id].service != service
  }

  ghost predicate Undisturbed(env: Env, steps: seq<Step>, service: string)
    requires env.config.Valid()
  {
    hide Apply, NewBatch, Allowed;
    steps == [] ||
    var init, last := steps[..|steps| - 1], steps[|steps| - 1];
    Undisturbed(env, init, service) && Allowed(Run(env, init).incidents, BatchesOf(env, init, service), last, service)
  }

  ghost predicate NoneAfter(b: seq<Batch>, now: Time) {
    forall i :: 0 <= i < |b| ==> b[i].at <= now
  }

  lemma TimeOrderedAppend(b: seq<Batch>, x: Batch)
    requires TimeOrdered(b) && NoneAfter(b, x.at)
    ensures TimeOrdered(b + [x])
  {
  }

  lemma ApplyOutlines(env: Env, s: Store, step: Step, service: string, b: seq<Batch>)
    requires env.config.Valid() && !step.Process?
    requires Allowed(s.incidents, b, step, service)
    ensures Outlines(CasesOf(Apply(env, s, step), service)) == Outlines(CasesOf(s, service))
  {
    hide Outlines, CasesOf, Processed;
    OutlinesKept(s, Apply(env, s, step), service);
  }

  lemma NewBatchOrdered(env: Env, s: Store, step: Step, service: string, b: seq<Batch>)
    requires env.config.Valid() && TimeOrdered(b) && Allowed(s.incidents, b, step, service)
    ensures TimeOrdered(b + NewBatch(env, s, step, service))
  {
    hide Detected, TimeOrdered;
    var x := NewBatch(env, s, step, service);
    if x == [] { assert b + x == b; }
    else { TimeOrderedAppend(b, x[0]); }
  }

  /** One step of a run keeps the incidents of the service equal to the sessions of its batches. */
  lemma StepKeepsSessions(env: Env, s: Store, step: Step, service: string, b: seq<Batch>)
    requires env.config.Valid() && Grounded(s)
    requires TimeOrdered(b) && AreSessions(service, CasesOf(s, service), Sessions(b, env.config.correlationWindow))
    requires Allowed(s.incidents, b, step, service)
    ensures AreSessions(service, CasesOf(Apply(env, s, step), service),
                        Sessions(b + NewBatch(env, s, step, service), env.config.correlationWindow))
  {
    hide Grounded, TimeOrdered, AreSessions, CasesOf, Outlines, Sessions, Processed, Detected, Grown, Updated,
      Allowed;
    var c, r, cases := env.config, Apply(env, s, step), CasesOf(s, service);
    var x := NewBatch(env, s, step, service);
    if step.Process? { ProcessedOutlines(env, s, step.service, step.now, service); }
    else { ApplyOutlines(env, s, step, service, b); }
    if x == [] {
      assert b + x == b;
      SameOutlines(service, cases, CasesOf(r, service), Sessions(b, c.correlationWindow));
    } else {
      GrownIsExtended(c, service, cases, b, x[0]);
      SameOutlines(service, Grown(c, cases, service, x[0].found, x[0].at), CasesOf(r, service),
                   Sessions(b + x, c.correlationWindow));
    }
  }

  /**
   In every run that leaves the statuses of a service's incidents alone and does not date its
   processing backwards, the incidents of the service are exactly the sessions of its batches:
   whatever happens to other services in between, and whatever the model answers.
   */
  lemma {:induction false} IncidentsAreSessions(env: Env, steps: seq<Step>, service: string)
    requires env.config.Valid() && Undisturbed(env, steps, service)
    ensures TimeOrdered(BatchesOf(env, steps, service))
    ensures AreSessions(service, CasesOf(Run(env, steps), service),
                        Sessions(BatchesOf(env, steps, service), env.config.correlationWindow))
  {
    hide Consistent, Grounded, TimeOrdered, AreSessions, CasesOf, Sessions, Apply, NewBatch, Allowed;
    if steps == [] {
      NothingYet(service, env.config.correlationWindow);
    } else {
      var init, last := steps[..|steps| - 1], steps[|steps| - 1];
      var s, b := Run(env, init), BatchesOf(env, init, service);
      IncidentsAreSessions(env, init, service);
      RunConsistent(env, init);
      ConsistentGrounded(s);
      StepKeepsSessions(env, s, last, service, b);
      NewBatchOrdered(env, s, last, service, b);
    }
  }

  lemma NothingYet(service: string, window: nat)
    ensures TimeOrdered([]) && AreSessions(service, CasesOf(EmptyStore(), service), Sessions([], window))
  {
  }
}
