/**
 One service seen alone: its incidents with their anomalies, alerts and model calls, without row
 ids. The pipeline on the shared tables refines a pipeline on these case files, so what happens to
 a service depends on its own history only and the order of the services does not matter.
 */
module Cases {
  import opened Wrappers
  import opened Records
  import opened Detection
  import opened Triage
  import opened Pipeline
  import opened Invariants
  import opened Sorting

  /** An incident with everything that hangs on it; an alert is its channel and time. */
  datatype Case = Case(incident: Incident, anomalies: seq<Anomaly>, alerts: seq<(string, Time)>, calls: seq<Call>)

  function AlertsOf(alerts: seq<Alert>, k: nat): seq<(string, Time)> {
    if alerts == [] then []
    else
      var a := alerts[|alerts| - 1];
      AlertsOf(alerts[..|alerts| - 1], k) + (if a.incident == k then [(a.channel, a.createdAt)] else [])
  }

  function CaseAt(s: Store, k: nat): Case
    requires k < |s.incidents|
  {
    Case(s.incidents[k], AnomaliesOf(s.anomalies, k), AlertsOf(s.alerts, k), CallsOf(s.records, k))
  }

  /** The cases of a service, oldest first. */
  function CasesOf(s: Store, service: string): (cases: seq<Case>)
    ensures var ids := IncidentsOf(s.incidents, service);
            |cases| == |ids| && forall x :: 0 <= x < |ids| ==> cases[x] == CaseAt(s, ids[x])
  {
    var ids := IncidentsOf(s.incidents, service);
    seq(|ids|, x requires 0 <= x < |ids| => CaseAt(s, ids[x]))
  }

  // ----- The pipeline on case files -----

  function CaseKeys(cases: seq<Case>): set<Key> {
    set x, i | 0 <= x < |cases| && 0 <= i < |cases[x].anomalies| :: KeyOf(cases[x].anomalies[i])
  }

  function IncidentList(cases: seq<Case>): (list: seq<Incident>)
    ensures |list| == |cases| && forall x :: 0 <= x < |cases| ==> list[x] == cases[x].incident
  {
    seq(|cases|, x requires 0 <= x < |cases| => cases[x].incident)
  }

  function CaseTarget(c: Config, cases: seq<Case>, now: Time): (x: nat)
    ensures x <= |cases|
  {
    match Latest(IncidentList(cases), now - c.correlationWindow)
    case None => |cases|
    case Some(x) => x
  }

  /** New anomalies open a case or join the live one touched last. */
  function Grown(c: Config, cases: seq<Case>, service: string, found: seq<Anomaly>, now: Time): (r: seq<Case>)
    ensures CaseTarget(c, cases, now) < |r|
  {
    var x := CaseTarget(c, cases, now);
    if x == |cases| then cases + [Case(NewIncident(service, |found|, now), found, [], [])]
    else cases[x := Joined(cases[x], found, now)]
  }

  function Joined(k: Case, found: seq<Anomaly>, now: Time): Case {
    k.(incident := k.incident.(severity := DeriveSeverity(|k.anomalies + found|), updatedAt := now),
       anomalies := k.anomalies + found)
  }

  function TriagedCase(env: Env, k: Case): Case {
    if k.incident.report.Some? then k
    else
      var t := RunTriage(env, k.incident, k.anomalies, 0);
      k.(incident := k.incident.(report := Some(t.report)), calls := k.calls + t.calls)
  }

  /** A triage of the case whose call number `stop` raises. */
  function TriagedCaseUntil(env: Env, k: Case, stop: nat): Case {
    hide RunTriage;
    if k.incident.report.Some? || stop >= 4 then TriagedCase(env, k)
    else k.(calls := k.calls + RunTriage(env, k.incident, k.anomalies, 0).calls[..stop])
  }

  predicate Recent(alerts: seq<(string, Time)>, channel: string, since: Time) {
    exists i :: 0 <= i < |alerts| && alerts[i].0 == channel && alerts[i].1 >= since
  }

  function FiredOn(c: Config, alerts: seq<(string, Time)>, now: Time, channels: seq<string>): seq<(string, Time)> {
    if channels == [] then []
    else
      var channel := channels[|channels| - 1];
      FiredOn(c, alerts, now, channels[..|channels| - 1])
      + (if Recent(alerts, channel, now - c.rateLimit) then [] else [(channel, now)])
  }

  function AlertedCase(c: Config, k: Case, now: Time): Case {
    k.(alerts := k.alerts + FiredOn(c, k.alerts, now, c.channels))
  }

  function ProcessCases(env: Env, events: seq<Event>, cases: seq<Case>, service: string, now: Time): seq<Case>
    requires env.config.Valid()
  {
    hide Found, CaseKeys, Grown, CaseTarget, AlertedCase, TriagedCase;
    var found := Found(env.config, CaseKeys(cases), events, service, now);
    if found == [] then cases
    else
      var x, grown := CaseTarget(env.config, cases, now), Grown(env.config, cases, service, found, now);
      grown[x := AlertedCase(env.config, TriagedCase(env, grown[x]), now)]
  }

  /** The run for the service reaches the call of its triage that raises. */
  predicate CasesInterrupt(env: Env, events: seq<Event>, cases: seq<Case>, service: string, now: Time, stop: nat)
    requires env.config.Valid()
  {
    var found := Found(env.config, CaseKeys(cases), events, service, now);
    && found != [] && stop < 4
    && Grown(env.config, cases, service, found, now)[CaseTarget(env.config, cases, now)].incident.report.None?
  }

  function ProcessCasesUntil(env: Env, events: seq<Event>, cases: seq<Case>, service: string, now: Time,
                             stop: nat): seq<Case>
    requires env.config.Valid()
  {
    hide Found, CaseKeys, Grown, CaseTarget, AlertedCase, TriagedCaseUntil, CasesInterrupt;
    var found := Found(env.config, CaseKeys(cases), events, service, now);
    if found == [] then cases
    else
      var x, grown := CaseTarget(env.config, cases, now), Grown(env.config, cases, service, found, now);
      var triaged := TriagedCaseUntil(env, grown[x], stop);
      grown[x := if CasesInterrupt(env, events, cases, service, now, stop) then triaged
                 else AlertedCase(env.config, triaged, now)]
  }

  lemma NeverInterruptedCases(env: Env, events: seq<Event>, cases: seq<Case>, service: string, now: Time, stop: nat)
    requires env.config.Valid() && stop >= 4
    ensures ProcessCasesUntil(env, events, cases, service, now, stop) == ProcessCases(env, events, cases, service, now)
  {
    hide Found, CaseKeys, Grown, CaseTarget, AlertedCase, TriagedCase, RunTriage;
  }

  // ----- Positions of a service's incidents -----

  lemma IncidentsOfAppend(incidents: seq<Incident>, i: Incident, service: string)
    ensures IncidentsOf(incidents + [i], service) ==
            IncidentsOf(incidents, service) + if i.service == service then [|incidents|] else []
  {
    assert (incidents + [i])[..|incidents|] == incidents;
  }

  lemma {:induction false} IncidentsOfSame(a: seq<Incident>, b: seq<Incident>, service: string)
    requires |a| == |b| && forall k :: 0 <= k < |a| ==> a[k].service == b[k].service
    ensures IncidentsOf(a, service) == IncidentsOf(b, service)
  {
    if a != [] { IncidentsOfSame(a[..|a| - 1], b[..|b| - 1], service); }
  }

  /** r differs from s at most in what belongs to incident k, which keeps its service. */
  ghost predicate OnlyCase(s: Store, r: Store, k: nat) {
    && k < |s.incidents| == |r.incidents|
    && r.incidents[k].service == s.incidents[k].service
    && forall j: nat :: j < |s.incidents| && j != k ==> CaseAt(r, j) == CaseAt(s, j)
  }

  lemma ServicesKept(s: Store, r: Store, k: nat)
    requires OnlyCase(s, r, k)
    ensures forall j :: 0 <= j < |s.incidents| ==> s.incidents[j].service == r.incidents[j].service
  {
    forall j | 0 <= j < |s.incidents| ensures s.incidents[j].service == r.incidents[j].service {
      if j != k { assert CaseAt(r, j).incident == CaseAt(s, j).incident; }
    }
  }

  lemma OnlyCaseHere(s: Store, r: Store, k: nat, x: nat)
    requires OnlyCase(s, r, k)
    requires x < |IncidentsOf(s.incidents, s.incidents[k].service)| &&
             IncidentsOf(s.incidents, s.incidents[k].service)[x] == k
    ensures var service := s.incidents[k].service;
            CasesOf(r, service) == CasesOf(s, service)[x := CaseAt(r, k)]
  {
    var service := s.incidents[k].service;
    var ids := IncidentsOf(s.incidents, service);
    ServicesKept(s, r, k);
    IncidentsOfSame(s.incidents, r.incidents, service);
    hide CaseAt, IncidentsOf;
    var a, b := CasesOf(r, service), CasesOf(s, service);
    forall y | 0 <= y < |ids| ensures a[y] == b[x := CaseAt(r, k)][y] {
      if y < x { assert ids[y] < ids[x]; }
      if y > x { assert ids[x] < ids[y]; }
    }
  }

  lemma OnlyCaseElsewhere(s: Store, r: Store, k: nat, other: string)
    requires OnlyCase(s, r, k) && other != s.incidents[k].service
    ensures CasesOf(r, other) == CasesOf(s, other)
  {
    var ids := IncidentsOf(s.incidents, other);
    ServicesKept(s, r, k);
    IncidentsOfSame(s.incidents, r.incidents, other);
    hide CaseAt, IncidentsOf;
    var a, b := CasesOf(r, other), CasesOf(s, other);
    forall y | 0 <= y < |ids| ensures a[y] == b[y] { assert ids[y] != k; }
  }

  // ----- Correlation -----

  /** The target row and the target case are the same incident. */
  lemma SameTarget(c: Config, s: Store, service: string, now: Time)
    ensures var ids := IncidentsOf(s.incidents, service);
            var k, x := Target(c, s, service, now), CaseTarget(c, CasesOf(s, service), now);
            if x == |ids| then k == |s.incidents| else k == ids[x]
  {
    var ids := IncidentsOf(s.incidents, service);
    assert IncidentList(CasesOf(s, service)) == Pick(s.incidents, ids);
  }

  lemma NothingOnNextRow(s: Store)
    requires Grounded(s)
    ensures AnomaliesOf(s.anomalies, |s.incidents|) == [] && AlertsOf(s.alerts, |s.incidents|) == []
    ensures CallsOf(s.records, |s.incidents|) == []
  {
    hide AnomaliesOf, AlertsOf, CallsOf;
    NoneYet(s);
    NoAlerts(s.alerts, |s.incidents|);
  }

  lemma {:induction false} NoAlerts(alerts: seq<Alert>, k: nat)
    requires forall i :: 0 <= i < |alerts| ==> alerts[i].incident < k
    ensures AlertsOf(alerts, k) == []
  {
    if alerts != [] { NoAlerts(alerts[..|alerts| - 1], k); }
  }

  lemma AbsorbedCases(c: Config, s: Store, service: string, found: seq<Anomaly>, now: Time)
    requires Grounded(s)
    ensures CasesOf(Absorbed(c, s, service, found, now), service) == Grown(c, CasesOf(s, service), service, found, now)
    ensures forall other :: other != service ==>
            CasesOf(Absorbed(c, s, service, found, now), other) == CasesOf(s, other)
  {
    hide Absorbed, Target, Grounded, AnomaliesOf, DeriveSeverity, CaseTarget;
    var k, r := Target(c, s, service, now), Absorbed(c, s, service, found, now);
    var x := CaseTarget(c, CasesOf(s, service), now);
    SameTarget(c, s, service, now);
    AbsorbedIncidents(c, s, service, found, now);
    forall j: nat { AbsorbedCounts(c, s, service, found, now, j); }
    forall j: nat | j < |s.incidents| && j != k ensures CaseAt(r, j) == CaseAt(s, j) {
      assert AnomaliesOf(s.anomalies, j) + [] == AnomaliesOf(s.anomalies, j);
    }
    if k < |s.incidents| {
      TargetOfService(c, s, service, now);
      assert CaseAt(r, k) == Joined(CaseAt(s, k), found, now);
      OnlyCaseHere(s, r, k, x);
      forall other | other != service
        ensures CasesOf(r, other) == CasesOf(s, other)
      {
        OnlyCaseElsewhere(s, r, k, other);
      }
    } else {
      NothingOnNextRow(s);
      assert CaseAt(r, k) == Case(NewIncident(service, |found|, now), found, [], []) by { assert [] + found == found; }
      forall other ensures CasesOf(r, other) == CasesOf(s, other) + if other == service then [CaseAt(r, k)] else [] {
        NewRowCases(s, r, other);
      }
    }
  }

  lemma NewRowCases(s: Store, r: Store, other: string)
    requires |r.incidents| == |s.incidents| + 1 && r.incidents[..|s.incidents|] == s.incidents
    requires forall j: nat :: j < |s.incidents| ==> CaseAt(r, j) == CaseAt(s, j)
    ensures var k := |s.incidents|;
            CasesOf(r, other) == CasesOf(s, other) + if other == r.incidents[k].service then [CaseAt(r, k)] else []
  {
    var k := |s.incidents|;
    assert r.incidents == s.incidents + [r.incidents[k]];
    IncidentsOfAppend(s.incidents, r.incidents[k], other);
    hide CaseAt, IncidentsOf;
    var ids := IncidentsOf(s.incidents, other);
    forall x | 0 <= x < |ids| ensures CasesOf(r, other)[x] == CasesOf(s, other)[x] {
      assert IncidentsOf(r.incidents, other)[x] == ids[x];
    }
  }

  // ----- Triage and alerts -----

  /** What a triage, interrupted or not, does to the report of its incident. */
  lemma UntilReport(env: Env, s: Store, k: nat, stop: nat)
    requires k < |s.incidents| && s.incidents[k].report.None?
    ensures var t := RunTriage(env, s.incidents[k], AnomaliesOf(s.anomalies, k), |s.records|);
            TriagedUntil(env, s, k, stop).incidents ==
            s.incidents[k := s.incidents[k].(report := if stop < 4 then None else Some(t.report))]
  {
    hide RunTriage, AnomaliesOf;
  }

  lemma UntilCaseAt(env: Env, s: Store, k: nat, stop: nat, j: nat)
    requires k < |s.incidents| && j < |s.incidents| && Stateless(env.llm)
    requires |TriagedUntil(env, s, k, stop).incidents| == |s.incidents|
    ensures CaseAt(TriagedUntil(env, s, k, stop), j) == if j == k
            then TriagedCaseUntil(env, CaseAt(s, k), stop) else CaseAt(s, j)
  {
    hide RunTriage, TriagedUntil, AnomaliesOf, AlertsOf, CallsOf, Logged;
    if s.incidents[k].report.Some? { AlreadyTriaged(env, s, k, stop); }
    else {
      var calls := CallsUntil(env, s, k, stop);
      TriageIsStateless(env, s.incidents[k], AnomaliesOf(s.anomalies, k), |s.records|, 0);
      var t := RunTriage(env, s.incidents[k], AnomaliesOf(s.anomalies, k), 0);
      assert t.calls[..4] == t.calls;
      UntilShape(env, s, k, stop);
      UntilReport(env, s, k, stop);
      FurtherCalls(s, TriagedUntil(env, s, k, stop), k, calls, j);
    }
  }

  lemma UntilCases(env: Env, s: Store, k: nat, stop: nat)
    requires k < |s.incidents| && Stateless(env.llm)
    ensures OnlyCase(s, TriagedUntil(env, s, k, stop), k)
    ensures TriagedUntil(env, s, k, stop).events == s.events
    ensures CaseAt(TriagedUntil(env, s, k, stop), k) == TriagedCaseUntil(env, CaseAt(s, k), stop)
  {
    hide TriagedUntil, CaseAt, TriagedCaseUntil, CallsUntil, Logged;
    if s.incidents[k].report.Some? { AlreadyTriaged(env, s, k, stop); } else { UntilShape(env, s, k, stop); }
    forall j: nat | j < |s.incidents|
      ensures CaseAt(TriagedUntil(env, s, k, stop), j) ==
              if j == k then TriagedCaseUntil(env, CaseAt(s, k), stop) else CaseAt(s, j)
    {
      UntilCaseAt(env, s, k, stop, j);
    }
  }

  lemma {:induction false} AlertsOfAppend(a: seq<Alert>, b: seq<Alert>, k: nat)
    ensures AlertsOf(a + b, k) == AlertsOf(a, k) + AlertsOf(b, k)
  {
    if b == [] { assert a + b == a; }
    else {
      AlertsOfAppend(a, b[..|b| - 1], k);
      assert (a + b)[..|a + b| - 1] == a + b[..|b| - 1];
    }
  }

  lemma {:induction false} InAlertsOf(alerts: seq<Alert>, k: nat, channel: string, at: Time)
    ensures (channel, at) in AlertsOf(alerts, k) <==>
            exists i :: 0 <= i < |alerts| && alerts[i].incident == k && alerts[i].channel == channel &&
              alerts[i].createdAt == at
  {
    if alerts != [] {
      var init := alerts[..|alerts| - 1];
      InAlertsOf(init, k, channel, at);
      assert forall i :: 0 <= i < |init| ==> init[i] == alerts[i];
    }
  }

  /** The check by dedup key and the check within the case agree. */
  lemma RecentIsExistsSince(s: Store, k: nat, channel: string, since: Time)
    requires AlertsKeyed(s)
    ensures Recent(AlertsOf(s.alerts, k), channel, since) <==> ExistsSince(s.alerts, DedupKey(k, channel), since)
  {
    hide AlertsOf, DedupKey;
    var mine := AlertsOf(s.alerts, k);
    if Recent(mine, channel, since) {
      var i :| 0 <= i < |mine| && mine[i].0 == channel && mine[i].1 >= since;
      assert (channel, mine[i].1) in mine;
      InAlertsOf(s.alerts, k, channel, mine[i].1);
    }
    if ExistsSince(s.alerts, DedupKey(k, channel), since) {
      var i :| 0 <= i < |s.alerts| && s.alerts[i].dedupKey == DedupKey(k, channel) && s.alerts[i].createdAt >= since;
      DedupKeyInjective(k, channel, s.alerts[i].incident, s.alerts[i].channel);
      InAlertsOf(s.alerts, k, channel, s.alerts[i].createdAt);
      assert (channel, s.alerts[i].createdAt) in mine;
    }
  }

  lemma {:induction false} FiredCases(c: Config, s: Store, k: nat, now: Time, channels: seq<string>, j: nat)
    requires AlertsKeyed(s)
    ensures AlertsOf(Fired(c, s.alerts, k, now, channels), j) ==
            if j == k then FiredOn(c, AlertsOf(s.alerts, k), now, channels) else []
  {
    if channels != [] {
      var init, last := channels[..|channels| - 1], channels[|channels| - 1];
      var before := Fired(c, s.alerts, k, now, init);
      FiredCases(c, s, k, now, init, j);
      RecentIsExistsSince(s, k, last, now - c.rateLimit);
      AlertsOfAppend(before, [Alert(k, last, DedupKey(k, last), now)], j);
      hide ExistsSince, Recent, DedupKey;
      assert before + [] == before;
      assert AlertsOf([Alert(k, last, DedupKey(k, last), now)], j) == if j == k then [(last, now)] else [];
    }
  }

  lemma RaisedCases(c: Config, s: Store, k: nat, now: Time)
    requires k < |s.incidents| && AlertsKeyed(s)
    ensures OnlyCase(s, Raised(c, s, k, now), k)
    ensures CaseAt(Raised(c, s, k, now), k) == AlertedCase(c, CaseAt(s, k), now)
  {
    hide Fired, FiredOn, AlertsOf, AnomaliesOf, CallsOf;
    var r := Raised(c, s, k, now);
    var fired := FiredOn(c, AlertsOf(s.alerts, k), now, c.channels);
    forall j: nat ensures AlertsOf(r.alerts, j) == AlertsOf(s.alerts, j) + if j == k then fired else [] {
      AlertsOfAppend(s.alerts, Fired(c, s.alerts, k, now, c.channels), j);
      FiredCases(c, s, k, now, c.channels, j);
    }
    forall j: nat | j < |s.incidents| && j != k ensures CaseAt(r, j) == CaseAt(s, j) {
      assert AlertsOf(s.alerts, j) + [] == AlertsOf(s.alerts, j);
    }
  }

  // ----- Detection -----

  lemma {:induction false} InAnomaliesOf(rows: seq<Row>, k: nat, a: Anomaly)
    ensures a in AnomaliesOf(rows, k) <==> exists i :: 0 <= i < |rows| && rows[i] == Row(a, Some(k))
  {
    if rows != [] {
      var init := rows[..|rows| - 1];
      InAnomaliesOf(init, k, a);
      assert forall i :: 0 <= i < |init| ==> init[i] == rows[i];
    }
  }

  /** The stored keys of a service are the keys of its cases. */
  lemma SameKeys(s: Store, service: string)
    requires AllLinked(s)
    ensures AgreeOn(Keys(s.anomalies), CaseKeys(CasesOf(s, service)), service)
  {
    hide AnomaliesOf, AlertsOf, CallsOf;
    var cases, ids := CasesOf(s, service), IncidentsOf(s.incidents, service);
    forall key: Key | key.service == service ensures key in Keys(s.anomalies) <==> key in CaseKeys(cases) {
      if key in Keys(s.anomalies) {
        var i :| 0 <= i < |s.anomalies| && KeyOf(s.anomalies[i].anomaly) == key;
        assert RowLinked(s, s.anomalies[i]);
        var k := s.anomalies[i].incident.value;
        assert k in ids;
        var x :| 0 <= x < |ids| && ids[x] == k;
        InAnomaliesOf(s.anomalies, k, s.anomalies[i].anomaly);
        assert s.anomalies[i] == Row(s.anomalies[i].anomaly, Some(k));
        var y :| 0 <= y < |cases[x].anomalies| && cases[x].anomalies[y] == s.anomalies[i].anomaly;
      }
      if key in CaseKeys(cases) {
        var x, y :| 0 <= x < |cases| && 0 <= y < |cases[x].anomalies| && KeyOf(cases[x].anomalies[y]) == key;
        var a := cases[x].anomalies[y];
        InAnomaliesOf(s.anomalies, ids[x], a);
        assert a in AnomaliesOf(s.anomalies, ids[x]);
        var i :| 0 <= i < |s.anomalies| && s.anomalies[i] == Row(a, Some(ids[x]));
      }
    }
  }

  lemma {:induction false} EventsOfTwice(events: seq<Event>, service: string)
    ensures EventsOf(EventsOf(events, service), service) == EventsOf(events, service)
  {
    if events != [] {
      var init, e := events[..|events| - 1], events[|events| - 1];
      EventsOfTwice(init, service);
      var before := EventsOf(init, service);
      if e.service == service { assert (before + [e])[..|before|] == before; }
      else { assert EventsOf(events, service) == before; }
    }
  }

  lemma SameFindings(env: Env, s: Store, service: string, now: Time)
    requires env.config.Valid() && AllLinked(s)
    ensures Detected(env.config, s, service, now) ==
            Found(env.config, CaseKeys(CasesOf(s, service)), EventsOf(s.events, service), service, now)
  {
    hide Found;
    SameKeys(s, service);
    EventsOfTwice(s.events, service);
    FoundDepends(env.config, Keys(s.anomalies), CaseKeys(CasesOf(s, service)),
                 s.events, EventsOf(s.events, service), service, now);
  }

  // ----- Refinement -----

  /** The interruption of a run depends on the service's case file alone. */
  lemma InterruptRefines(env: Env, s: Store, service: string, now: Time, stop: nat)
    requires env.config.Valid() && Grounded(s)
    ensures Interrupts(env, s, service, now, stop) <==>
            CasesInterrupt(env, EventsOf(s.events, service), CasesOf(s, service), service, now, stop)
  {
    hide Found, Absorbed, Target, CasesOf, Grown, CaseTarget, CaseKeys, EventsOf, IncidentsOf;
    var c, found := env.config, Detected(env.config, s, service, now);
    LinkedIfGrounded(s);
    hide Grounded;
    SameFindings(env, s, service, now);
    AbsorbedCases(c, s, service, found, now);
    AbsorbedTarget(c, s, service, found, now);
    CaseOfTarget(Absorbed(c, s, service, found, now), service, CaseTarget(c, CasesOf(s, service), now));
  }

  lemma CaseOfTarget(s: Store, service: string, x: nat)
    requires x < |IncidentsOf(s.incidents, service)|
    ensures x < |CasesOf(s, service)| &&
            CasesOf(s, service)[x].incident == s.incidents[IncidentsOf(s.incidents, service)[x]]
  {
    hide IncidentsOf;
  }

  /** Processing a service on the shared tables, interrupted or not, is processing its case file with its events. */
  lemma ProcessUntilRefines(env: Env, s: Store, service: string, now: Time, stop: nat)
    requires env.config.Valid() && Grounded(s) && Stateless(env.llm)
    ensures CasesOf(ProcessedUntil(env, s, service, now, stop), service) ==
            ProcessCasesUntil(env, EventsOf(s.events, service), CasesOf(s, service), service, now, stop)
    ensures forall other :: other != service ==>
              CasesOf(ProcessedUntil(env, s, service, now, stop), other) == CasesOf(s, other)
    ensures ProcessedUntil(env, s, service, now, stop).events == s.events
  {
    hide Found, Absorbed, Target, TriagedUntil, Raised, Grounded, CasesOf, CaseAt, OnlyCase, Grown, CaseTarget;
    hide CaseKeys, EventsOf, TriagedCaseUntil, AlertedCase, IncidentsOf, Interrupts, CasesInterrupt;
    var c, found := env.config, Detected(env.config, s, service, now);
    LinkedIfGrounded(s);
    SameFindings(env, s, service, now);
    InterruptRefines(env, s, service, now, stop);
    if found != [] {
      var k, a := Target(c, s, service, now), Absorbed(c, s, service, found, now);
      var t := TriagedUntil(env, a, k, stop);
      var x := CaseTarget(c, CasesOf(s, service), now);
      AbsorbedCases(c, s, service, found, now);
      AbsorbedTarget(c, s, service, found, now);
      AbsorbedIncidents(c, s, service, found, now);
      DetectedHere(c, s, service, now);
      AbsorbedGrounded(c, s, service, found, now);
      UntilGrounded(env, a, k, stop);
      UntilCases(env, a, k, stop);
      StepCases(a, t, service, k, x);
      SamePositions(a, t, k, service);
      if !Interrupts(env, s, service, now, stop) { RaisedStep(c, t, service, k, x, now); }
    }
  }

  lemma RaisedStep(c: Config, s: Store, service: string, k: nat, x: nat, now: Time)
    requires Grounded(s) && k < |s.incidents| && s.incidents[k].service == service
    requires x < |IncidentsOf(s.incidents, service)| && IncidentsOf(s.incidents, service)[x] == k
    ensures var r := Raised(c, s, k, now);
            && x < |CasesOf(s, service)|
            && CasesOf(r, service) == CasesOf(s, service)[x := AlertedCase(c, CasesOf(s, service)[x], now)]
            && (forall other :: other != service ==> CasesOf(r, other) == CasesOf(s, other))
            && r.events == s.events
  {
    LinkedIfGrounded(s);
    hide Raised, Grounded, CasesOf, CaseAt, OnlyCase, AlertedCase, IncidentsOf;
    RaisedCases(c, s, k, now);
    StepCases(s, Raised(c, s, k, now), service, k, x);
    RaisedEvents(c, s, k, now);
  }

  /** Without interruption: the run for a service refines the run on its case file. */
  lemma ProcessRefines(env: Env, s: Store, service: string, now: Time)
    requires env.config.Valid() && Grounded(s) && Stateless(env.llm)
    ensures CasesOf(Processed(env, s, service, now), service) ==
            ProcessCases(env, EventsOf(s.events, service), CasesOf(s, service), service, now)
    ensures forall other :: other != service ==> CasesOf(Processed(env, s, service, now), other) == CasesOf(s, other)
    ensures Processed(env, s, service, now).events == s.events
  {
    hide Processed, ProcessedUntil, ProcessCases, ProcessCasesUntil, CasesOf, Grounded, Stateless;
    ProcessUntilRefines(env, s, service, now, 4);
    NeverInterrupted(env, s, service, now, 4);
    NeverInterruptedCases(env, EventsOf(s.events, service), CasesOf(s, service), service, now, 4);
  }

  lemma LinkedIfGrounded(s: Store)
    requires Grounded(s)
    ensures AllLinked(s) && AlertsKeyed(s)
  {
  }

  lemma RaisedEvents(c: Config, s: Store, k: nat, now: Time)
    ensures Raised(c, s, k, now).events == s.events
  {
  }

  lemma FoundForConsistency(c: Config, s: Store, service: string, now: Time)
    requires c.Valid()
    ensures var found := Detected(c, s, service, now);
            KeysDistinct(found) && forall a :: a in found ==> a.service == service && KeyOf(a) !in Keys(s.anomalies)
  {
    FoundShape(c, Keys(s.anomalies), s.events, service, now);
  }

  /** Where the target stands among the service's incidents after absorbing. */
  lemma AbsorbedTarget(c: Config, s: Store, service: string, found: seq<Anomaly>, now: Time)
    ensures var k, a := Target(c, s, service, now), Absorbed(c, s, service, found, now);
            var x := CaseTarget(c, CasesOf(s, service), now);
            var ids := IncidentsOf(a.incidents, service);
            && k < |a.incidents| && a.incidents[k].service == service && x < |ids| && ids[x] == k
  {
    hide Absorbed, Target, CaseTarget, DeriveSeverity, AnomaliesOf, IncidentsOf;
    var k, a := Target(c, s, service, now), Absorbed(c, s, service, found, now);
    AbsorbedIncidents(c, s, service, found, now);
    SameTarget(c, s, service, now);
    TargetOfService(c, s, service, now);
    if k < |s.incidents| { IncidentsOfSame(s.incidents, a.incidents, service); }
    else { IncidentsOfAppend(s.incidents, NewIncident(service, |found|, now), service); }
  }

  lemma SamePositions(s: Store, r: Store, k: nat, service: string)
    requires OnlyCase(s, r, k)
    ensures IncidentsOf(r.incidents, service) == IncidentsOf(s.incidents, service)
  {
    ServicesKept(s, r, k);
    IncidentsOfSame(s.incidents, r.incidents, service);
  }

  /** A step that changes one case of the service changes no other case of any service. */
  lemma StepCases(s: Store, r: Store, service: string, k: nat, x: nat)
    requires OnlyCase(s, r, k) && s.incidents[k].service == service
    requires x < |IncidentsOf(s.incidents, service)| && IncidentsOf(s.incidents, service)[x] == k
    ensures r.incidents[k].service == service
    ensures x < |CasesOf(s, service)| && CasesOf(s, service)[x] == CaseAt(s, k)
    ensures CasesOf(r, service) == CasesOf(s, service)[x := CaseAt(r, k)]
    ensures forall other :: other != service ==> CasesOf(r, other) == CasesOf(s, other)
  {
    OnlyCaseHere(s, r, k, x);
    forall other | other != service
      ensures CasesOf(r, other) == CasesOf(s, other)
    {
      OnlyCaseElsewhere(s, r, k, other);
    }
  }

  // ----- Order of the services -----

  lemma ProcessedGrounded(env: Env, s: Store, service: string, now: Time)
    requires env.config.Valid() && Grounded(s)
    ensures Grounded(Processed(env, s, service, now))
  {
    hide Processed, ProcessedUntil, Grounded;
    ProcessedUntilGrounded(env, s, service, now, 4);
    NeverInterrupted(env, s, service, now, 4);
  }

  /** What a run over several services does to one of them depends on that service alone. */
  lemma {:induction false} ProcessedAllCases(env: Env, s: Store, services: seq<string>, now: Time, service: string)
    requires env.config.Valid() && Grounded(s) && Stateless(env.llm) && Distinct(services)
    ensures var r := ProcessedAll(env, s, services, now);
            && Grounded(r) && r.events == s.events
            && CasesOf(r, service) ==
               if service in services
               then ProcessCases(env, EventsOf(s.events, service), CasesOf(s, service), service, now)
               else CasesOf(s, service)
  {
    hide Grounded, Processed, CasesOf, ProcessCases, EventsOf;
    if services != [] {
      var init, last := services[..|services| - 1], services[|services| - 1];
      var m := ProcessedAll(env, s, init, now);
      assert services == init + [last] && last !in init;
      ProcessedAllCases(env, s, init, now, service);
      ProcessedGrounded(env, m, last, now);
      ProcessRefines(env, m, last, now);
    }
  }

  /** Processing the same services in any two orders leaves every service with the same cases. */
  lemma OrderDoesNotMatter(env: Env, s: Store, order1: seq<string>, order2: seq<string>, now: Time, service: string)
    requires env.config.Valid() && Grounded(s) && Stateless(env.llm)
    requires Distinct(order1) && Distinct(order2) && forall x :: x in order1 <==> x in order2
    ensures CasesOf(ProcessedAll(env, s, order1, now), service) == CasesOf(ProcessedAll(env, s, order2, now), service)
  {
    hide Grounded, ProcessedAll, CasesOf, ProcessCases, EventsOf, Stateless;
    ProcessedAllCases(env, s, order1, now, service);
    ProcessedAllCases(env, s, order2, now, service);
  }
}
