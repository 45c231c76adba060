/**
 Detection, correlation and alerts do not depend on what the model answers: every run projects onto
 a run of the pipeline without triage.
 */
module Independence {
  import opened Wrappers
  import opened Records
  import opened Detection
  import opened Triage
  import opened Sorting
  import opened Pipeline
  import opened Invariants
  import opened Cases
  import opened Runs

  function Unreported(incidents: seq<Incident>): (r: seq<Incident>)
    ensures |r| == |incidents| && forall k :: 0 <= k < |r| ==> r[k] == incidents[k].(report := None)
  {
    seq(|incidents|, k requires 0 <= k < |incidents| => incidents[k].(report := None))
  }

  /** The tables without reports and without the log of the model. */
  function Stripped(s: Store): Store {
    s.(incidents := Unreported(s.incidents), records := [])
  }

  /** The pipeline with triage left out. */
  function Plain(c: Config, s: Store, service: string, now: Time): Store
    requires c.Valid()
  {
    var found := Detected(c, s, service, now);
    if found == [] then s
    else Raised(c, Absorbed(c, s, service, found, now), Target(c, s, service, now), now)
  }

  function PlainRun(c: Config, steps: seq<Step>): Store
    requires c.Valid()
  {
    if steps == [] then EmptyStore()
    else
      var s := PlainRun(c, steps[..|steps| - 1]);
      match steps[|steps| - 1]
      case Ingest(batch) => s.(events := s.events + batch)
      case Process(service, now) => Plain(c, s, service, now)
      case Patch(id, status, now) => Updated(s, id, status, now)
  }

  /** a and b agree on what correlation looks at. */
  ghost predicate SameLooks(a: seq<Incident>, b: seq<Incident>) {
    && |a| == |b|
    && forall k :: 0 <= k < |a| ==>
         a[k].service == b[k].service && a[k].status == b[k].status && a[k].updatedAt == b[k].updatedAt
  }

  lemma {:induction false} LatestSame(a: seq<Incident>, b: seq<Incident>, since: Time)
    requires SameLooks(a, b)
    ensures Latest(a, since) == Latest(b, since)
  {
    if a != [] { LatestSame(a[..|a| - 1], b[..|b| - 1], since); }
  }

  lemma LatestPicked(a: seq<Incident>, b: seq<Incident>, ids: seq<nat>, since: Time)
    requires SameLooks(a, b) && forall i :: 0 <= i < |ids| ==> ids[i] < |a|
    ensures Latest(Pick(a, ids), since) == Latest(Pick(b, ids), since)
  {
    hide Latest;
    LatestSame(Pick(a, ids), Pick(b, ids), since);
  }

  lemma TargetByLatest(c: Config, s: Store, service: string, now: Time)
    ensures var ids := IncidentsOf(s.incidents, service);
            var latest := Latest(Pick(s.incidents, ids), now - c.correlationWindow);
            Target(c, s, service, now) == if latest.Some? then ids[latest.value] else |s.incidents|
  {
    hide IncidentsOf, Latest, Live, Pick;
  }

  lemma TargetSame(c: Config, s: Store, r: Store, service: string, now: Time)
    requires SameLooks(s.incidents, r.incidents)
    ensures Target(c, s, service, now) == Target(c, r, service, now)
  {
    hide Target, IncidentsOf, Latest, Live, Pick;
    IncidentsOfSame(s.incidents, r.incidents, service);
    TargetByLatest(c, s, service, now);
    TargetByLatest(c, r, service, now);
    LatestPicked(s.incidents, r.incidents, IncidentsOf(s.incidents, service), now - c.correlationWindow);
  }

  lemma AbsorbedStripped(c: Config, s: Store, service: string, found: seq<Anomaly>, now: Time)
    ensures Stripped(Absorbed(c, s, service, found, now)) == Absorbed(c, Stripped(s), service, found, now)
  {
    hide Absorbed, Target, AnomaliesOf, DeriveSeverity, Linked, Unlinked;
    var r, t := Absorbed(c, s, service, found, now), Absorbed(c, Stripped(s), service, found, now);
    TargetSame(c, s, Stripped(s), service, now);
    AbsorbedIncidents(c, s, service, found, now);
    AbsorbedIncidents(c, Stripped(s), service, found, now);
    AbsorbedRows(c, s, service, found, now);
    AbsorbedRows(c, Stripped(s), service, found, now);
    assert Unreported(r.incidents) == t.incidents;
  }

  lemma TriagedStripped(env: Env, s: Store, k: nat)
    requires k < |s.incidents|
    ensures Stripped(TriagedAt(env, s, k)) == Stripped(s)
  {
    hide TriagedAt, AnomaliesOf;
    TriagedShape(env, s, k);
    assert Unreported(TriagedAt(env, s, k).incidents) == Unreported(s.incidents);
  }

  /** A run for one service projects onto the run without triage. */
  lemma ProcessedStripped(env: Env, s: Store, service: string, now: Time)
    requires env.config.Valid()
    ensures Stripped(Processed(env, s, service, now)) == Plain(env.config, Stripped(s), service, now)
  {
    hide Found, Absorbed, TriagedAt, Target, Fired, Unreported, Keys;
    var c, found := env.config, Detected(env.config, s, service, now);
    if found != [] {
      var k := Target(c, s, service, now);
      TargetSame(c, s, Stripped(s), service, now);
      AbsorbedStripped(c, s, service, found, now);
      TriagedStripped(env, Absorbed(c, s, service, found, now), k);
    }
  }

  lemma UpdatedStripped(s: Store, k: nat, status: Status, now: Time)
    ensures Stripped(Updated(s, k, status, now)) == Updated(Stripped(s), k, status, now)
  {
    assert Unreported(Updated(s, k, status, now).incidents) == Updated(Stripped(s), k, status, now).incidents;
  }

  lemma {:induction false} RunStripped(env: Env, steps: seq<Step>)
    requires env.config.Valid()
    ensures Stripped(Run(env, steps)) == PlainRun(env.config, steps)
  {
    hide Processed, Plain, Updated, Stripped;
    if steps == [] { EmptyStripped(); }
    else {
      var s := Run(env, steps[..|steps| - 1]);
      RunStripped(env, steps[..|steps| - 1]);
      match steps[|steps| - 1]
      case Ingest(batch) => IngestStripped(s, batch);
      case Process(service, now) => ProcessedStripped(env, s, service, now);
      case Patch(id, status, now) => UpdatedStripped(s, id, status, now);
    }
  }

  lemma EmptyStripped()
    ensures Stripped(EmptyStore()) == EmptyStore()
  {
  }

  lemma IngestStripped(s: Store, batch: seq<Event>)
    ensures Stripped(s.(events := s.events + batch)) == Stripped(s).(events := Stripped(s).events + batch)
  {
  }

  /**
   Two runs of the same steps with different models, templates or runbooks store the same anomalies
   with the same links, the same alerts, and incidents that differ in their reports only.
   */
  lemma {:induction false} ModelDoesNotSteer(env1: Env, env2: Env, steps: seq<Step>)
    requires env1.config == env2.config && env1.config.Valid()
    ensures Stripped(Run(env1, steps)) == Stripped(Run(env2, steps))
  {
    RunStripped(env1, steps);
    RunStripped(env2, steps);
  }

  // ----- Order of the services, for any model -----

  function PlainAll(c: Config, s: Store, services: seq<string>, now: Time): Store
    requires c.Valid()
  {
    hide Plain;
    if services == [] then s
    else Plain(c, PlainAll(c, s, services[..|services| - 1], now), services[|services| - 1], now)
  }

  lemma {:induction false} AllStripped(env: Env, s: Store, services: seq<string>, now: Time)
    requires env.config.Valid()
    ensures Stripped(ProcessedAll(env, s, services, now)) == PlainAll(env.config, Stripped(s), services, now)
  {
    hide Processed, Plain, Stripped;
    if services != [] {
      var init, last := services[..|services| - 1], services[|services| - 1];
      AllStripped(env, s, init, now);
      ProcessedStripped(env, ProcessedAll(env, s, init, now), last, now);
    }
  }

  /** A model that fails on every prompt depends on none of them. */
  function SilentModel(): Llm {
    Llm((n, p) => Err(Timeout), (n, p) => Err(Timeout), (n, p) => Err(Timeout), (n, p) => Err(Timeout))
  }

  lemma SilentIsStateless()
    ensures Stateless(SilentModel())
  {
  }

  function Bare(k: Case): Case {
    k.(incident := k.incident.(report := None), calls := [])
  }

  lemma CallsOfNone(k: nat)
    ensures CallsOf([], k) == []
  {
  }

  /** The cases of the stripped tables are the cases without reports and calls. */
  lemma StrippedCases(s: Store, service: string)
    ensures var a, b := CasesOf(Stripped(s), service), CasesOf(s, service);
            |a| == |b| && forall x :: 0 <= x < |a| ==> a[x] == Bare(b[x])
  {
    hide AnomaliesOf, AlertsOf, CallsOf, IncidentsOf;
    IncidentsOfSame(s.incidents, Stripped(s).incidents, service);
    var ids := IncidentsOf(s.incidents, service);
    forall x | 0 <= x < |ids| ensures CasesOf(Stripped(s), service)[x] == Bare(CasesOf(s, service)[x]) {
      CallsOfNone(ids[x]);
    }
  }

  /**
   With any model, even one whose answers depend on the calls before, two orders of the same services leave
   every service with the same incidents, anomalies and alerts up to row ids and reports.
   */
  lemma OrderMattersToReportsOnly(env: Env, s: Store, order1: seq<string>, order2: seq<string>, now: Time,
                                  service: string)
    requires env.config.Valid() && Grounded(s)
    requires Distinct(order1) && Distinct(order2) && forall x :: x in order1 <==> x in order2
    ensures CasesOf(Stripped(ProcessedAll(env, s, order1, now)), service) ==
            CasesOf(Stripped(ProcessedAll(env, s, order2, now)), service)
  {
    hide *;
    var silent := env.(llm := SilentModel());
    SilentIsStateless();
    OrderDoesNotMatter(silent, s, order1, order2, now, service);
    AllStripped(env, s, order1, now);
    AllStripped(env, s, order2, now);
    AllStripped(silent, s, order1, now);
    AllStripped(silent, s, order2, now);
    StrippedCases(ProcessedAll(silent, s, order1, now), service);
    StrippedCases(ProcessedAll(silent, s, order2, now), service);
  }
}
