/**
 The risk score over the tables (backend/app/risk/risk_score_service.py), before it is rounded.
 */
module Risk {
  import opened Wrappers
  import opened Records
  import opened Detection
  import opened Pipeline
  import opened Invariants
  import opened Runs

  const ERROR_CAP := 40.0
  const ALERT_CAP := 30.0
  const INCIDENT_CAP := 50.0

  function Min(x: real, y: real): real { if x <= y then x else y }

  function Max(x: real, y: real): real { if x >= y then x else y }

  function Weight(s: Severity): real {
    match s
    case Severe => 20.0
    case High => 12.0
    case Medium => 6.0
    case Low => 2.0
  }

  // ----- Counts -----

  function CountSince(events: seq<Event>, since: Time): (n: nat) {
    if events == [] then 0
    else
      var e := events[|events| - 1];
      CountSince(events[..|events| - 1], since) + (if e.timestamp >= since then 1 else 0)
  }

  function ErrorsSince(events: seq<Event>, since: Time): (n: nat)
    ensures n <= CountSince(events, since)
  {
    if events == [] then 0
    else
      var e := events[|events| - 1];
      ErrorsSince(events[..|events| - 1], since) + (if e.timestamp >= since && IsError(e) then 1 else 0)
  }

  function Alerted(alerts: seq<Alert>): set<nat> {
    set i | 0 <= i < |alerts| :: alerts[i].incident
  }

  function Burden(i: Incident): (w: real)
    ensures w == 0.0 <==> i.status == Resolved
    ensures 0.0 <= w <= 20.0
  {
    if i.status == Resolved then 0.0 else Weight(i.severity)
  }

  /** The weights of the unresolved incidents. */
  function Burdens(incidents: seq<Incident>): (w: real)
    ensures w >= 0.0
  {
    if incidents == [] then 0.0
    else Burdens(incidents[..|incidents| - 1]) + Burden(incidents[|incidents| - 1])
  }

  // ----- Penalties -----

  function ErrorRate(events: seq<Event>, since: Time): (pct: real)
    ensures 0.0 <= pct <= 100.0
    ensures pct == 0.0 <==> ErrorsSince(events, since) == 0
  {
    var total, errors := CountSince(events, since), ErrorsSince(events, since);
    if total == 0 then 0.0
    else
      ShareOfHundred(errors as real, total as real);
      errors as real / total as real * 100.0
  }

  lemma ShareOfHundred(part: real, whole: real)
    requires 0.0 <= part <= whole && whole > 0.0
    ensures 0.0 <= part / whole * 100.0 <= 100.0
    ensures part / whole * 100.0 == 0.0 <==> part == 0.0
  {
    var share := part / whole;
    assert share * whole == part;
  }

  function ErrorPenalty(events: seq<Event>, since: Time): (p: real)
    ensures 0.0 <= p <= ERROR_CAP
    ensures p == 0.0 <==> ErrorsSince(events, since) == 0
  {
    Min(ERROR_CAP, ErrorRate(events, since) * 0.8)
  }

  function AlertPenalty(alerts: seq<Alert>): (p: real)
    ensures 0.0 <= p <= ALERT_CAP
    ensures p == 0.0 <==> Alerted(alerts) == {}
  {
    Min(ALERT_CAP, |Alerted(alerts)| as real * 5.0)
  }

  function IncidentPenalty(incidents: seq<Incident>): (p: real)
    ensures 0.0 <= p <= INCIDENT_CAP
  {
    Min(INCIDENT_CAP, Burdens(incidents))
  }

  /** The score at `now`, from the events of the last `window` ticks, all alerts and the unresolved incidents. */
  function Score(s: Store, window: nat, now: Time): (score: real)
    ensures 0.0 <= score <= 100.0
  {
    var penalties := ErrorPenalty(s.events, now - window) + AlertPenalty(s.alerts) + IncidentPenalty(s.incidents);
    Max(0.0, Min(100.0, 100.0 - penalties))
  }

  // ----- What the extremes mean -----

  lemma {:induction false} NoBurden(incidents: seq<Incident>)
    ensures Burdens(incidents) == 0.0 <==> forall k :: 0 <= k < |incidents| ==> incidents[k].status == Resolved
  {
    if incidents != [] {
      var init := incidents[..|incidents| - 1];
      NoBurden(init);
      assert forall k :: 0 <= k < |init| ==> init[k] == incidents[k];
    }
  }

  /** The full score means: no recent error, no alert ever, no unresolved incident. */
  lemma FullScore(s: Store, window: nat, now: Time)
    ensures Score(s, window, now) == 100.0 <==>
            && ErrorsSince(s.events, now - window) == 0
            && s.alerts == []
            && forall k :: 0 <= k < |s.incidents| ==> s.incidents[k].status == Resolved
  {
    NoBurden(s.incidents);
    if s.alerts != [] { assert s.alerts[0].incident in Alerted(s.alerts); }
  }

  lemma {:induction false} OneBurden(incidents: seq<Incident>)
    requires forall i, j :: 0 <= i < j < |incidents| ==>
             incidents[i].status == Resolved || incidents[j].status == Resolved
    ensures Burdens(incidents) <= 20.0
  {
    if incidents != [] {
      var n := |incidents| - 1;
      OneBurden(incidents[..n]);
      if incidents[n].status != Resolved { NoBurden(incidents[..n]); }
    }
  }

  /** Errors and alerts alone cannot bring the score to zero: two incidents must be unresolved at once. */
  lemma ZeroScoreNeedsTwo(s: Store, window: nat, now: Time)
    requires Score(s, window, now) == 0.0
    ensures exists i, j :: 0 <= i < j < |s.incidents|
                           && s.incidents[i].status != Resolved && s.incidents[j].status != Resolved
  {
    var a := s.incidents;
    if forall i, j :: 0 <= i < j < |a| ==> a[i].status == Resolved || a[j].status == Resolved {
      OneBurden(s.incidents);
      assert false;
    }
  }

  // ----- The pipeline never raises the score -----

  /** No old incident weighs less in r than in s. */
  ghost predicate NoLighter(a: seq<Incident>, b: seq<Incident>) {
    |a| <= |b| && forall k :: 0 <= k < |a| ==> Burden(a[k]) <= Burden(b[k])
  }

  lemma {:induction false} BurdensUp(a: seq<Incident>, b: seq<Incident>)
    requires NoLighter(a, b)
    ensures Burdens(a) <= Burdens(b)
    decreases |b|
  {
    hide Burden;
    if b != [] {
      var init := b[..|b| - 1];
      if |a| == |b| { BurdensUp(a[..|a| - 1], init); }
      else { BurdensUp(a, init); }
    }
  }

  lemma {:induction false} SubsetSize(a: set<nat>, b: set<nat>)
    requires a <= b
    ensures |a| <= |b|
  {
    if a != {} {
      var x :| x in a;
      SubsetSize(a - {x}, b - {x});
    }
  }

  lemma AlertedUp(alerts: seq<Alert>, more: seq<Alert>)
    ensures AlertPenalty(alerts) <= AlertPenalty(alerts + more)
  {
    var all := alerts + more;
    forall x | x in Alerted(alerts) ensures x in Alerted(all) {
      var i :| 0 <= i < |alerts| && alerts[i].incident == x;
      assert all[i].incident == x;
    }
    SubsetSize(Alerted(alerts), Alerted(all));
  }

  lemma WeightUp(s: Severity, t: Severity)
    requires s.Rank() <= t.Rank()
    ensures Weight(s) <= Weight(t)
  {
  }

  lemma BurdenUp(i: Incident, j: Incident)
    requires i.status == j.status && i.severity.Rank() <= j.severity.Rank()
    ensures Burden(i) <= Burden(j)
  {
    WeightUp(i.severity, j.severity);
  }

  /** r has the events of s, and only appends incidents and alerts without touching the old statuses. */
  ghost predicate Appends(s: Store, r: Store) {
    && r.events == s.events
    && |s.incidents| <= |r.incidents|
    && (forall k :: 0 <= k < |s.incidents| ==> r.incidents[k].status == s.incidents[k].status)
    && |s.alerts| <= |r.alerts| && r.alerts[..|s.alerts|] == s.alerts
  }

  lemma ProcessedAppends(env: Env, s: Store, service: string, now: Time)
    requires env.config.Valid()
    ensures Appends(s, Processed(env, s, service, now))
  {
    hide Found, Absorbed, TriagedAt, Target, Fired, Keys;
    var c, found := env.config, Detected(env.config, s, service, now);
    if found != [] {
      AbsorbedIncidents(c, s, service, found, now);
      TriagedShape(env, Absorbed(c, s, service, found, now), Target(c, s, service, now));
    }
  }

  lemma ScoreDown(s: Store, r: Store, window: nat, at: Time)
    requires r.events == s.events && |s.alerts| <= |r.alerts| && r.alerts[..|s.alerts|] == s.alerts
    requires NoLighter(s.incidents, r.incidents)
    ensures Score(r, window, at) <= Score(s, window, at)
  {
    hide Burdens, ErrorPenalty, AlertPenalty, Burden;
    BurdensUp(s.incidents, r.incidents);
    AlertedUp(s.alerts, r.alerts[|s.alerts|..]);
    assert r.alerts == s.alerts + r.alerts[|s.alerts|..];
  }

  /** A run for a service never raises the score, at whatever time it is read. */
  lemma ProcessedLowersScore(env: Env, s: Store, service: string, now: Time, window: nat, at: Time)
    requires env.config.Valid() && SeveritiesDerived(s)
    ensures Score(Processed(env, s, service, now), window, at) <= Score(s, window, at)
  {
    hide Processed, Burden, SeveritiesDerived, Score;
    var r := Processed(env, s, service, now);
    ProcessedAppends(env, s, service, now);
    SeverityNeverFalls(env, s, Process(service, now));
    forall k | 0 <= k < |s.incidents| ensures Burden(s.incidents[k]) <= Burden(r.incidents[k]) {
      BurdenUp(s.incidents[k], r.incidents[k]);
    }
    ScoreDown(s, r, window, at);
  }

  /** A status change raises the score only by resolving and lowers it only by reopening. */
  lemma PatchScore(s: Store, k: nat, status: Status, now: Time, window: nat, at: Time)
    requires k < |s.incidents|
    ensures var before, after := Score(s, window, at), Score(Updated(s, k, status, now), window, at);
            && (status == Resolved ==> before <= after)
            && (status != Resolved ==> after <= before)
            && ((s.incidents[k].status == Resolved <==> status == Resolved) ==> before == after)
  {
    hide Score, Burdens;
    var r := Updated(s, k, status, now);
    if status == Resolved || s.incidents[k].status != Resolved { ScoreDown(r, s, window, at); }
    if status != Resolved || s.incidents[k].status == Resolved { ScoreDown(s, r, window, at); }
  }

  /** Steps that neither ingest events nor resolve an incident. */
  ghost predicate Calm(steps: seq<Step>) {
    forall i :: 0 <= i < |steps| ==> !steps[i].Ingest? && (steps[i].Patch? ==> steps[i].status != Resolved)
  }

  lemma CalmStep(env: Env, s: Store, step: Step, window: nat, at: Time)
    requires env.config.Valid() && SeveritiesDerived(s) && Calm([step])
    ensures Score(Apply(env, s, step), window, at) <= Score(s, window, at)
  {
    hide Score, Processed, Updated, SeveritiesDerived;
    assert [step][0] == step;
    match step
    case Process(service, now) => ProcessedLowersScore(env, s, service, now, window, at);
    case Patch(id, status, now) =>
      if id < |s.incidents| { PatchScore(s, id, status, now, window, at); }
      else { PatchNothing(s, id, status, now); }
    case _ =>
  }

  lemma ConsistentSeverities(s: Store)
    requires Consistent(s)
    ensures SeveritiesDerived(s)
  {
    hide SeveritiesDerived;
  }

  /** From any point of a run on, calm steps never raise the score. */
  lemma {:induction false} CalmNeverRaises(env: Env, before: seq<Step>, steps: seq<Step>, window: nat, at: Time)
    requires env.config.Valid() && Calm(steps)
    ensures Score(Run(env, before + steps), window, at) <= Score(Run(env, before), window, at)
  {
    hide Score, Apply, Run, Consistent;
    if steps == [] {
      assert before + steps == before;
    } else {
      var init, last := steps[..|steps| - 1], steps[|steps| - 1];
      assert before + steps == before + init + [last];
      CalmNeverRaises(env, before, init, window, at);
      RunAppend(env, before + init, last);
      RunConsistent(env, before + init);
      ConsistentSeverities(Run(env, before + init));
      CalmStep(env, Run(env, before + init), last, window, at);
    }
  }

  lemma PatchNothing(s: Store, k: nat, status: Status, now: Time)
    requires k >= |s.incidents|
    ensures Updated(s, k, status, now) == s
  {
  }
}
