/**
 What the risk score is, in numbers of rows: errors among recent events, incidents that were alerted about, and
 unresolved incidents of each severity (backend/app/risk/risk_score_service.py:17-70).
 */
module Scores {
  import opened Wrappers
  import opened Records
  import opened Detection
  import opened Findings
  import opened Pipeline
  import opened Risk

  // ----- Rows -----

  /** The rows not older than since. */
  ghost function RecentRows(events: seq<Event>, since: Time): set<nat> {
    set i | 0 <= i < |events| && events[i].timestamp >= since
  }

  ghost function RecentErrorRows(events: seq<Event>, since: Time): set<nat> {
    set i | 0 <= i < |events| && events[i].timestamp >= since &&
      (events[i].level == Error || events[i].level == Critical)
  }

  /** The incidents of this severity that are not resolved. */
  ghost function Unresolved(incidents: seq<Incident>, severity: Severity): set<nat> {
    set i | 0 <= i < |incidents| && incidents[i].status != Resolved && incidents[i].severity == severity
  }

  lemma {:induction false} CountIsRows(events: seq<Event>, since: Time)
    ensures CountSince(events, since) == |RecentRows(events, since)|
  {
    if events != [] {
      var n := |events| - 1;
      CountIsRows(events[..n], since);
      var more := if events[n].timestamp >= since then {n} else {};
      assert RecentRows(events, since) == RecentRows(events[..n], since) + more;
    } else {
      assert RecentRows(events, since) == {};
    }
  }

  lemma {:induction false} ErrorsAreRows(events: seq<Event>, since: Time)
    ensures ErrorsSince(events, since) == |RecentErrorRows(events, since)|
  {
    if events != [] {
      var n := |events| - 1;
      ErrorsAreRows(events[..n], since);
      var more := if events[n].timestamp >= since && (events[n].level == Error || events[n].level == Critical)
        then {n} else {};
      assert RecentErrorRows(events, since) == RecentErrorRows(events[..n], since) + more;
    } else {
      assert RecentErrorRows(events, since) == {};
    }
  }

  function Counted(incidents: seq<Incident>, severity: Severity): nat {
    if incidents == [] then 0
    else
      var i := incidents[|incidents| - 1];
      Counted(incidents[..|incidents| - 1], severity)
      + (if i.status != Resolved && i.severity == severity then 1 else 0)
  }

  lemma UnresolvedStep(incidents: seq<Incident>, severity: Severity)
    requires incidents != []
    ensures var n, i := |incidents| - 1, incidents[|incidents| - 1];
            |Unresolved(incidents, severity)| == |Unresolved(incidents[..n], severity)| +
            if i.status != Resolved && i.severity == severity then 1 else 0
  {
    var n, i := |incidents| - 1, incidents[|incidents| - 1];
    var all, before := Unresolved(incidents, severity), Unresolved(incidents[..n], severity);
    assert forall j :: 0 <= j < n ==> incidents[..n][j] == incidents[j];
    if i.status != Resolved && i.severity == severity { assert all == before + {n} && n !in before; }
    else { assert all == before; }
  }

  lemma {:induction false} CountedIsUnresolved(incidents: seq<Incident>, severity: Severity)
    ensures Counted(incidents, severity) == |Unresolved(incidents, severity)|
  {
    if incidents != [] {
      CountedIsUnresolved(incidents[..|incidents| - 1], severity);
      UnresolvedStep(incidents, severity);
    } else {
      assert Unresolved(incidents, severity) == {};
    }
  }

  lemma {:induction false} BurdensByCount(incidents: seq<Incident>)
    ensures Burdens(incidents) ==
            2.0 * Counted(incidents, Low) as real + 6.0 * Counted(incidents, Medium) as real +
            12.0 * Counted(incidents, High) as real + 20.0 * Counted(incidents, Severe) as real
  {
    if incidents != [] { BurdensByCount(incidents[..|incidents| - 1]); }
  }

  // ----- The penalties -----

  /** Eight tenths of the share of errors among the recent events in percent, at most 40; none without events. */
  lemma ErrorPenaltyMeans(events: seq<Event>, since: Time)
    ensures var n, k := |RecentRows(events, since)|, |RecentErrorRows(events, since)|;
            && (n == 0 ==> ErrorPenalty(events, since) == 0.0)
            && (n > 0 && 2 * k <= n ==> ErrorPenalty(events, since) == 80.0 * k as real / n as real)
            && (n > 0 && 2 * k >= n ==> ErrorPenalty(events, since) == 40.0)
  {
    CountIsRows(events, since);
    ErrorsAreRows(events, since);
    hide CountSince, ErrorsSince;
    var n, k := CountSince(events, since) as real, ErrorsSince(events, since) as real;
    if n > 0.0 { Share(k, n); }
  }

  lemma Share(k: real, n: real)
    requires n > 0.0
    ensures k / n * 100.0 * 0.8 == 80.0 * k / n
    ensures 2.0 * k <= n ==> 80.0 * k / n <= 40.0
    ensures 2.0 * k >= n ==> 80.0 * k / n >= 40.0
  {
    var q := k / n;
    assert q * n == k;
    assert 80.0 * q == 80.0 * k / n by { assert 80.0 * q * n == 80.0 * k; }
    assert (q - 0.5) * n == k - 0.5 * n;
    ProductSign(q - 0.5, n);
  }

  lemma ProductSign(x: real, n: real)
    requires n > 0.0
    ensures x > 0.0 ==> x * n > 0.0
    ensures x < 0.0 ==> x * n < 0.0
  {
  }

  /** Five for every incident that was ever alerted about, at most 30. */
  lemma AlertPenaltyMeans(alerts: seq<Alert>, ids: set<nat>)
    requires forall k :: k in ids <==> exists i :: 0 <= i < |alerts| && alerts[i].incident == k
    ensures AlertPenalty(alerts) == if |ids| >= 6 then 30.0 else 5.0 * |ids| as real
  {
    assert Alerted(alerts) == ids;
  }

  /** 2, 6, 12 and 20 for the unresolved incidents of the four severities, at most 50. */
  lemma IncidentPenaltyMeans(incidents: seq<Incident>)
    ensures var w := 2 * |Unresolved(incidents, Low)| + 6 * |Unresolved(incidents, Medium)| +
                     12 * |Unresolved(incidents, High)| + 20 * |Unresolved(incidents, Severe)|;
            IncidentPenalty(incidents) == if w >= 50 then 50.0 else w as real
  {
    hide Unresolved;
    BurdensByCount(incidents);
    CountedIsUnresolved(incidents, Low);
    CountedIsUnresolved(incidents, Medium);
    CountedIsUnresolved(incidents, High);
    CountedIsUnresolved(incidents, Severe);
    hide Counted, Burdens;
  }

  // ----- The score -----

  /** The score is 100 without the penalties, and not below 0. */
  lemma ScoreMeans(s: Store, window: nat, now: Time)
    ensures var left := 100.0 - ErrorPenalty(s.events, now - window) - AlertPenalty(s.alerts)
                        - IncidentPenalty(s.incidents);
            Score(s, window, now) == if left >= 0.0 then left else 0.0
  {
    hide ErrorPenalty, AlertPenalty, IncidentPenalty;
  }

  function RecentOf(events: seq<Event>, since: Time): seq<Event> {
    if events == [] then []
    else
      var e := events[|events| - 1];
      RecentOf(events[..|events| - 1], since) + (if e.timestamp >= since then [e] else [])
  }

  lemma {:induction false} OldRowsUncounted(events: seq<Event>, since: Time)
    ensures CountSince(events, since) == CountSince(RecentOf(events, since), since)
    ensures ErrorsSince(events, since) == ErrorsSince(RecentOf(events, since), since)
  {
    if events != [] {
      var init, e := events[..|events| - 1], events[|events| - 1];
      var recent := RecentOf(init, since);
      OldRowsUncounted(init, since);
      assert (recent + [e])[..|recent|] == recent && recent + [] == recent;
    }
  }

  /** Events older than the window never matter. */
  lemma OldEventsDoNotMatter(s: Store, r: Store, window: nat, now: Time)
    requires RecentOf(s.events, now - window) == RecentOf(r.events, now - window)
    requires s.alerts == r.alerts && s.incidents == r.incidents
    ensures Score(s, window, now) == Score(r, window, now)
  {
    hide CountSince, ErrorsSince;
    OldRowsUncounted(s.events, now - window);
    OldRowsUncounted(r.events, now - window);
  }

  lemma {:induction false} CountsSameKinds(a: seq<Event>, b: seq<Event>, since: Time)
    requires SameKinds(a, b)
    ensures CountSince(a, since) == CountSince(b, since) && ErrorsSince(a, since) == ErrorsSince(b, since)
  {
    if a != [] {
      assert SameKinds(a[..|a| - 1], b[..|b| - 1]);
      CountsSameKinds(a[..|a| - 1], b[..|b| - 1], since);
    }
  }

  /** ERROR or CRITICAL, INFO or WARN: the score is the same. */
  lemma ScoreByKind(s: Store, r: Store, window: nat, now: Time)
    requires SameKinds(s.events, r.events) && s.alerts == r.alerts && s.incidents == r.incidents
    ensures Score(s, window, now) == Score(r, window, now)
  {
    hide CountSince, ErrorsSince, SameKinds;
    CountsSameKinds(s.events, r.events, now - window);
  }

  // ----- Values -----

  lemma NoIncidentNoPenalty()
    ensures IncidentPenalty([]) == 0.0 && AlertPenalty([]) == 0.0
  {
  }

  /** With errors alone: 60 from half of the events on, else 80 times their share below 100. */
  lemma ErrorsAlone(s: Store, window: nat, now: Time, k: nat, n: nat)
    requires s.alerts == [] && s.incidents == [] && n > 0
    requires n == |RecentRows(s.events, now - window)| && k == |RecentErrorRows(s.events, now - window)|
    ensures Score(s, window, now) == 100.0 - (if 2 * k >= n then 40.0 else 80.0 * k as real / n as real)
  {
    hide RecentRows, RecentErrorRows, Score, ErrorPenalty, AlertPenalty, IncidentPenalty;
    ScoreMeans(s, window, now);
    ErrorPenaltyMeans(s.events, now - window);
    NoIncidentNoPenalty();
    if 2 * k < n { Share(k as real, n as real); }
  }

  lemma AlertsAlone(s: Store, window: nat, now: Time, ids: set<nat>)
    requires |RecentErrorRows(s.events, now - window)| == 0 && s.incidents == []
    requires forall k :: k in ids <==> exists i :: 0 <= i < |s.alerts| && s.alerts[i].incident == k
    ensures Score(s, window, now) == if |ids| >= 6 then 70.0 else 100.0 - 5.0 * |ids| as real
  {
    hide RecentErrorRows, Score, AlertPenalty, IncidentPenalty;
    ScoreMeans(s, window, now);
    ErrorsAreRows(s.events, now - window);
    AlertPenaltyMeans(s.alerts, ids);
    NoIncidentNoPenalty();
  }

  /** One unresolved incident and nothing else leaves 98, 94, 88 or 80. */
  lemma OneUnresolved(s: Store, window: nat, now: Time, k: nat)
    requires |RecentErrorRows(s.events, now - window)| == 0 && s.alerts == [] && k < |s.incidents|
    requires forall i :: 0 <= i < |s.incidents| ==> (s.incidents[i].status != Resolved <==> i == k)
    ensures Score(s, window, now) ==
            match s.incidents[k].severity case Low => 98.0 case Medium => 94.0 case High => 88.0 case Severe => 80.0
  {
    hide RecentErrorRows, Score, AlertPenalty, IncidentPenalty;
    ScoreMeans(s, window, now);
    ErrorsAreRows(s.events, now - window);
    NoIncidentNoPenalty();
    IncidentPenaltyMeans(s.incidents);
    forall v: Severity ensures Unresolved(s.incidents, v) == if s.incidents[k].severity == v then {k} else {} {}
  }
}
