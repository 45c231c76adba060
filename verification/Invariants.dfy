/** What every run of the pipeline keeps, for any answers and handled failures of the model. */
module Invariants {
  import opened Wrappers
  import opened Records
  import opened Detection
  import opened Triage
  import opened Pipeline
  import opened Sorting
  import opened Text

  // ----- The invariants -----

  /** A row is linked to an incident of its own service. */
  predicate RowLinked(s: Store, r: Row) {
    r.incident.Some? && r.incident.value < |s.incidents| && s.incidents[r.incident.value].service == r.anomaly.service
  }

  ghost predicate AllLinked(s: Store) {
    forall i :: 0 <= i < |s.anomalies| ==> RowLinked(s, s.anomalies[i])
  }

  /** No two stored anomalies share service, signature, strategy and window. */
  ghost predicate KeysUnique(s: Store) {
    forall i, j :: 0 <= i < j < |s.anomalies| ==> KeyOf(s.anomalies[i].anomaly) != KeyOf(s.anomalies[j].anomaly)
  }

  /** Every incident has anomalies, and its severity is derived from their number. */
  ghost predicate SeveritiesDerived(s: Store) {
    forall k: nat :: k < |s.incidents| ==>
      |AnomaliesOf(s.anomalies, k)| > 0 && s.incidents[k].severity == DeriveSeverity(|AnomaliesOf(s.anomalies, k)|)
  }

  /** The logged calls of incident k, in order. */
  function CallsOf(records: seq<Record>, k: nat): seq<Call> {
    if records == [] then []
    else
      var r := records[|records| - 1];
      CallsOf(records[..|records| - 1], k) + (if r.incident == k then [r.call] else [])
  }

  /** One call per agent, in order, once triaged; none before. */
  ghost predicate TriageLogged(s: Store) {
    && (forall k: nat :: k < |s.incidents| ==>
         Agents(CallsOf(s.records, k)) == if s.incidents[k].report.Some? then FourAgents() else [])
    && (forall k: nat :: k >= |s.incidents| ==> CallsOf(s.records, k) == [])
  }

  ghost predicate AllTriaged(s: Store) {
    forall k: nat :: k < |s.incidents| ==> s.incidents[k].report.Some?
  }

  /** Alerts belong to incidents and carry their key. */
  ghost predicate AlertsKeyed(s: Store) {
    forall i :: 0 <= i < |s.alerts| ==>
      s.alerts[i].incident < |s.incidents| &&
        s.alerts[i].dedupKey == DedupKey(s.alerts[i].incident, s.alerts[i].channel)
  }

  /** Alerts with the same key are more than the rate limit apart, later rows later. */
  ghost predicate Spaced(alerts: seq<Alert>, rateLimit: nat) {
    forall i, j :: 0 <= i < j < |alerts| && alerts[i].dedupKey == alerts[j].dedupKey ==>
      alerts[i].createdAt + rateLimit < alerts[j].createdAt
  }

  ghost predicate Consistent(s: Store) {
    AllLinked(s) && KeysUnique(s) && SeveritiesDerived(s) && TriageLogged(s) && AlertsKeyed(s)
  }

  // ----- Links and severities -----

  lemma {:induction false} AnomaliesOfAppend(a: seq<Row>, b: seq<Row>, k: nat)
    ensures AnomaliesOf(a + b, k) == AnomaliesOf(a, k) + AnomaliesOf(b, k)
  {
    if b == [] { assert a + b == a; }
    else {
      AnomaliesOfAppend(a, b[..|b| - 1], k);
      assert (a + b)[..|a + b| - 1] == a + b[..|b| - 1];
    }
  }

  function LinkedTo(found: seq<Anomaly>, k: nat): (rows: seq<Row>)
    ensures |rows| == |found| && forall i :: 0 <= i < |found| ==> rows[i] == Row(found[i], Some(k))
  {
    seq(|found|, i requires 0 <= i < |found| => Row(found[i], Some(k)))
  }

  lemma {:induction false} AnomaliesOfLinked(found: seq<Anomaly>, k: nat, j: nat)
    ensures AnomaliesOf(LinkedTo(found, k), j) == if j == k then found else []
  {
    if found != [] {
      var n := |found| - 1;
      AnomaliesOfLinked(found[..n], k, j);
      assert LinkedTo(found, k)[..n] == LinkedTo(found[..n], k);
      assert found[..n] + [found[n]] == found;
    }
  }

  lemma {:induction false} NoneOf(rows: seq<Row>, k: nat)
    requires forall i :: 0 <= i < |rows| ==> rows[i].incident != Some(k)
    ensures AnomaliesOf(rows, k) == []
  {
    if rows != [] { NoneOf(rows[..|rows| - 1], k); }
  }

  /** Absorbing the findings appends them, linked to the target; nothing else in the table changes. */
  lemma AbsorbedRows(c: Config, s: Store, service: string, found: seq<Anomaly>, now: Time)
    ensures var k := Target(c, s, service, now);
            Absorbed(c, s, service, found, now).anomalies == s.anomalies + LinkedTo(found, k)
  {
    var k := Target(c, s, service, now);
    assert Linked(s.anomalies + Unlinked(found), |s.anomalies|, k) == s.anomalies + LinkedTo(found, k);
  }

  lemma AbsorbedCounts(c: Config, s: Store, service: string, found: seq<Anomaly>, now: Time, j: nat)
    ensures var k := Target(c, s, service, now);
            AnomaliesOf(Absorbed(c, s, service, found, now).anomalies, j) ==
            AnomaliesOf(s.anomalies, j) + if j == k then found else []
  {
    var k := Target(c, s, service, now);
    AbsorbedRows(c, s, service, found, now);
    AnomaliesOfAppend(s.anomalies, LinkedTo(found, k), j);
    AnomaliesOfLinked(found, k, j);
  }

  /** The incidents after absorbing: one new row, or one with new severity and touch time. */
  lemma AbsorbedIncidents(c: Config, s: Store, service: string, found: seq<Anomaly>, now: Time)
    ensures var k := Target(c, s, service, now);
            var r := Absorbed(c, s, service, found, now);
            && r.alerts == s.alerts && r.records == s.records && r.events == s.events
            && r.incidents == if k == |s.incidents| then s.incidents + [NewIncident(service, |found|, now)]
                              else s.incidents[k := s.incidents[k].(
                                     severity := DeriveSeverity(|AnomaliesOf(r.anomalies, k)|), updatedAt := now)]
  {
  }

  lemma TargetOfService(c: Config, s: Store, service: string, now: Time)
    ensures var k := Target(c, s, service, now); k < |s.incidents| ==> s.incidents[k].service == service
  {
  }

  lemma AbsorbedLinked(c: Config, s: Store, service: string, found: seq<Anomaly>, now: Time)
    requires AllLinked(s) && forall a :: a in found ==> a.service == service
    ensures AllLinked(Absorbed(c, s, service, found, now))
  {
    var k, r := Target(c, s, service, now), Absorbed(c, s, service, found, now);
    AbsorbedRows(c, s, service, found, now);
    AbsorbedIncidents(c, s, service, found, now);
    TargetOfService(c, s, service, now);
    hide Absorbed, Target;
    forall i | 0 <= i < |r.anomalies| ensures RowLinked(r, r.anomalies[i]) {
      if i < |s.anomalies| { assert RowLinked(s, s.anomalies[i]); }
      else { assert found[i - |s.anomalies|] in found; }
    }
  }

  lemma AbsorbedUnique(c: Config, s: Store, service: string, found: seq<Anomaly>, now: Time)
    requires KeysUnique(s) && KeysDistinct(found) && forall a :: a in found ==> KeyOf(a) !in Keys(s.anomalies)
    ensures KeysUnique(Absorbed(c, s, service, found, now))
  {
    var r, n := Absorbed(c, s, service, found, now), |s.anomalies|;
    AbsorbedRows(c, s, service, found, now);
    forall i, j | 0 <= i < j < |r.anomalies|
      ensures KeyOf(r.anomalies[i].anomaly) != KeyOf(r.anomalies[j].anomaly)
    {
      if i < n <= j {
        assert KeyOf(s.anomalies[i].anomaly) in Keys(s.anomalies);
        assert found[j - n] in found;
      }
    }
  }

  lemma AbsorbedSeverities(c: Config, s: Store, service: string, found: seq<Anomaly>, now: Time)
    requires AllLinked(s) && SeveritiesDerived(s) && found != []
    ensures SeveritiesDerived(Absorbed(c, s, service, found, now))
  {
    var k, r := Target(c, s, service, now), Absorbed(c, s, service, found, now);
    AbsorbedIncidents(c, s, service, found, now);
    NoneYet(s);
    hide Absorbed, Target, DeriveSeverity, AnomaliesOf, AllLinked;
    forall j: nat | j < |r.incidents|
      ensures |AnomaliesOf(r.anomalies, j)| > 0 &&
              r.incidents[j].severity == DeriveSeverity(|AnomaliesOf(r.anomalies, j)|)
    {
      AbsorbedCounts(c, s, service, found, now, j);
    }
  }

  lemma NoneYet(s: Store)
    requires AllLinked(s)
    ensures AnomaliesOf(s.anomalies, |s.incidents|) == []
  {
    forall i | 0 <= i < |s.anomalies| ensures s.anomalies[i].incident != Some(|s.incidents|) {
      assert RowLinked(s, s.anomalies[i]);
    }
    NoneOf(s.anomalies, |s.incidents|);
  }

  // ----- The model's log -----

  lemma {:induction false} CallsOfAppend(a: seq<Record>, b: seq<Record>, k: nat)
    ensures CallsOf(a + b, k) == CallsOf(a, k) + CallsOf(b, k)
  {
    if b == [] { assert a + b == a; }
    else {
      CallsOfAppend(a, b[..|b| - 1], k);
      assert (a + b)[..|a + b| - 1] == a + b[..|b| - 1];
    }
  }

  lemma {:induction false} CallsOfLogged(calls: seq<Call>, k: nat, j: nat)
    ensures CallsOf(Logged(k, calls), j) == if j == k then calls else []
  {
    if calls != [] {
      var n := |calls| - 1;
      CallsOfLogged(calls[..n], k, j);
      assert Logged(k, calls)[..n] == Logged(k, calls[..n]);
      assert calls[..n] + [calls[n]] == calls;
    }
  }

  lemma TriagedCalls(env: Env, s: Store, k: nat, j: nat)
    requires k < |s.incidents| && s.incidents[k].report.None?
    ensures var t := RunTriage(env, s.incidents[k], AnomaliesOf(s.anomalies, k), |s.records|);
            CallsOf(TriagedAt(env, s, k).records, j) == CallsOf(s.records, j) + if j == k then t.calls else []
  {
    hide RunTriage;
    var t := RunTriage(env, s.incidents[k], AnomaliesOf(s.anomalies, k), |s.records|);
    CallsOfAppend(s.records, Logged(k, t.calls), j);
    CallsOfLogged(t.calls, k, j);
  }

  /** Triage changes one report and the log. */
  lemma TriagedShape(env: Env, s: Store, k: nat)
    requires k < |s.incidents|
    ensures var r := TriagedAt(env, s, k);
            && r.anomalies == s.anomalies && r.alerts == s.alerts && r.events == s.events
            && |r.incidents| == |s.incidents| && r.incidents[k].report.Some?
            && r.incidents == s.incidents[k := s.incidents[k].(report := r.incidents[k].report)]
            && (s.incidents[k].report.Some? ==> r == s)
  {
    hide RunTriage;
  }

  lemma LoggedStep(s: Store, r: Store, k: nat, calls: seq<Call>)
    requires TriageLogged(s) && k < |s.incidents| == |r.incidents|
    requires Agents(calls) == FourAgents() && r.incidents[k].report.Some?
    requires forall j: nat :: j < |s.incidents| && j != k ==> r.incidents[j].report == s.incidents[j].report
    requires forall j: nat :: CallsOf(r.records, j) == if j == k then calls else CallsOf(s.records, j)
    ensures TriageLogged(r)
  {
    hide CallsOf, Agents, FourAgents;
  }

  lemma NothingLoggedYet(s: Store, k: nat)
    requires TriageLogged(s) && k < |s.incidents| && s.incidents[k].report.None?
    ensures CallsOf(s.records, k) == []
  {
    assert |Agents(CallsOf(s.records, k))| == 0;
  }

  lemma TriagedLogged(env: Env, s: Store, k: nat)
    requires k < |s.incidents| && TriageLogged(s)
    ensures TriageLogged(TriagedAt(env, s, k))
  {
    hide *;
    TriagedShape(env, s, k);
    if s.incidents[k].report.None? {
      var r := TriagedAt(env, s, k);
      var calls := RunTriage(env, s.incidents[k], AnomaliesOf(s.anomalies, k), |s.records|).calls;
      FourCalls(env, s.incidents[k], AnomaliesOf(s.anomalies, k), |s.records|);
      NothingLoggedYet(s, k);
      forall j: nat ensures CallsOf(r.records, j) == if j == k then calls else CallsOf(s.records, j) {
        TriagedCalls(env, s, k, j);
      }
      LoggedStep(s, r, k, calls);
    }
  }

  // ----- Alerts -----

  lemma {:induction false} FiredShape(c: Config, alerts: seq<Alert>, k: nat, now: Time, channels: seq<string>)
    ensures forall a :: a in Fired(c, alerts, k, now, channels) ==>
              && a.incident == k && a.createdAt == now && a.channel in channels
              && a.dedupKey == DedupKey(k, a.channel)
              && !ExistsSince(alerts, a.dedupKey, now - c.rateLimit)
    ensures forall channel :: channel in channels && !ExistsSince(alerts, DedupKey(k, channel), now - c.rateLimit)
              ==> Alert(k, channel, DedupKey(k, channel), now) in Fired(c, alerts, k, now, channels)
  {
    if channels != [] {
      var init, last := channels[..|channels| - 1], channels[|channels| - 1];
      FiredShape(c, alerts, k, now, init);
      assert channels == init + [last];
    }
  }

  ghost predicate ChannelsDistinct(alerts: seq<Alert>) {
    forall i, j :: 0 <= i < j < |alerts| ==> alerts[i].channel != alerts[j].channel
  }

  lemma {:induction false} FiredDistinct(c: Config, alerts: seq<Alert>, k: nat, now: Time, channels: seq<string>)
    requires Distinct(channels)
    ensures ChannelsDistinct(Fired(c, alerts, k, now, channels))
  {
    if channels != [] {
      var init, last := channels[..|channels| - 1], channels[|channels| - 1];
      FiredDistinct(c, alerts, k, now, init);
      FiredShape(c, alerts, k, now, init);
      assert last !in init;
      var before := Fired(c, alerts, k, now, init);
      forall i | 0 <= i < |before| ensures before[i].channel != last { assert before[i] in before; }
    }
  }

  lemma {:induction false} ColonSplits(a: string, x: string, b: string, y: string)
    requires a + ":" + x == b + ":" + y && ':' !in a && ':' !in b
    ensures a == b && x == y
  {
    var s := a + ":" + x;
    assert s[0] == (if a == [] then ':' else a[0]) && s[0] == (if b == [] then ':' else b[0]);
    assert a == [] <==> b == [];
    assert s[1..] == (if a == [] then x else a[1..] + ":" + x);
    assert s[1..] == (if b == [] then y else b[1..] + ":" + y);
    if a != [] {
      ColonSplits(a[1..], x, b[1..], y);
    }
  }

  /** A dedup key determines its incident and its channel. */
  lemma DedupKeyInjective(j: nat, x: string, k: nat, y: string)
    requires DedupKey(j, x) == DedupKey(k, y)
    ensures j == k && x == y
  {
    ColonSplits(Decimal(j), x, Decimal(k), y);
    DecimalInjective(j, k);
  }

  lemma FiredIn(c: Config, alerts: seq<Alert>, k: nat, now: Time, channels: seq<string>, i: nat)
    requires i < |Fired(c, alerts, k, now, channels)|
    ensures var a := Fired(c, alerts, k, now, channels)[i];
            && a.incident == k && a.createdAt == now && a.dedupKey == DedupKey(k, a.channel)
            && !ExistsSince(alerts, a.dedupKey, now - c.rateLimit)
  {
    FiredShape(c, alerts, k, now, channels);
    assert Fired(c, alerts, k, now, channels)[i] in Fired(c, alerts, k, now, channels);
  }

  /** With distinct channel names a call keeps the spacing, whatever the clock says. */
  lemma RaisedSpaced(c: Config, s: Store, k: nat, now: Time)
    requires Distinct(c.channels) && Spaced(s.alerts, c.rateLimit)
    ensures Spaced(Raised(c, s, k, now).alerts, c.rateLimit)
  {
    hide Fired, ExistsSince;
    var fired, n := Fired(c, s.alerts, k, now, c.channels), |s.alerts|;
    var all := s.alerts + fired;
    FiredDistinct(c, s.alerts, k, now, c.channels);
    forall i, j | 0 <= i < j < |all| && all[i].dedupKey == all[j].dedupKey
      ensures all[i].createdAt + c.rateLimit < all[j].createdAt
    {
      if j >= n {
        FiredIn(c, s.alerts, k, now, c.channels, j - n);
        if i >= n {
          FiredIn(c, s.alerts, k, now, c.channels, i - n);
          DedupKeyInjective(k, all[i].channel, k, all[j].channel);
        } else {
          NotSince(s.alerts, all[j].dedupKey, now - c.rateLimit, i);
        }
      }
    }
  }

  lemma NotSince(alerts: seq<Alert>, key: string, since: Time, i: nat)
    requires !ExistsSince(alerts, key, since) && i < |alerts| && alerts[i].dedupKey == key
    ensures alerts[i].createdAt < since
  {
  }

  /** The check does not see the alerts of its own call, so a channel named twice fires twice. */
  lemma RepeatedChannel(c: Config)
    requires !Distinct(c.channels)
    ensures !Spaced(Fired(c, [], 0, 0, c.channels), c.rateLimit)
  {
    var fired := Fired(c, [], 0, 0, c.channels);
    hide Fired, DedupKey;
    AllFire(c, c.channels);
    var i, j :| 0 <= i < j < |c.channels| && c.channels[i] == c.channels[j];
    assert fired[i].dedupKey == fired[j].dedupKey && fired[i].createdAt == fired[j].createdAt;
  }

  lemma {:induction false} AllFire(c: Config, channels: seq<string>)
    ensures var fired := Fired(c, [], 0, 0, channels);
            && |fired| == |channels|
            && forall i :: 0 <= i < |channels| ==> fired[i] == Alert(0, channels[i], DedupKey(0, channels[i]), 0)
  {
    if channels != [] { AllFire(c, channels[..|channels| - 1]); }
  }

  /** After a call every channel has an alert for the incident no older than the rate limit. */
  lemma EveryChannelAlerted(c: Config, s: Store, k: nat, now: Time, channel: string)
    requires channel in c.channels
    ensures ExistsSince(Raised(c, s, k, now).alerts, DedupKey(k, channel), now - c.rateLimit)
  {
    hide Fired, DedupKey;
    var key, fired := DedupKey(k, channel), Fired(c, s.alerts, k, now, c.channels);
    FiredShape(c, s.alerts, k, now, c.channels);
    if ExistsSince(s.alerts, key, now - c.rateLimit) {
      var i :| 0 <= i < |s.alerts| && s.alerts[i].dedupKey == key && s.alerts[i].createdAt >= now - c.rateLimit;
      assert (s.alerts + fired)[i] == s.alerts[i];
    } else {
      var i :| 0 <= i < |fired| && fired[i] == Alert(k, channel, key, now);
      assert (s.alerts + fired)[|s.alerts| + i] == fired[i];
    }
  }

  /** The times of the alerts with one key inside [from, from + span], in row order. */
  function TimesWithin(alerts: seq<Alert>, key: string, from: Time, span: nat): seq<Time> {
    if alerts == [] then []
    else
      var a := alerts[|alerts| - 1];
      TimesWithin(alerts[..|alerts| - 1], key, from, span)
      + (if a.dedupKey == key && from <= a.createdAt <= from + span then [a.createdAt] else [])
  }

  /** The last of these times, as far after `from` as the spacing of its predecessors demands. */
  ghost predicate Spread(alerts: seq<Alert>, key: string, from: Time, ts: seq<Time>, gap: nat) {
    ts != [] ==>
      && (|ts| - 1) * gap <= ts[|ts| - 1] - from
      && exists i :: 0 <= i < |alerts| && alerts[i].dedupKey == key && alerts[i].createdAt == ts[|ts| - 1]
  }

  lemma SpreadStep(alerts: seq<Alert>, a: Alert, from: Time, ts: seq<Time>, gap: nat)
    requires Spread(alerts, a.dedupKey, from, ts, gap) && gap > 0 && Spaced(alerts + [a], gap - 1) &&
             from <= a.createdAt
    ensures Spread(alerts + [a], a.dedupKey, from, ts + [a.createdAt], gap)
  {
    var all := alerts + [a];
    assert all[|alerts|] == a;
    if ts != [] {
      var i :| 0 <= i < |alerts| && alerts[i].dedupKey == a.dedupKey && alerts[i].createdAt == ts[|ts| - 1];
      assert all[i] == alerts[i];
      assert all[i].createdAt + (gap - 1) < all[|alerts|].createdAt;
      assert |ts| * gap == (|ts| - 1) * gap + gap;
    }
  }

  lemma {:induction false} TimesWithinSpread(alerts: seq<Alert>, key: string, from: Time, span: nat, rateLimit: nat)
    requires Spaced(alerts, rateLimit)
    ensures var ts := TimesWithin(alerts, key, from, span);
            && Spread(alerts, key, from, ts, rateLimit + 1)
            && (ts != [] ==> ts[|ts| - 1] <= from + span)
  {
    if alerts != [] {
      var init, a := alerts[..|alerts| - 1], alerts[|alerts| - 1];
      assert alerts == init + [a];
      TimesWithinSpread(init, key, from, span, rateLimit);
      var before := TimesWithin(init, key, from, span);
      if a.dedupKey == key && from <= a.createdAt <= from + span {
        SpreadStep(init, a, from, before, rateLimit + 1);
      } else {
        SpreadKept(init, a, key, from, before, rateLimit + 1);
      }
    }
  }

  lemma SpreadKept(alerts: seq<Alert>, a: Alert, key: string, from: Time, ts: seq<Time>, gap: nat)
    requires Spread(alerts, key, from, ts, gap)
    ensures Spread(alerts + [a], key, from, ts, gap)
  {
    if ts != [] {
      var i :| 0 <= i < |alerts| && alerts[i].dedupKey == key && alerts[i].createdAt == ts[|ts| - 1];
      assert (alerts + [a])[i] == alerts[i];
    }
  }

  /** In any span of time a channel carries at most span / (R + 1) + 1 alerts for an incident. */
  lemma AlertsPerSpan(alerts: seq<Alert>, key: string, from: Time, span: nat, rateLimit: nat)
    requires Spaced(alerts, rateLimit)
    ensures (|TimesWithin(alerts, key, from, span)| - 1) * (rateLimit + 1) <= span
  {
    TimesWithinSpread(alerts, key, from, span, rateLimit);
    if TimesWithin(alerts, key, from, span) == [] { assert (0 - 1) * (rateLimit + 1) == -(rateLimit + 1); }
  }

  // ----- Steps -----

  lemma RaisedConsistent(c: Config, s: Store, k: nat, now: Time)
    requires Consistent(s) && k < |s.incidents|
    ensures Consistent(Raised(c, s, k, now))
  {
    hide Fired, DedupKey, AlertsKeyed;
    RaisedKeyed(c, s, k, now);
    LinksKept(s, Raised(c, s, k, now));
  }

  lemma RaisedKeyed(c: Config, s: Store, k: nat, now: Time)
    requires AlertsKeyed(s) && k < |s.incidents|
    ensures AlertsKeyed(Raised(c, s, k, now))
  {
    hide Fired, DedupKey;
    var r := Raised(c, s, k, now);
    forall i | 0 <= i < |r.alerts|
      ensures r.alerts[i].incident < |r.incidents| &&
              r.alerts[i].dedupKey == DedupKey(r.alerts[i].incident, r.alerts[i].channel)
    {
      if i >= |s.alerts| { FiredIn(c, s.alerts, k, now, c.channels, i - |s.alerts|); }
    }
  }

  /** The incidents only grew or changed in other fields than the service. */
  ghost predicate SameServices(s: Store, r: Store) {
    && |s.incidents| <= |r.incidents|
    && forall k: nat :: k < |s.incidents| ==> r.incidents[k].service == s.incidents[k].service
  }

  lemma LinksKept(s: Store, r: Store)
    requires AllLinked(s) && r.anomalies == s.anomalies && SameServices(s, r)
    ensures AllLinked(r)
  {
    forall i | 0 <= i < |r.anomalies| ensures RowLinked(r, r.anomalies[i]) {
      assert RowLinked(s, s.anomalies[i]);
    }
  }

  lemma RowsKept(s: Store, r: Store)
    requires r.anomalies == s.anomalies && KeysUnique(s) && SeveritiesDerived(s)
    requires |r.incidents| == |s.incidents|
    requires forall k: nat :: k < |s.incidents| ==> r.incidents[k].severity == s.incidents[k].severity
    ensures KeysUnique(r) && SeveritiesDerived(r)
  {
    hide AnomaliesOf, KeyOf, DeriveSeverity;
  }

  lemma AlertsKept(s: Store, r: Store)
    requires AlertsKeyed(s) && r.alerts == s.alerts && |s.incidents| <= |r.incidents|
    ensures AlertsKeyed(r)
  {
    hide DedupKey;
  }

  lemma TriagedConsistent(env: Env, s: Store, k: nat)
    requires Consistent(s) && k < |s.incidents|
    ensures Consistent(TriagedAt(env, s, k))
  {
    hide TriagedAt, TriageLogged, AllLinked, AlertsKeyed, KeysUnique, SeveritiesDerived;
    var r := TriagedAt(env, s, k);
    TriagedLogged(env, s, k);
    TriagedShape(env, s, k);
    LinksKept(s, r);
    RowsKept(s, r);
    AlertsKept(s, r);
  }

  lemma AbsorbedLogged(c: Config, s: Store, service: string, found: seq<Anomaly>, now: Time)
    requires TriageLogged(s)
    ensures TriageLogged(Absorbed(c, s, service, found, now))
  {
    hide Absorbed, CallsOf, Target, DeriveSeverity, AnomaliesOf;
    AbsorbedIncidents(c, s, service, found, now);
    assert Agents([]) == [];
  }

  lemma AbsorbedConsistent(c: Config, s: Store, service: string, found: seq<Anomaly>, now: Time)
    requires Consistent(s) && found != [] && KeysDistinct(found)
    requires forall a :: a in found ==> a.service == service && KeyOf(a) !in Keys(s.anomalies)
    ensures Consistent(Absorbed(c, s, service, found, now))
  {
    AbsorbedLinked(c, s, service, found, now);
    AbsorbedUnique(c, s, service, found, now);
    AbsorbedSeverities(c, s, service, found, now);
    AbsorbedLogged(c, s, service, found, now);
    AbsorbedIncidents(c, s, service, found, now);
    hide Absorbed, Target, AllLinked, KeysUnique, SeveritiesDerived, TriageLogged, AlertsKeyed;
    AlertsKept(s, Absorbed(c, s, service, found, now));
  }

  /** A run for one service keeps the tables consistent. */
  lemma ProcessedConsistent(env: Env, s: Store, service: string, now: Time)
    requires env.config.Valid() && Consistent(s)
    ensures Consistent(Processed(env, s, service, now))
  {
    hide Consistent, Found, Absorbed, TriagedAt, Raised, Keys, KeyOf, KeysDistinct;
    var c, found := env.config, Detected(env.config, s, service, now);
    FoundShape(c, Keys(s.anomalies), s.events, service, now);
    if found != [] {
      var k := Target(c, s, service, now);
      AbsorbedConsistent(c, s, service, found, now);
      var a := Absorbed(c, s, service, found, now);
      TriagedConsistent(env, a, k);
      TriagedShape(env, a, k);
      RaisedConsistent(c, TriagedAt(env, a, k), k, now);
    }
  }

  lemma UpdatedConsistent(s: Store, k: nat, status: Status, now: Time)
    requires Consistent(s)
    ensures Consistent(Updated(s, k, status, now))
  {
    hide AllLinked, AlertsKeyed, KeysUnique, SeveritiesDerived;
    var r := Updated(s, k, status, now);
    LinksKept(s, r);
    RowsKept(s, r);
    AlertsKept(s, r);
  }

  // ----- Triage up to a call that raises -----

  /** The calls that a triage logs before one raises. */
  function CallsUntil(env: Env, s: Store, k: nat, stop: nat): (calls: seq<Call>)
    requires k < |s.incidents|
    ensures |calls| == if stop < 4 then stop else 4
  {
    hide RunTriage;
    RunTriage(env, s.incidents[k], AnomaliesOf(s.anomalies, k), |s.records|).calls[..if stop < 4 then stop else 4]
  }

  /** r is s with more logged calls of incident k, and a report on it if it has one in r. */
  ghost predicate TriagedFurther(s: Store, r: Store, k: nat, calls: seq<Call>) {
    && r.anomalies == s.anomalies && r.alerts == s.alerts && r.events == s.events
    && r.records == s.records + Logged(k, calls)
    && k < |s.incidents| == |r.incidents|
    && r.incidents == s.incidents[k := s.incidents[k].(report := r.incidents[k].report)]
  }

  /** A triage, interrupted or not, only adds calls of its incident and at most its report. */
  lemma UntilShape(env: Env, s: Store, k: nat, stop: nat)
    requires k < |s.incidents| && s.incidents[k].report.None?
    ensures TriagedFurther(s, TriagedUntil(env, s, k, stop), k, CallsUntil(env, s, k, stop))
    ensures TriagedUntil(env, s, k, stop).incidents[k].report.Some? <==> stop >= 4
  {
    hide RunTriage, AnomaliesOf;
    var t := RunTriage(env, s.incidents[k], AnomaliesOf(s.anomalies, k), |s.records|);
    assert t.calls[..4] == t.calls;
  }

  lemma AlreadyTriaged(env: Env, s: Store, k: nat, stop: nat)
    requires k < |s.incidents| && s.incidents[k].report.Some?
    ensures TriagedUntil(env, s, k, stop) == s
  {
  }

  lemma FurtherCalls(s: Store, r: Store, k: nat, calls: seq<Call>, j: nat)
    requires TriagedFurther(s, r, k, calls)
    ensures CallsOf(r.records, j) == if j == k then CallsOf(s.records, k) + calls else CallsOf(s.records, j)
  {
    hide CallsOf, Logged;
    CallsOfAppend(s.records, Logged(k, calls), j);
    CallsOfLogged(calls, k, j);
    assert CallsOf(s.records, j) + [] == CallsOf(s.records, j);
  }

  lemma NeverInterrupted(env: Env, s: Store, service: string, now: Time, stop: nat)
    requires env.config.Valid() && stop >= 4
    ensures ProcessedUntil(env, s, service, now, stop) == Processed(env, s, service, now)
  {
    hide Found, Absorbed, Target, TriagedAt, Raised, RunTriage;
  }

  // ----- What correlation needs of the tables -----

  /** Every row and every call belongs to an incident in the table. */
  ghost predicate Grounded(s: Store) {
    AllLinked(s) && AlertsKeyed(s) && CallsGrounded(s)
  }

  ghost predicate CallsGrounded(s: Store) {
    forall k: nat :: k >= |s.incidents| ==> CallsOf(s.records, k) == []
  }

  lemma ConsistentGrounded(s: Store)
    requires Consistent(s)
    ensures Grounded(s)
  {
  }

  lemma AbsorbedGrounded(c: Config, s: Store, service: string, found: seq<Anomaly>, now: Time)
    requires Grounded(s) && forall a :: a in found ==> a.service == service
    ensures Grounded(Absorbed(c, s, service, found, now))
  {
    hide Absorbed, Target, AllLinked, AlertsKeyed, CallsOf, DeriveSeverity, AnomaliesOf;
    AbsorbedLinked(c, s, service, found, now);
    AbsorbedIncidents(c, s, service, found, now);
    AlertsKept(s, Absorbed(c, s, service, found, now));
  }

  lemma FurtherGrounded(s: Store, r: Store, k: nat, calls: seq<Call>)
    requires Grounded(s) && TriagedFurther(s, r, k, calls)
    ensures Grounded(r)
  {
    hide AllLinked, AlertsKeyed, CallsOf, Logged;
    LinksKept(s, r);
    AlertsKept(s, r);
    forall j: nat | j >= |r.incidents| ensures CallsOf(r.records, j) == [] { FurtherCalls(s, r, k, calls, j); }
  }

  lemma UntilGrounded(env: Env, s: Store, k: nat, stop: nat)
    requires Grounded(s) && k < |s.incidents|
    ensures Grounded(TriagedUntil(env, s, k, stop)) && |TriagedUntil(env, s, k, stop).incidents| == |s.incidents|
  {
    hide Grounded, TriagedUntil, CallsUntil;
    if s.incidents[k].report.Some? { AlreadyTriaged(env, s, k, stop); }
    else {
      UntilShape(env, s, k, stop);
      FurtherGrounded(s, TriagedUntil(env, s, k, stop), k, CallsUntil(env, s, k, stop));
    }
  }

  lemma RaisedGrounded(c: Config, s: Store, k: nat, now: Time)
    requires Grounded(s) && k < |s.incidents|
    ensures Grounded(Raised(c, s, k, now))
  {
    hide Fired, AllLinked, AlertsKeyed, CallsOf;
    RaisedKeyed(c, s, k, now);
    LinksKept(s, Raised(c, s, k, now));
  }

  lemma DetectedHere(c: Config, s: Store, service: string, now: Time)
    requires c.Valid()
    ensures forall a :: a in Detected(c, s, service, now) ==> a.service == service
  {
    hide Found, Keys, KeysDistinct, KeyOf;
    FoundShape(c, Keys(s.anomalies), s.events, service, now);
  }

  lemma ProcessedUntilGrounded(env: Env, s: Store, service: string, now: Time, stop: nat)
    requires env.config.Valid() && Grounded(s)
    ensures Grounded(ProcessedUntil(env, s, service, now, stop))
  {
    hide Grounded, Found, Absorbed, TriagedUntil, Raised, Target;
    var c, found := env.config, Detected(env.config, s, service, now);
    if found != [] {
      var k, a := Target(c, s, service, now), Absorbed(c, s, service, found, now);
      DetectedHere(c, s, service, now);
      AbsorbedGrounded(c, s, service, found, now);
      UntilGrounded(env, a, k, stop);
      RaisedGrounded(c, TriagedUntil(env, a, k, stop), k, now);
    }
  }
}
