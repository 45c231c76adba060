/**
 The steps of the pipeline as functions on the tables: correlation, alerts and the whole run for
 one service (backend/app/correlation, incidents, alerts, pipeline and repositories).
 */
module Pipeline {
  import opened Wrappers
  import opened Records
  import opened Detection
  import opened Triage
  import opened Text

  function EmptyStore(): Store {
    Store([], [], [], [], [])
  }

  // ----- Incidents of a service -----

  /** The positions of the incidents of a service, oldest first. */
  function IncidentsOf(incidents: seq<Incident>, service: string): (ids: seq<nat>)
    ensures forall i :: 0 <= i < |ids| ==> ids[i] < |incidents| && incidents[ids[i]].service == service
    ensures forall k: nat :: k < |incidents| && incidents[k].service == service ==> k in ids
    ensures forall i, j :: 0 <= i < j < |ids| ==> ids[i] < ids[j]
  {
    if incidents == [] then []
    else
      var n := |incidents| - 1;
      IncidentsOf(incidents[..n], service) + (if incidents[n].service == service then [n] else [])
  }

  /** Unresolved and touched since then. */
  predicate Live(i: Incident, since: Time) {
    i.status != Resolved && i.updatedAt >= since
  }

  /** The live incident touched last; of equals the oldest row. */
  function Latest(list: seq<Incident>, since: Time): (r: Option<nat>)
    ensures r.None? ==> forall k :: 0 <= k < |list| ==> !Live(list[k], since)
    ensures r.Some? ==> r.value < |list| && Live(list[r.value], since)
    ensures r.Some? ==> forall k :: 0 <= k < |list| && Live(list[k], since) ==>
            list[k].updatedAt <= list[r.value].updatedAt
  {
    if list == [] then None
    else
      var n := |list| - 1;
      var before := Latest(list[..n], since);
      if Live(list[n], since) && (before.None? || list[before.value].updatedAt < list[n].updatedAt)
        then Some(n) else before
  }

  function Pick(incidents: seq<Incident>, ids: seq<nat>): (list: seq<Incident>)
    requires forall i :: 0 <= i < |ids| ==> ids[i] < |incidents|
    ensures |list| == |ids| && forall i :: 0 <= i < |ids| ==> list[i] == incidents[ids[i]]
  {
    seq(|ids|, i requires 0 <= i < |ids| => incidents[ids[i]])
  }

  function FindOpen(incidents: seq<Incident>, service: string, since: Time): (k: Option<nat>)
    ensures k.Some? ==> k.value < |incidents| && incidents[k.value].service == service
    ensures k.Some? ==> Live(incidents[k.value], since)
    ensures k.None? ==> forall i :: 0 <= i < |incidents| && incidents[i].service == service ==>
            !Live(incidents[i], since)
  {
    var ids := IncidentsOf(incidents, service);
    match Latest(Pick(incidents, ids), since)
    case None =>
      assert forall i: nat :: i < |incidents| && incidents[i].service == service ==> i in ids;
      None
    case Some(i) => Some(ids[i])
  }

  // ----- Correlation -----

  /** The anomalies linked to incident k, in row order. */
  function AnomaliesOf(rows: seq<Row>, k: nat): seq<Anomaly> {
    if rows == [] then []
    else
      var r := rows[|rows| - 1];
      AnomaliesOf(rows[..|rows| - 1], k) + (if r.incident == Some(k) then [r.anomaly] else [])
  }

  function Unlinked(found: seq<Anomaly>): (rows: seq<Row>)
    ensures |rows| == |found| && forall i :: 0 <= i < |found| ==> rows[i] == Row(found[i], None)
  {
    seq(|found|, i requires 0 <= i < |found| => Row(found[i], None))
  }

  /** All rows from position `from` on are linked to incident k. */
  function Linked(rows: seq<Row>, from: nat, k: nat): (linked: seq<Row>)
    ensures |linked| == |rows|
    ensures forall i :: 0 <= i < |rows| ==> linked[i] == if i < from then rows[i] else rows[i].(incident := Some(k))
  {
    seq(|rows|, i requires 0 <= i < |rows| => if i < from then rows[i] else rows[i].(incident := Some(k)))
  }

  function DeriveSeverity(count: int): (s: Severity)
    ensures s.Rank() == if count >= 4 then 3 else if count <= 1 then 0 else count - 1
  {
    if count >= 4 then Severe else if count == 3 then High else if count == 2 then Medium else Low
  }

  function NewIncident(service: string, count: nat, now: Time): Incident {
    Incident(service, DeriveSeverity(count), Open, now, now, None, None)
  }

  /** The incident that takes the new anomalies in: the open one within the window, or the next row. */
  function Target(c: Config, s: Store, service: string, now: Time): (k: nat)
    ensures k <= |s.incidents|
  {
    match FindOpen(s.incidents, service, now - c.correlationWindow)
    case None => |s.incidents|
    case Some(k) => k
  }

  /** The rows from position `from` on join an incident of the service. */
  function Correlated(c: Config, s: Store, service: string, from: nat, now: Time): (r: Store)
    requires from <= |s.anomalies|
    ensures Target(c, s, service, now) < |r.incidents|
  {
    var k := Target(c, s, service, now);
    var rows := Linked(s.anomalies, from, k);
    if k == |s.incidents|
    then s.(anomalies := rows, incidents := s.incidents + [NewIncident(service, |rows| - from, now)])
    else s.(anomalies := rows,
            incidents := s.incidents[k := s.incidents[k].(
                           severity := DeriveSeverity(|AnomaliesOf(rows, k)|), updatedAt := now)])
  }

  // ----- Triage -----

  function Logged(k: nat, calls: seq<Call>): (records: seq<Record>)
    ensures |records| == |calls| && forall i :: 0 <= i < |calls| ==> records[i] == Record(k, calls[i])
  {
    seq(|calls|, i requires 0 <= i < |calls| => Record(k, calls[i]))
  }

  /** Triage runs once per incident: only while it has no category. */
  function TriagedAt(env: Env, s: Store, k: nat): Store
    requires k < |s.incidents|
  {
    if s.incidents[k].report.Some? then s
    else
      var t := RunTriage(env, s.incidents[k], AnomaliesOf(s.anomalies, k), |s.records|);
      s.(incidents := s.incidents[k := s.incidents[k].(report := Some(t.report))],
         records := s.records + Logged(k, t.calls))
  }

  // ----- Alerts -----

  function DedupKey(k: nat, channel: string): string {
    Decimal(k) + ":" + channel
  }

  /** `exists_since`: an alert with this key no older than since. */
  predicate ExistsSince(alerts: seq<Alert>, key: string, since: Time) {
    exists i :: 0 <= i < |alerts| && alerts[i].dedupKey == key && alerts[i].createdAt >= since
  }

  /** The alerts of one call: the check of a channel sees only the committed rows. */
  function Fired(c: Config, alerts: seq<Alert>, k: nat, now: Time, channels: seq<string>): seq<Alert> {
    if channels == [] then []
    else
      var channel := channels[|channels| - 1];
      Fired(c, alerts, k, now, channels[..|channels| - 1])
      + (if ExistsSince(alerts, DedupKey(k, channel), now - c.rateLimit) then []
         else [Alert(k, channel, DedupKey(k, channel), now)])
  }

  function Raised(c: Config, s: Store, k: nat, now: Time): Store {
    s.(alerts := s.alerts + Fired(c, s.alerts, k, now, c.channels))
  }

  // ----- One service -----

  function Keys(rows: seq<Row>): set<Key> {
    set i | 0 <= i < |rows| :: KeyOf(rows[i].anomaly)
  }

  function Detected(c: Config, s: Store, service: string, now: Time): seq<Anomaly>
    requires c.Valid()
  {
    Found(c, Keys(s.anomalies), s.events, service, now)
  }

  /** Detected anomalies joined to their incident, before triage and alerts. */
  function Absorbed(c: Config, s: Store, service: string, found: seq<Anomaly>, now: Time): (r: Store)
    ensures Target(c, s, service, now) < |r.incidents|
  {
    Correlated(c, s.(anomalies := s.anomalies + Unlinked(found)), service, |s.anomalies|, now)
  }

  /** detect, correlate, triage once, alert. */
  function Processed(env: Env, s: Store, service: string, now: Time): Store
    requires env.config.Valid()
  {
    var found := Detected(env.config, s, service, now);
    if found == [] then s
    else
      var k := Target(env.config, s, service, now);
      Raised(env.config, TriagedAt(env, Absorbed(env.config, s, service, found, now), k), k, now)
  }

  /** The incident a run returns. */
  function Touched(env: Env, s: Store, service: string, now: Time): Option<nat>
    requires env.config.Valid()
  {
    if Detected(env.config, s, service, now) == [] then None else Some(Target(env.config, s, service, now))
  }

  function ProcessedAll(env: Env, s: Store, services: seq<string>, now: Time): Store
    requires env.config.Valid()
  {
    hide Processed;
    if services == [] then s
    else Processed(env, ProcessedAll(env, s, services[..|services| - 1], now), services[|services| - 1], now)
  }

  /** The incidents a run over several services returns, in their order. */
  function TouchedAll(env: Env, s: Store, services: seq<string>, now: Time): seq<nat>
    requires env.config.Valid()
  {
    hide Processed, Touched;
    if services == [] then []
    else
      var init, last := services[..|services| - 1], services[|services| - 1];
      var k := Touched(env, ProcessedAll(env, s, init, now), last, now);
      TouchedAll(env, s, init, now) + (if k.Some? then [k.value] else [])
  }

  // ----- Interruptions -----

  /** What an exception that no agent handles leaves behind. */
  datatype Unhandled = Unhandled

  /**
   A triage whose call number `stop` raises such an exception: the calls before it are logged. From 4 on
   none raises.
   */
  function TriagedUntil(env: Env, s: Store, k: nat, stop: nat): Store
    requires k < |s.incidents|
  {
    hide RunTriage;
    if s.incidents[k].report.Some? || stop >= 4 then TriagedAt(env, s, k)
    else
      var t := RunTriage(env, s.incidents[k], AnomaliesOf(s.anomalies, k), |s.records|);
      s.(records := s.records + Logged(k, t.calls[..stop]))
  }

  /** The run for a service reaches the call that raises. */
  predicate Interrupts(env: Env, s: Store, service: string, now: Time, stop: nat)
    requires env.config.Valid()
  {
    var found := Detected(env.config, s, service, now);
    && found != [] && stop < 4
    && Absorbed(env.config, s, service, found, now).incidents[Target(env.config, s, service, now)].report.None?
  }

  function ProcessedUntil(env: Env, s: Store, service: string, now: Time, stop: nat): Store
    requires env.config.Valid()
  {
    hide TriagedUntil, Absorbed, Target, Found;
    var found := Detected(env.config, s, service, now);
    if found == [] then s
    else
      var k, a := Target(env.config, s, service, now), Absorbed(env.config, s, service, found, now);
      var t := TriagedUntil(env, a, k, stop);
      if Interrupts(env, s, service, now, stop) then t else Raised(env.config, t, k, now)
  }

  // ----- Interruptions by a client -----

  /** Which call of a triage of incident k raises; the prompts are those its earlier answers lead to. */
  function TriageStop(env: Env, client: Client, s: Store, k: nat): (stop: nat)
    requires k < |s.incidents|
    ensures stop <= 4
  {
    hide RunTriage;
    StopAt(client, RunTriage(Serving(env, client), s.incidents[k], AnomaliesOf(s.anomalies, k), |s.records|).calls,
      |s.records|)
  }

  function TriagedBy(env: Env, client: Client, s: Store, k: nat): Store
    requires k < |s.incidents|
  {
    TriagedUntil(Serving(env, client), s, k, TriageStop(env, client, s, k))
  }

  /** Which call of the run for a service raises, if the run makes calls. */
  function RunStop(env: Env, client: Client, s: Store, service: string, now: Time): (stop: nat)
    requires env.config.Valid()
    ensures stop <= 4
  {
    hide Found, TriageStop;
    TriageStop(env, client, Absorbed(env.config, s, service, Detected(env.config, s, service, now), now),
               Target(env.config, s, service, now))
  }

  predicate InterruptedBy(env: Env, client: Client, s: Store, service: string, now: Time)
    requires env.config.Valid()
  {
    Interrupts(env, s, service, now, RunStop(env, client, s, service, now))
  }

  function ProcessedBy(env: Env, client: Client, s: Store, service: string, now: Time): Store
    requires env.config.Valid()
  {
    ProcessedUntil(Serving(env, client), s, service, now, RunStop(env, client, s, service, now))
  }

  datatype Progress = Progress(store: Store, touched: seq<nat>, interrupted: bool)

  /** The services in order; an interruption ends the pass. */
  function ProcessedAllBy(env: Env, client: Client, s: Store, services: seq<string>, now: Time): Progress
    requires env.config.Valid()
  {
    hide ProcessedBy, Touched, InterruptedBy;
    if services == [] then Progress(s, [], false)
    else
      var before, last := ProcessedAllBy(env, client, s, services[..|services| - 1], now), services[|services| - 1];
      if before.interrupted then before
      else
        var k := Touched(env, before.store, last, now);
        Progress(ProcessedBy(env, client, before.store, last, now),
                 before.touched + (if k.Some? then [k.value] else []),
                 InterruptedBy(env, client, before.store, last, now))
  }

  // ----- Status changes -----

  /** A PATCH of an incident; an unknown one changes nothing. */
  function Updated(s: Store, k: nat, status: Status, now: Time): Store {
    if k >= |s.incidents| then s
    else
      var i := s.incidents[k];
      s.(incidents := s.incidents[k := i.(status := status, updatedAt := now,
                                          resolvedAt := if status == Resolved then Some(now) else i.resolvedAt)])
  }
}
