/**
 A pass over several services ends at the first one whose run is interrupted, so the order of the services
 decides which of them are processed at all (backend/app/api/routes/events.py hands over an unordered set
 and swallows the exception). Two orders agree exactly when they reach the same services with findings.
 */
module InterruptedPasses {
  import opened Wrappers
  import opened Records
  import opened Detection
  import opened Triage
  import opened Pipeline
  import opened Sorting
  import opened Invariants
  import opened Cases
  import opened Runs
  import opened Bursts
  import opened Interruptions

  /** Whether a call raises, and its answer, depend on the prompt alone. */
  ghost predicate StatelessClient(client: Client) {
    && (forall m, n, p :: client.classify(m, p) == client.classify(n, p))
    && (forall m, n, p :: client.analyze(m, p) == client.analyze(n, p))
    && (forall m, n, p :: client.recommend(m, p) == client.recommend(n, p))
    && (forall m, n, p :: client.summarize(m, p) == client.summarize(n, p))
  }

  lemma StatelessAnswers(env: Env, client: Client)
    requires StatelessClient(client)
    ensures Stateless(Serving(env, client).llm)
  {
  }

  lemma StatelessStop(client: Client, calls: seq<Call>, m: nat, n: nat)
    requires StatelessClient(client) && |calls| == 4
    ensures StopAt(client, calls, m) == StopAt(client, calls, n)
  {
  }

  // ----- The case file of a service -----

  /** Which call of a triage of the case raises. */
  function CaseStop(env: Env, client: Client, k: Case): nat {
    hide RunTriage;
    StopAt(client, RunTriage(Serving(env, client), k.incident, k.anomalies, 0).calls, 0)
  }

  function CasesStop(env: Env, client: Client, events: seq<Event>, cases: seq<Case>, service: string, now: Time): nat
    requires env.config.Valid()
  {
    hide Found, CaseKeys, Grown, CaseTarget, CaseStop;
    var found := Found(env.config, CaseKeys(cases), events, service, now);
    CaseStop(env, client, Grown(env.config, cases, service, found, now)[CaseTarget(env.config, cases, now)])
  }

  function ProcessCasesBy(env: Env, client: Client, events: seq<Event>, cases: seq<Case>, service: string,
                          now: Time): seq<Case>
    requires env.config.Valid()
  {
    hide ProcessCasesUntil, CasesStop;
    ProcessCasesUntil(Serving(env, client), events, cases, service, now, CasesStop(env, client, events, cases,
      service, now))
  }

  predicate CasesInterruptedBy(env: Env, client: Client, events: seq<Event>, cases: seq<Case>, service: string,
                               now: Time)
    requires env.config.Valid()
  {
    hide CasesInterrupt, CasesStop;
    CasesInterrupt(env, events, cases, service, now, CasesStop(env, client, events, cases, service, now))
  }

  lemma TriageStopOfCase(env: Env, client: Client, s: Store, k: nat)
    requires k < |s.incidents| && StatelessClient(client)
    ensures TriageStop(env, client, s, k) == CaseStop(env, client, CaseAt(s, k))
  {
    hide RunTriage, AnomaliesOf, AlertsOf, CallsOf, StopAt, StatelessClient, Stateless;
    StatelessAnswers(env, client);
    var e := Serving(env, client);
    TriageIsStateless(e, s.incidents[k], AnomaliesOf(s.anomalies, k), |s.records|, 0);
    StatelessStop(client, RunTriage(e, s.incidents[k], AnomaliesOf(s.anomalies, k), 0).calls, |s.records|, 0);
  }

  lemma CaseInPlace(s: Store, service: string, x: nat, k: nat)
    requires x < |IncidentsOf(s.incidents, service)| && IncidentsOf(s.incidents, service)[x] == k
    ensures x < |CasesOf(s, service)| && k < |s.incidents| && CasesOf(s, service)[x] == CaseAt(s, k)
  {
    hide IncidentsOf, CaseAt;
  }

  /** Where a run raises depends on the service's case file alone. */
  lemma StopRefines(env: Env, client: Client, s: Store, service: string, now: Time)
    requires env.config.Valid() && Grounded(s) && StatelessClient(client)
    ensures RunStop(env, client, s, service, now) ==
            CasesStop(env, client, EventsOf(s.events, service), CasesOf(s, service), service, now)
  {
    hide Found, Absorbed, Target, CasesOf, CaseAt, Grown, CaseTarget, CaseKeys, EventsOf, IncidentsOf, TriageStop,
      CaseStop;
    var c, found := env.config, Detected(env.config, s, service, now);
    LinkedIfGrounded(s);
    hide Grounded, StatelessClient;
    var k, a, x := Target(c, s, service, now), Absorbed(c, s, service, found, now), CaseTarget(c, CasesOf(s,
      service), now);
    SameFindings(env, s, service, now);
    AbsorbedCases(c, s, service, found, now);
    AbsorbedTarget(c, s, service, found, now);
    CaseInPlace(a, service, x, k);
    TriageStopOfCase(env, client, a, k);
  }

  /** Processing a service with a client is processing its case file with it. */
  lemma ProcessByRefines(env: Env, client: Client, s: Store, service: string, now: Time)
    requires env.config.Valid() && Grounded(s) && StatelessClient(client)
    ensures CasesOf(ProcessedBy(env, client, s, service, now), service) ==
            ProcessCasesBy(env, client, EventsOf(s.events, service), CasesOf(s, service), service, now)
    ensures forall other :: other != service ==>
              CasesOf(ProcessedBy(env, client, s, service, now), other) == CasesOf(s, other)
    ensures ProcessedBy(env, client, s, service, now).events == s.events
    ensures Grounded(ProcessedBy(env, client, s, service, now))
    ensures InterruptedBy(env, client, s, service, now) <==>
            CasesInterruptedBy(env, client, EventsOf(s.events, service), CasesOf(s, service), service, now)
  {
    hide ProcessedUntil, ProcessCasesUntil, CasesOf, EventsOf, Grounded, StatelessClient, Stateless, RunStop, CasesStop;
    hide Interrupts, CasesInterrupt;
    var e, stop := Serving(env, client), RunStop(env, client, s, service, now);
    StatelessAnswers(env, client);
    StopRefines(env, client, s, service, now);
    ProcessUntilRefines(e, s, service, now, stop);
    ProcessedUntilGrounded(e, s, service, now, stop);
    InterruptRefines(env, s, service, now, stop);
  }

  // ----- The pass -----

  /** Some service of the list would be interrupted on these tables. */
  predicate Halts(env: Env, client: Client, s: Store, services: seq<string>, now: Time)
    requires env.config.Valid()
  {
    exists i :: 0 <= i < |services| && InterruptedBy(env, client, s, services[i], now)
  }

  /** The services up to the first one that would be interrupted, this one included. */
  function Reached(env: Env, client: Client, s: Store, services: seq<string>, now: Time): (reached: seq<string>)
    requires env.config.Valid()
    ensures forall x :: x in reached ==> x in services
  {
    hide InterruptedBy;
    if services == [] then []
    else
      var init := services[..|services| - 1];
      assert services == init + [services[|services| - 1]];
      if Halts(env, client, s, init, now) then Reached(env, client, s, init, now) else services
  }

  lemma HaltsStep(env: Env, client: Client, s: Store, init: seq<string>, last: string, now: Time)
    requires env.config.Valid()
    ensures Halts(env, client, s, init + [last], now) <==>
            Halts(env, client, s, init, now) || InterruptedBy(env, client, s, last, now)
  {
    hide InterruptedBy;
    var all := init + [last];
    assert all[|init|] == last;
    if i :| 0 <= i < |init| && InterruptedBy(env, client, s, init[i], now) { assert all[i] == init[i]; }
    if i :| 0 <= i < |all| && InterruptedBy(env, client, s, all[i], now) {
      if i < |init| { assert init[i] == all[i]; }
    }
  }

  lemma ReachedStep(env: Env, client: Client, s: Store, init: seq<string>, last: string, now: Time)
    requires env.config.Valid()
    ensures Reached(env, client, s, init + [last], now) ==
            if Halts(env, client, s, init, now) then Reached(env, client, s, init, now) else init + [last]
  {
    hide Halts;
    assert (init + [last])[..|init|] == init;
  }

  /** What a pass does to a service depends on that service, and on whether the pass reaches it. */
  lemma {:induction false} PassCases(env: Env, client: Client, s: Store, services: seq<string>, now: Time,
                                     service: string)
    requires env.config.Valid() && Grounded(s) && StatelessClient(client) && Distinct(services)
    ensures var p := ProcessedAllBy(env, client, s, services, now);
            && Grounded(p.store) && p.store.events == s.events
            && (p.interrupted <==> Halts(env, client, s, services, now))
            && CasesOf(p.store, service) ==
               if service in Reached(env, client, s, services, now)
               then ProcessCasesBy(env, client, EventsOf(s.events, service), CasesOf(s, service), service, now)
               else CasesOf(s, service)
  {
    hide Grounded, StatelessClient, ProcessedBy, InterruptedBy, Touched, CasesOf, EventsOf, ProcessCasesBy,
      CasesInterruptedBy;
    hide Reached, Halts;
    if services == [] {
      NothingReached(env, client, s, now);
    } else {
      var init, last := services[..|services| - 1], services[|services| - 1];
      var m := ProcessedAllBy(env, client, s, init, now);
      assert services == init + [last] && last !in init;
      PassCases(env, client, s, init, now, service);
      PassCases(env, client, s, init, now, last);
      HaltsStep(env, client, s, init, last, now);
      ReachedStep(env, client, s, init, last, now);
      if !m.interrupted {
        AllReached(env, client, s, init, now);
        ProcessByRefines(env, client, m.store, last, now);
        ProcessByRefines(env, client, s, last, now);
      }
    }
  }

  lemma NothingReached(env: Env, client: Client, s: Store, now: Time)
    requires env.config.Valid()
    ensures Reached(env, client, s, [], now) == [] && !Halts(env, client, s, [], now)
  {
    hide InterruptedBy;
  }

  lemma AllReached(env: Env, client: Client, s: Store, services: seq<string>, now: Time)
    requires env.config.Valid() && !Halts(env, client, s, services, now)
    ensures Reached(env, client, s, services, now) == services
  {
    hide Reached, Halts, InterruptedBy;
    if services == [] { NothingReached(env, client, s, now); }
    else {
      var init, last := services[..|services| - 1], services[|services| - 1];
      assert services == init + [last];
      HaltsStep(env, client, s, init, last, now);
      ReachedStep(env, client, s, init, last, now);
    }
  }

  // ----- When two orders agree -----

  /** A run that finds something changes the case file: the linked anomalies grow. */
  lemma FindingsShow(env: Env, client: Client, events: seq<Event>, cases: seq<Case>, service: string, now: Time)
    requires env.config.Valid()
    ensures ProcessCasesBy(env, client, events, cases, service, now) == cases <==>
            Found(env.config, CaseKeys(cases), events, service, now) == []
  {
    hide Found, CaseKeys, CaseTarget, RunTriage, CasesStop, FiredOn, DeriveSeverity, CasesInterrupt;
    var found, x := Found(env.config, CaseKeys(cases), events, service, now), CaseTarget(env.config, cases, now);
    if found != [] {
      var r := ProcessCasesBy(env, client, events, cases, service, now);
      if x < |cases| { assert |r[x].anomalies| == |cases[x].anomalies| + |found|; }
    }
  }

  /** The two orders leave service x alike. */
  ghost predicate AgreeOn(env: Env, client: Client, s: Store, order1: seq<string>, order2: seq<string>, now: Time,
                          x: string)
    requires env.config.Valid()
  {
    CasesOf(ProcessedAllBy(env, client, s, order1, now).store, x) ==
    CasesOf(ProcessedAllBy(env, client, s, order2, now).store, x)
  }

  /** Both orders reach service x or none does, which is to be known of services with findings only. */
  predicate ReachAlike(env: Env, client: Client, s: Store, order1: seq<string>, order2: seq<string>, now: Time,
                       x: string)
    requires env.config.Valid()
  {
    hide Detected;
    Detected(env.config, s, x, now) != [] ==>
      (x in Reached(env, client, s, order1, now) <==> x in Reached(env, client, s, order2, now))
  }

  /**
   Two orders of the same services leave every service alike if and only if they reach the same ones among
   those with findings. The latter is about the tables before the pass.
   */
  lemma OrdersAgreeIff(env: Env, client: Client, s: Store, order1: seq<string>, order2: seq<string>, now: Time)
    requires env.config.Valid() && Grounded(s) && StatelessClient(client)
    requires Distinct(order1) && Distinct(order2) && forall x :: x in order1 <==> x in order2
    ensures (forall x :: AgreeOn(env, client, s, order1, order2, now, x)) <==>
            forall x :: x in order1 ==> ReachAlike(env, client, s, order1, order2, now, x)
  {
    hide *;
    forall x
      ensures AgreeOn(env, client, s, order1, order2, now, x) <==>
              (x in order1 ==> ReachAlike(env, client, s, order1, order2, now, x))
    {
      AgreesOnIff(env, client, s, order1, order2, now, x);
    }
  }

  lemma AgreesOnIff(env: Env, client: Client, s: Store, order1: seq<string>, order2: seq<string>, now: Time, x: string)
    requires env.config.Valid() && Grounded(s) && StatelessClient(client)
    requires Distinct(order1) && Distinct(order2) && forall y :: y in order1 <==> y in order2
    ensures AgreeOn(env, client, s, order1, order2, now, x) <==>
            (x in order1 ==> ReachAlike(env, client, s, order1, order2, now, x))
  {
    hide StatelessClient, CasesOf, EventsOf, ProcessCasesBy, Found, CaseKeys, Reached, ProcessedAllBy, Distinct,
      Grounded, Halts;
    LinkedIfGrounded(s);
    PassCases(env, client, s, order1, now, x);
    PassCases(env, client, s, order2, now, x);
    SameFindings(env, s, x, now);
    FindingsShow(env, client, EventsOf(s.events, x), CasesOf(s, x), x, now);
  }

  /** Without interruption every service is reached, so all orders agree. */
  lemma QuietOrdersAgree(env: Env, client: Client, s: Store, order1: seq<string>, order2: seq<string>, now: Time,
                         service: string)
    requires env.config.Valid() && Grounded(s) && StatelessClient(client)
    requires Distinct(order1) && Distinct(order2) && forall x :: x in order1 <==> x in order2
    requires forall x :: x in order1 ==> !InterruptedBy(env, client, s, x, now)
    ensures AgreeOn(env, client, s, order1, order2, now, service)
  {
    hide InterruptedBy, ProcessedAllBy, CasesOf, Grounded, StatelessClient, Detected, Reached;
    AllReached(env, client, s, order1, now);
    AllReached(env, client, s, order2, now);
    AgreesOnIff(env, client, s, order1, order2, now, service);
  }

  // ----- Orders that differ -----

  lemma {:induction false} EventsOfAppend(a: seq<Event>, b: seq<Event>, service: string)
    ensures EventsOf(a + b, service) == EventsOf(a, service) + EventsOf(b, service)
  {
    if b == [] { assert a + b == a; }
    else {
      EventsOfAppend(a, b[..|b| - 1], service);
      assert (a + b)[..|a + b| - 1] == a + b[..|b| - 1];
    }
  }

  lemma {:induction false} EventsOfOthers(a: seq<Event>, service: string)
    requires forall i :: 0 <= i < |a| ==> a[i].service != service
    ensures EventsOf(a, service) == []
  {
    if a != [] { EventsOfOthers(a[..|a| - 1], service); }
  }

  lemma BurstOfOther(c: Config, service: string, other: string)
    requires service != other
    ensures EventsOf(Burst(c, other, 0), service) == []
  {
    hide EventsOf;
    var b := Burst(c, other, 0);
    assert forall i :: 0 <= i < |b| ==> b[i] in b;
    EventsOfOthers(b, service);
  }

  /** Two bursts at once. */
  function TwoBursts(c: Config, a: string, b: string): Store {
    EmptyStore().(events := Burst(c, a, 0) + Burst(c, b, 0))
  }

  /** Beside a burst of another service, a burst is found as if it were alone. */
  lemma BurstBesideOther(c: Config, a: string, b: string, service: string)
    requires c.Valid() && a != b && (service == a || service == b)
    ensures Detected(c, TwoBursts(c, a, b), service, 0) != []
  {
    hide Found, Burst, EventsOf;
    var alone := Burst(c, service, 0);
    EventsOfAppend(Burst(c, a, 0), Burst(c, b, 0), service);
    BurstOfOther(c, service, if service == a then b else a);
    assert EventsOf(alone, service) + [] == [] + EventsOf(alone, service) == EventsOf(alone, service);
    FoundDepends(c, {}, {}, TwoBursts(c, a, b).events, alone, service, 0);
    BurstIsFound(c, {}, [], service, 0);
    assert [] + alone == alone;
    NoKeys();
  }

  lemma DownInterrupts(env: Env, s: Store, service: string)
    requires env.config.Valid() && s.incidents == [] && Detected(env.config, s, service, 0) != []
    ensures InterruptedBy(env, DownClient(), s, service, 0)
  {
    hide Found, Absorbed, Target, RunStop, DownClient;
    TheirStops(env, s, service, 0);
    AbsorbedIncidents(env.config, s, service, Detected(env.config, s, service, 0), 0);
    TargetLive(env.config, s, service, 0);
  }

  lemma ReachesFirst(env: Env, client: Client, s: Store, a: string, b: string)
    requires env.config.Valid() && InterruptedBy(env, client, s, a, 0)
    ensures Reached(env, client, s, [a, b], 0) == [a]
  {
    hide Reached, Halts, InterruptedBy;
    assert [a] + [b] == [a, b] && [] + [a] == [a];
    NothingReached(env, client, s, 0);
    HaltsStep(env, client, s, [], a, 0);
    ReachedStep(env, client, s, [], a, 0);
    ReachedStep(env, client, s, [a], b, 0);
  }

  /** Always possible: with the client down, two services with bursts fare differently in the two orders. */
  lemma OrdersDiffer(env: Env, a: string, b: string)
    requires env.config.Valid() && a != b
    ensures var s := TwoBursts(env.config, a, b);
            !AgreeOn(env, DownClient(), s, [a, b], [b, a], 0, b)
  {
    hide *;
    var s := TwoBursts(env.config, a, b);
    DownIsStateless();
    TwoBurstsGrounded(env.config, a, b);
    BothDistinct(a, b);
    NoIncidents(env.config, a, b);
    BurstBesideOther(env.config, a, b, a);
    BurstBesideOther(env.config, a, b, b);
    DownInterrupts(env, s, a);
    DownInterrupts(env, s, b);
    ReachesFirst(env, DownClient(), s, a, b);
    ReachesFirst(env, DownClient(), s, b, a);
    ReachedApart(env, DownClient(), s, [a, b], [b, a], a, b);
    AgreesOnIff(env, DownClient(), s, [a, b], [b, a], 0, b);
  }

  lemma ReachedApart(env: Env, client: Client, s: Store, order1: seq<string>, order2: seq<string>, a: string,
                     b: string)
    requires env.config.Valid() && a != b && Detected(env.config, s, b, 0) != []
    requires Reached(env, client, s, order1, 0) == [a] && Reached(env, client, s, order2, 0) == [b]
    ensures !ReachAlike(env, client, s, order1, order2, 0, b)
  {
    hide Detected, Reached;
    assert [b][0] == b;
  }

  lemma DownIsStateless()
    ensures StatelessClient(DownClient())
  {
  }

  lemma TwoBurstsGrounded(c: Config, a: string, b: string)
    ensures Grounded(TwoBursts(c, a, b))
  {
    hide Burst;
  }

  lemma BothDistinct(a: string, b: string)
    requires a != b
    ensures Distinct([a, b]) && Distinct([b, a]) && forall x :: x in [a, b] <==> x in [b, a]
    ensures b in [a, b]
  {
  }

  lemma NoIncidents(c: Config, a: string, b: string)
    ensures TwoBursts(c, a, b).incidents == []
  {
  }
}
