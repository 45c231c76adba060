/**
 Queries on the service graph (backend/app/topology/topology_engine.py) and the impact shown by
 the topology route (backend/app/api/routes/topology.py).
 */
module Topology {
  import opened Wrappers
  import opened Graph
  import opened Sorting

  class TopologyEngine {
    const adjacency: Adjacency
    var nodes: set<string>
    var dependents: map<string, set<string>>

    /** The inverse graph is complete. */
    ghost predicate Valid()
      reads this
    {
      && nodes == Nodes(adjacency)
      && dependents.Keys == nodes
      && forall x :: x in nodes ==> dependents[x] == Dependents(adjacency, x)
    }

    constructor (adjacency: Adjacency)
      ensures Valid() && this.adjacency == adjacency
    {
      this.adjacency := adjacency;
      nodes := adjacency.Keys;
      dependents := map[];
      new;
      CollectNodes();
      dependents := Inverse(adjacency, nodes);
    }

    /** Every service is entered under each of its dependencies. */
    static method Inverse(adjacency: Adjacency, nodes: set<string>) returns (inverse: map<string, set<string>>)
      requires nodes == Nodes(adjacency)
      ensures inverse.Keys == nodes
      ensures forall x :: x in nodes ==> inverse[x] == Dependents(adjacency, x)
    {
      inverse := map x | x in nodes :: {};
      var todo := adjacency.Keys;
      while todo != {}
        invariant todo <= adjacency.Keys && inverse.Keys == nodes
        invariant forall x, s :: x in nodes ==> (s in inverse[x] <==> s !in todo && DependsOn(adjacency, s, x))
      {
        var service :| service in todo;
        forall d | d in adjacency[service] ensures d in nodes { NodeOfEdge(adjacency, service, d); }
        inverse := Enter(inverse, service, adjacency[service]);
        todo := todo - {service};
      }
    }

    static method Enter(before: map<string, set<string>>, service: string, deps: seq<string>)
      returns (inverse: map<string, set<string>>)
      requires forall d :: d in deps ==> d in before
      ensures inverse.Keys == before.Keys
      ensures forall x, s :: x in before ==> (s in inverse[x] <==> s in before[x] || (s == service && x in deps))
    {
      inverse := before;
      for i := 0 to |deps|
        invariant inverse.Keys == before.Keys
        invariant forall x, s :: x in before ==>
                  (s in inverse[x] <==> s in before[x] || (s == service && x in deps[..i]))
      {
        assert deps[..i + 1] == deps[..i] + [deps[i]];
        inverse := inverse[deps[i] := inverse[deps[i]] + {service}];
      }
      assert deps[..|deps|] == deps;
    }

    method CollectNodes()
      requires nodes == adjacency.Keys
      modifies this`nodes
      ensures nodes == Nodes(adjacency)
    {
      var todo := adjacency.Keys;
      while todo != {}
        invariant todo <= adjacency.Keys
        invariant nodes == adjacency.Keys + set s, d | s in adjacency.Keys - todo && d in adjacency[s] :: d
      {
        var service :| service in todo;
        nodes := nodes + set d | d in adjacency[service];
        todo := todo - {service};
      }
    }

    /** Everything that transitively depends on the service; itself only when it lies on a cycle. */
    method BlastRadius(service: string) returns (impacted: set<string>)
      requires Valid()
      ensures impacted == Blast(adjacency, service)
    {
      impacted := {};
      if service !in nodes {
        BlastByClosure(adjacency, service, {});
        return;
      }
      var queue := [service];
      while queue != []
        invariant impacted <= nodes
        invariant forall x :: x in impacted ==> Affects(adjacency, service, x)
        invariant forall x :: x in queue ==> x == service || x in impacted
        invariant forall x, s :: (x == service || x in impacted) && x !in queue && DependsOn(adjacency, s, x)
                    ==> s in impacted
        decreases nodes - impacted, |queue|
      {
        var current := queue[|queue| - 1];
        queue := queue[..|queue| - 1];
        ghost var reached, waiting := impacted, queue;
        var todo := if current in dependents then dependents[current] else {};
        while todo != {}
          invariant todo <= Dependents(adjacency, current)
          invariant reached <= impacted <= nodes
          invariant forall x :: x in impacted ==> Affects(adjacency, service, x)
          invariant forall x :: x in queue ==> x == service || x in impacted
          invariant forall x :: x in waiting ==> x in queue
          invariant forall x :: x in impacted && x !in reached ==> x in queue
          invariant forall s :: s in Dependents(adjacency, current) && s !in todo ==> s in impacted
          invariant impacted == reached ==> queue == waiting
        {
          var dependent :| dependent in todo;
          todo := todo - {dependent};
          if dependent !in impacted {
            DirectlyAffects(adjacency, current, dependent);
            if current != service { AffectsTransitive(adjacency, service, current, dependent); }
            impacted := impacted + {dependent};
            queue := queue + [dependent];
          }
        }
        if impacted != reached { assert nodes - impacted < nodes - reached; }
      }
      BlastByClosure(adjacency, service, impacted);
    }

    /** Of the known candidates, the one with the widest blast radius; the alphabetically first of equals. */
    method RootService(services: seq<string>) returns (root: Option<string>)
      requires Valid()
      ensures root.None? <==> forall c :: c in services ==> c !in Nodes(adjacency)
      ensures root.Some? ==> Chosen(adjacency, root.value, services)
    {
      hide Blast, StringLe, Sort, Dedup, Widest;
      var candidates := Sort(StringLe, Dedup(services));
      SortedStrings(Dedup(services));
      root := None;
      var size := 0;
      for i := 0 to |candidates|
        invariant root.None? <==> forall c :: c in candidates[..i] ==> c !in nodes
        invariant root.Some? ==> root.value in candidates[..i] && root.value in nodes
        invariant root.Some? ==> size == |Blast(adjacency, root.value)|
        invariant root.Some? ==> Widest(adjacency, root.value, candidates[..i])
      {
        var c := candidates[i];
        assert candidates[..i + 1] == candidates[..i] + [c];
        if c in nodes {
          var blast := BlastRadius(c);
          if root.None? || size < |blast| {
            WidestNew(adjacency, root, candidates[..i], c);
            root, size := Some(c), |blast|;
          } else {
            WidestKept(adjacency, root.value, candidates[..i], c);
          }
        } else if root.Some? {
          WidestUnknown(adjacency, root.value, candidates[..i], c);
        }
      }
      assert candidates[..|candidates|] == candidates;
      if root.Some? { WidestSame(adjacency, root.value, candidates, services); }
    }
  }

  /** No known service of the list has a wider blast radius than r, nor an equal one before it. */
  ghost predicate Widest(g: Adjacency, r: string, services: seq<string>) {
    forall c :: c in services && c in Nodes(g) ==>
      && |Blast(g, c)| <= |Blast(g, r)|
      && (|Blast(g, c)| == |Blast(g, r)| ==> StringLe(r, c))
  }

  lemma WidestNew(g: Adjacency, r: Option<string>, before: seq<string>, c: string)
    requires r.None? ==> forall d :: d in before ==> d !in Nodes(g)
    requires r.Some? ==> Widest(g, r.value, before) && |Blast(g, r.value)| < |Blast(g, c)|
    ensures Widest(g, c, before + [c])
  {
    hide Blast, Nodes, StringLe;
    StringLeTotal(c, c);
  }

  lemma WidestKept(g: Adjacency, r: string, before: seq<string>, c: string)
    requires Widest(g, r, before) && |Blast(g, c)| <= |Blast(g, r)| && StringLe(r, c)
    ensures Widest(g, r, before + [c])
  {
    hide Blast, Nodes, StringLe;
  }

  lemma WidestUnknown(g: Adjacency, r: string, before: seq<string>, c: string)
    requires Widest(g, r, before) && c !in Nodes(g)
    ensures Widest(g, r, before + [c])
  {
    hide Blast, Nodes, StringLe;
  }

  lemma WidestSame(g: Adjacency, r: string, a: seq<string>, b: seq<string>)
    requires Widest(g, r, a) && forall c :: c in a <==> c in b
    ensures Widest(g, r, b)
  {
    hide Blast, Nodes, StringLe;
  }

  /** On any graph: a candidate that affects the chosen root has the same blast radius, and the root lies on a cycle. */
  lemma UpstreamOfRoot(g: Adjacency, r: string, services: seq<string>, c: string)
    requires Widest(g, r, services) && c in services && c in Nodes(g)
    requires r in Blast(g, c)
    ensures Blast(g, c) == Blast(g, r) && r in Blast(g, r)
  {
    BlastMonotone(g, c, r);
    if Blast(g, r) != Blast(g, c) { SubsetSmaller(Blast(g, r), Blast(g, c)); }
  }

  lemma SubsetSmaller(a: set<string>, b: set<string>)
    requires a < b
    ensures |a| < |b|
  {
    var x :| x in b && x !in a;
    assert |b| == |a| + |b - a| by { assert b == a + (b - a); }
    assert x in b - a;
  }

  /** What `RootService` returns, if it returns a service. */
  ghost predicate Chosen(g: Adjacency, r: string, services: seq<string>) {
    r in services && r in Nodes(g) && Widest(g, r, services)
  }

  /** Whatever is asked, no other known candidate affects the answer. */
  ghost predicate RootsAreUpstream(g: Adjacency) {
    forall services, r, c | Chosen(g, r, services) && c in services && c in Nodes(g) && c != r :: r !in Blast(g, c)
  }

  /** b affects a and a comes first, but both affect the same services. */
  ghost predicate MisleadingPair(g: Adjacency, a: string, b: string) {
    && a != b && a in Nodes(g) && b in Nodes(g)
    && StringLe(a, b) && a in Blast(g, b) && Blast(g, a) == Blast(g, b)
  }

  lemma PairMisleads(g: Adjacency, a: string, b: string)
    requires MisleadingPair(g, a, b)
    ensures !RootsAreUpstream(g)
  {
    hide Blast, Nodes, StringLe;
    StringLeTotal(a, a);
    assert Chosen(g, a, [a, b]) && b in [a, b];
  }

  /** Exactly the graphs without a misleading pair have upstream roots for every list of candidates. */
  lemma RootsUpstreamIff(g: Adjacency)
    ensures RootsAreUpstream(g) <==> forall a, b :: !MisleadingPair(g, a, b)
  {
    hide Blast, Nodes, StringLe;
    if RootsAreUpstream(g) {
      if a, b :| MisleadingPair(g, a, b) { PairMisleads(g, a, b); }
    } else {
      var services, r, c :| Chosen(g, r, services) && c in services && c in Nodes(g) && c != r && r in Blast(g, c);
      UpstreamOfRoot(g, r, services, c);
      assert MisleadingPair(g, r, c);
    }
  }

  ghost predicate Acyclic(g: Adjacency) {
    forall x :: !Affects(g, x, x)
  }

  /** On a misleading pair the first service lies on a cycle, so acyclic graphs have none. */
  lemma AcyclicIsUpstream(g: Adjacency)
    requires Acyclic(g)
    ensures RootsAreUpstream(g)
  {
    hide Blast, Nodes, StringLe, RootsAreUpstream;
    forall a, b ensures !MisleadingPair(g, a, b) { BlastIsAffected(g, a, a); }
    RootsUpstreamIff(g);
  }

  /** On an acyclic graph no candidate affects the chosen root. */
  lemma RootIsMostUpstream(g: Adjacency, r: string, services: seq<string>, c: string)
    requires Acyclic(g) && Widest(g, r, services) && c in services && c in Nodes(g)
    ensures r !in Blast(g, c)
  {
    hide Blast, StringLe, Nodes, Widest, RootsAreUpstream;
    AcyclicIsUpstream(g);
    if c == r { BlastIsAffected(g, r, r); } else { UpstreamHere(g, r, services, c); }
  }

  lemma UpstreamHere(g: Adjacency, r: string, services: seq<string>, c: string)
    requires RootsAreUpstream(g) && Widest(g, r, services) && c in services && c in Nodes(g) && c != r
    ensures r !in Blast(g, c)
  {
    hide StringLe, Affects;
    StringLeTotal(r, r);
    if r in Nodes(g) { assert Chosen(g, r, services + [r]) && c in services + [r]; }
  }

  /** a and b depend on each other, and a depends on z. */
  function Knot(): Adjacency {
    map["a" := ["b", "z"], "b" := ["a"]]
  }

  lemma KnotBlast(x: string)
    requires x in ["a", "z"]
    ensures Blast(Knot(), x) == {"a", "b"}
  {
    var g := Knot();
    assert DependsOn(g, "b", "a") && DependsOn(g, "a", "b") && DependsOn(g, "a", "z");
    DirectlyAffects(g, "a", "b");
    DirectlyAffects(g, "b", "a");
    DirectlyAffects(g, "z", "a");
    AffectsTransitive(g, "z", "a", "b");
    AffectsTransitive(g, "a", "b", "a");
    BlastByClosure(g, x, {"a", "b"});
  }

  /** With a cycle the choice can fail: a is chosen although z affects it and it does not affect z. */
  lemma CycleMisleadsRoot()
    ensures var g := Knot();
            && Chosen(g, "a", ["a", "z"]) && MisleadingPair(g, "a", "z")
            && "a" in Blast(g, "z") && "z" !in Blast(g, "a")
  {
    KnotBlast("a");
    KnotBlast("z");
    NodeOfEdge(Knot(), "a", "z");
    assert StringLe("a", "a") && StringLe("a", "z");
    forall c | c in ["a", "z"] ensures c == "a" || c == "z" {}
  }

  /** An incident as the topology route sees it. */
  datatype Affected = Affected(service: Option<string>, resolved: bool)

  ghost function FailingServices(incidents: seq<Affected>): set<string> {
    set i | 0 <= i < |incidents| && !incidents[i].resolved && incidents[i].service.Some? :: incidents[i].service.value
  }

  /** The services marked as impacted: those with an unresolved incident and all they affect. */
  method ImpactedServices(engine: TopologyEngine, incidents: seq<Affected>) returns (impacted: set<string>)
    requires engine.Valid()
    ensures impacted == Impact(engine.adjacency, FailingServices(incidents))
  {
    impacted := {};
    ghost var g := engine.adjacency;
    for i := 0 to |incidents|
      invariant impacted == Impact(g, FailingServices(incidents[..i]))
    {
      var incident := incidents[i];
      assert incidents[..i + 1] == incidents[..i] + [incident];
      ghost var failing := FailingServices(incidents[..i]);
      if incident.resolved || incident.service.None? {
        assert FailingServices(incidents[..i + 1]) == failing;
        continue;
      }
      var service := incident.service.value;
      var blast := engine.BlastRadius(service);
      impacted := impacted + {service} + blast;
      FailingGrows(incidents, i);
      ImpactGrows(g, failing, service);
    }
    assert incidents[..|incidents|] == incidents;
  }

  lemma FailingGrows(incidents: seq<Affected>, i: nat)
    requires i < |incidents| && !incidents[i].resolved && incidents[i].service.Some?
    ensures FailingServices(incidents[..i + 1]) == FailingServices(incidents[..i]) + {incidents[i].service.value}
  {
    forall x ensures x in FailingServices(incidents[..i + 1]) <==>
                     x in FailingServices(incidents[..i]) + {incidents[i].service.value} {
      if x in FailingServices(incidents[..i]) {
        var k :| 0 <= k < i && !incidents[..i][k].resolved && incidents[..i][k].service == Some(x);
        assert incidents[..i + 1][k] == incidents[..i][k];
      }
      if x == incidents[i].service.value { assert incidents[..i + 1][i] == incidents[i]; }
      if x in FailingServices(incidents[..i + 1]) {
        var k :| 0 <= k < i + 1 && !incidents[..i + 1][k].resolved && incidents[..i + 1][k].service == Some(x);
        if k < i { assert incidents[..i][k] == incidents[..i + 1][k]; }
      }
    }
  }

  lemma ImpactGrows(g: Adjacency, failing: set<string>, s: string)
    ensures Impact(g, failing + {s}) == Impact(g, failing) + {s} + Blast(g, s)
  {
    forall x ensures x in Impact(g, failing + {s}) <==> x in Impact(g, failing) + {s} + Blast(g, s) {
      if x in Nodes(g) && Affects(g, s, x) { assert s in failing + {s} && Affects(g, s, x); }
    }
  }
}
