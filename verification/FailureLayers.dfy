/**
 The cascade of a failing root service, layer by layer
 (scripts/synth/scenarios/dependency_failure.py).
 */
module FailureLayers {
  import opened Graph
  import opened Sorting

  const FAILURE_START: int := 5
  const LAYER_DELAY_SECONDS: int := 10

  function Listed(dependents: map<string, seq<string>>, x: string): seq<string> {
    if x in dependents then dependents[x] else []
  }

  /** The lists of dependents invert g. */
  ghost predicate Inverts(dependents: map<string, seq<string>>, g: Adjacency) {
    forall x, s :: s in Listed(dependents, x) <==> DependsOn(g, s, x)
  }

  method AddDependent(found: map<string, seq<string>>, service: string, deps: seq<string>)
    returns (more: map<string, seq<string>>)
    requires forall x :: x in found ==> Distinct(found[x])
    ensures forall x :: x in more ==> Distinct(more[x])
    ensures forall x, s :: s in Listed(more, x) <==> s in Listed(found, x) || (s == service && x in deps)
  {
    more := found;
    for i := 0 to |deps|
      invariant forall x :: x in more ==> Distinct(more[x])
      invariant forall x, s ::
        s in Listed(more, x) <==> s in Listed(found, x) || (s == service && x in deps[..i])
    {
      var dep := deps[i];
      assert deps[..i + 1] == deps[..i] + [dep];
      var known := Listed(more, dep);
      ghost var before := more;
      more := more[dep := if service in known then known else known + [service]];
      forall x, s ensures s in Listed(more, x) <==> s in Listed(before, x) || (s == service && x == dep) {}
    }
    assert deps[..|deps|] == deps;
  }

  method Reverse(g: Adjacency) returns (dependents: map<string, seq<string>>)
    ensures Inverts(dependents, g)
    ensures forall x :: x in dependents ==> Alphabetical(dependents[x])
  {
    var found: map<string, seq<string>> := map x | x in g :: [];
    var todo := g.Keys;
    while todo != {}
      invariant todo <= g.Keys
      invariant forall x :: x in found ==> Distinct(found[x])
      invariant forall x, s :: s in Listed(found, x) <==> s !in todo && DependsOn(g, s, x)
    {
      var service :| service in todo;
      found := AddDependent(found, service, g[service]);
      todo := todo - {service};
    }
    dependents := map x | x in found :: Sort(StringLe, found[x]);
    forall x | x in found
      ensures Alphabetical(dependents[x]) && forall s :: s in dependents[x] <==> s in found[x]
    {
      SortedStrings(found[x]);
    }
  }

  /** Exactly the services at distance n from the root. */
  ghost predicate AtDistance(g: Adjacency, root: string, list: seq<string>, n: nat) {
    forall x :: x in list <==> Distance(g, root, x, n)
  }

  ghost predicate Within(g: Adjacency, root: string, x: string, n: nat) {
    exists e: nat :: e <= n && Hops(g, root, x, e)
  }

  // The services one hop beyond distance n are the dependents of layer n not yet seen.
  lemma NextLayer(g: Adjacency, root: string, x: string, n: nat)
    ensures Distance(g, root, x, n + 1) <==>
            !Within(g, root, x, n) && exists m :: Distance(g, root, m, n) && DependsOn(g, x, m)
  {
    if Distance(g, root, x, n + 1) {
      var m :| Hops(g, root, m, n) && DependsOn(g, x, m);
      forall e: nat | e < n ensures !Hops(g, root, m, e) {
        if Hops(g, root, m, e) { assert Hops(g, root, x, e + 1); }
      }
      assert Distance(g, root, m, n) && DependsOn(g, x, m);
    }
  }

  lemma WithinNext(g: Adjacency, root: string, x: string, n: nat)
    ensures Within(g, root, x, n + 1) <==> Within(g, root, x, n) || Distance(g, root, x, n + 1)
  {
    if Within(g, root, x, n + 1) && !Within(g, root, x, n) {
      var e: nat :| e <= n + 1 && Hops(g, root, x, e);
      assert e == n + 1;
    }
  }

  ghost predicate NoneAt(g: Adjacency, root: string, n: nat) {
    forall y :: !Distance(g, root, y, n)
  }

  // When no service is at distance n + 1, none is farther away.
  lemma {:induction false} NothingBeyond(g: Adjacency, root: string, x: string, n: nat, k: nat)
    requires NoneAt(g, root, n + 1)
    requires Hops(g, root, x, k)
    ensures Within(g, root, x, n)
    decreases k
  {
    if k > n {
      var m :| Hops(g, root, m, k - 1) && DependsOn(g, x, m);
      NothingBeyond(g, root, m, n, k - 1);
      var e: nat :| e <= n && Hops(g, root, m, e);
      assert Hops(g, root, x, e + 1);
      WithinNext(g, root, x, n);
      assert Within(g, root, x, n + 1);
    }
  }

  /** The dependents of the frontier that were not seen before, and the services seen so far. */
  method Expand(frontier: seq<string>, dependents: map<string, seq<string>>, before: set<string>, ghost g: Adjacency)
    returns (next: seq<string>, seen: set<string>)
    requires Inverts(dependents, g)
    ensures Distinct(next)
    ensures forall x :: x in next <==> (x !in before && exists m :: m in frontier && DependsOn(g, x, m))
    ensures seen == before + set x | x in next
  {
    next, seen := [], before;
    for i := 0 to |frontier|
      invariant Distinct(next) && seen == before + set x | x in next
      invariant forall x :: x in next <==> (x !in before && exists m :: m in frontier[..i] && DependsOn(g, x, m))
    {
      var node := frontier[i];
      var list := Listed(dependents, node);
      assert frontier[..i + 1] == frontier[..i] + [node];
      for k := 0 to |list|
        invariant Distinct(next) && seen == before + set x | x in next
        invariant forall x :: x in next <==>
          (x !in before && (x in list[..k] || exists m :: m in frontier[..i] && DependsOn(g, x, m)))
      {
        var dependent := list[k];
        assert list[..k + 1] == list[..k] + [dependent];
        assert dependent in list && DependsOn(g, dependent, node);
        if dependent !in seen {
          seen := seen + {dependent};
          next := next + [dependent];
        }
      }
      assert list[..|list|] == list;
    }
    assert frontier[..|frontier|] == frontier;
  }

  /** seen holds the services within distance n of the root. */
  ghost predicate SeenWithin(g: Adjacency, root: string, seen: set<string>, n: nat) {
    forall x :: x in seen <==> Within(g, root, x, n)
  }

  ghost predicate AllLayers(g: Adjacency, root: string, layers: seq<seq<string>>) {
    forall n :: 0 <= n < |layers| ==> layers[n] != [] && Alphabetical(layers[n]) && AtDistance(g, root, layers[n], n)
  }

  lemma ExpandIsNextLayer(g: Adjacency, root: string, n: nat, frontier: seq<string>, before: set<string>,
                          next: seq<string>, seen: set<string>)
    requires AtDistance(g, root, frontier, n)
    requires SeenWithin(g, root, before, n)
    requires forall x :: x in next <==> (x !in before && exists m :: m in frontier && DependsOn(g, x, m))
    requires seen == before + set x | x in next
    ensures AtDistance(g, root, next, n + 1)
    ensures SeenWithin(g, root, seen, n + 1)
    ensures next == [] ==> NoneAt(g, root, n + 1)
    ensures seen <= before + Nodes(g)
  {
    forall x ensures x in next <==> Distance(g, root, x, n + 1) { NextLayer(g, root, x, n); }
    if next == [] {
      var k := n + 1;
      forall y ensures !Distance(g, root, y, k) { assert y !in next; }
    }
    forall x ensures x in seen <==> Within(g, root, x, n + 1) { WithinNext(g, root, x, n); }
  }

  method FailureLayers(root: string, dependents: map<string, seq<string>>, ghost g: Adjacency)
    returns (layers: seq<seq<string>>)
    requires Inverts(dependents, g)
    ensures |layers| > 0 && layers[0] == [root] && AllLayers(g, root, layers)
    ensures NoneAt(g, root, |layers|)
  {
    layers := [[root]];
    var seen := {root};
    var frontier := [root];
    ghost var universe := Nodes(g) + {root};
    RootLayer(g, root);
    hide *;
    while frontier != []
      invariant |layers| > 0 && layers[0] == [root] && AllLayers(g, root, layers)
      invariant seen <= universe && SeenWithin(g, root, seen, |layers| - 1)
      invariant frontier != [] ==> AtDistance(g, root, frontier, |layers| - 1)
      invariant frontier == [] ==> NoneAt(g, root, |layers|)
      decreases universe - seen, |frontier|
    {
      ghost var n, before := |layers| - 1, seen;
      var next: seq<string>;
      next, seen := Expand(frontier, dependents, seen, g);
      ExpandIsNextLayer(g, root, n, frontier, before, next, seen);
      if next != [] {
        AddLayer(g, root, layers, next);
        layers := layers + [Sort(StringLe, next)];
        assert next[0] in next && next[0] in seen && next[0] !in before;
      } else {
        assert seen == before;
      }
      frontier := next;
    }
  }

  lemma AddLayer(g: Adjacency, root: string, layers: seq<seq<string>>, next: seq<string>)
    requires AllLayers(g, root, layers) && next != [] && Distinct(next)
    requires AtDistance(g, root, next, |layers|)
    ensures AllLayers(g, root, layers + [Sort(StringLe, next)])
  {
    hide Distance, Sort;
    SortedStrings(next);
    assert next[0] in Sort(StringLe, next);
  }

  lemma RootLayer(g: Adjacency, root: string)
    ensures AllLayers(g, root, [[root]]) && SeenWithin(g, root, {root}, 0)
    ensures AtDistance(g, root, [root], 0)
  {
    assert Hops(g, root, root, 0);
    forall x ensures (Distance(g, root, x, 0) <==> x == root) && (Within(g, root, x, 0) <==> x == root) {}
  }

  // ----- What the layers say -----

  ghost function Members(layers: seq<seq<string>>): set<string> {
    set n, x | 0 <= n < |layers| && x in layers[n] :: x
  }

  /** Both implementations of "who is affected" agree, on cyclic graphs too. */
  lemma LayersAreBlastRadius(g: Adjacency, root: string, layers: seq<seq<string>>)
    requires |layers| > 0 && AllLayers(g, root, layers) && NoneAt(g, root, |layers|)
    ensures Members(layers) - {root} == Blast(g, root) - {root}
  {
    forall x | x != root ensures x in Members(layers) <==> x in Blast(g, root) {
      BlastIsAffected(g, root, x);
      if x in Members(layers) {
        var n :| 0 <= n < |layers| && x in layers[n];
        assert AtDistance(g, root, layers[n], n) && Distance(g, root, x, n);
        assert n > 0 && Hops(g, root, x, n);
      }
      if Affects(g, root, x) {
        var k: nat :| k > 0 && Hops(g, root, x, k);
        NothingBeyond(g, root, x, |layers| - 1, k);
        var n := Nearest(g, root, x, |layers| - 1);
        assert AtDistance(g, root, layers[n], n) && x in layers[n];
      }
    }
  }

  lemma {:induction false} Nearest(g: Adjacency, root: string, x: string, n: nat) returns (d: nat)
    requires Within(g, root, x, n)
    ensures d <= n && Distance(g, root, x, d)
  {
    if n > 0 && Within(g, root, x, n - 1) { d := Nearest(g, root, x, n - 1); }
    else { d := n; }
  }

  /** No service is in two layers. */
  lemma LayersDisjoint(g: Adjacency, root: string, layers: seq<seq<string>>, m: nat, n: nat, x: string)
    requires AllLayers(g, root, layers) && m < |layers| && n < |layers|
    requires x in layers[m] && x in layers[n]
    ensures m == n
  {
    assert AtDistance(g, root, layers[m], m) && AtDistance(g, root, layers[n], n);
    assert Distance(g, root, x, m) && Distance(g, root, x, n);
  }

  /** The guard of the generator: a layer may fail from this second on. */
  predicate MayFail(depth: nat, second: int) {
    second >= FAILURE_START + depth * LAYER_DELAY_SECONDS
  }

  /** A failing service has had a failing dependency, one layer up, for a whole layer delay. */
  lemma CascadeFollowsDependencies(g: Adjacency, root: string, layers: seq<seq<string>>, depth: nat, x: string,
                                   second: int)
    returns (cause: string)
    requires AllLayers(g, root, layers) && 0 < depth < |layers| && x in layers[depth] && MayFail(depth, second)
    ensures DependsOn(g, x, cause) && cause in layers[depth - 1] && MayFail(depth - 1, second - LAYER_DELAY_SECONDS)
  {
    assert AtDistance(g, root, layers[depth], depth) && AtDistance(g, root, layers[depth - 1], depth - 1);
    NextLayer(g, root, x, depth - 1);
    cause :| Distance(g, root, cause, depth - 1) && DependsOn(g, x, cause);
  }
}
