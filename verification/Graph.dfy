/** Service dependency graphs: who is affected, and at what distance, when a service fails. */
module Graph {
  /** A service and the services it depends on. */
  type Adjacency = map<string, seq<string>>

  predicate DependsOn(g: Adjacency, s: string, d: string) {
    s in g && d in g[s]
  }

  function Nodes(g: Adjacency): set<string> {
    g.Keys + set s, d | s in g && d in g[s] :: d
  }

  lemma NodeOfEdge(g: Adjacency, s: string, d: string)
    requires DependsOn(g, s, d)
    ensures s in Nodes(g) && d in Nodes(g)
  {
  }

  /** The services that depend directly on x. */
  function Dependents(g: Adjacency, x: string): set<string> {
    set s | s in g && x in g[s]
  }

  /** b is reached from a by a chain of n dependents. */
  ghost predicate Hops(g: Adjacency, a: string, b: string, n: nat)
    decreases n
  {
    if n == 0 then a == b else exists m :: Hops(g, a, m, n - 1) && DependsOn(g, b, m)
  }

  /** A failure of a affects b: b depends on a, directly or through others. */
  ghost predicate Affects(g: Adjacency, a: string, b: string) {
    exists n: nat :: n > 0 && Hops(g, a, b, n)
  }

  ghost function Blast(g: Adjacency, a: string): set<string> {
    set x | x in Nodes(g) && Affects(g, a, x)
  }

  /** The shortest chain from a to b has n dependents. */
  ghost predicate Distance(g: Adjacency, a: string, b: string, n: nat) {
    Hops(g, a, b, n) && forall e: nat :: e < n ==> !Hops(g, a, b, e)
  }

  lemma BlastIsAffected(g: Adjacency, a: string, b: string)
    ensures b in Blast(g, a) <==> Affects(g, a, b)
  {
    if Affects(g, a, b) {
      var n: nat :| n > 0 && Hops(g, a, b, n);
      assert b in g;
    }
  }

  lemma {:induction false} HopsAdd(g: Adjacency, a: string, b: string, c: string, m: nat, n: nat)
    requires Hops(g, a, b, m) && Hops(g, b, c, n)
    ensures Hops(g, a, c, m + n)
    decreases n
  {
    if n > 0 {
      var x :| Hops(g, b, x, n - 1) && DependsOn(g, c, x);
      HopsAdd(g, a, b, x, m, n - 1);
    }
  }

  lemma AffectsTransitive(g: Adjacency, a: string, b: string, c: string)
    requires Affects(g, a, b) && Affects(g, b, c)
    ensures Affects(g, a, c)
  {
    var m: nat :| m > 0 && Hops(g, a, b, m);
    var n: nat :| n > 0 && Hops(g, b, c, n);
    HopsAdd(g, a, b, c, m, n);
  }

  lemma DirectlyAffects(g: Adjacency, a: string, b: string)
    requires DependsOn(g, b, a)
    ensures Affects(g, a, b)
  {
    assert Hops(g, a, a, 0);
    assert Hops(g, a, b, 1);
  }

  /** T contains every dependent of its members. */
  ghost predicate Closed(g: Adjacency, t: set<string>) {
    forall x, s :: x in t && DependsOn(g, s, x) ==> s in t
  }

  lemma {:induction false} ClosedUnderHops(g: Adjacency, t: set<string>, a: string, b: string, n: nat)
    requires Closed(g, t) && a in t && Hops(g, a, b, n)
    ensures b in t
    decreases n
  {
    if n > 0 {
      var m :| Hops(g, a, m, n - 1) && DependsOn(g, b, m);
      ClosedUnderHops(g, t, a, m, n - 1);
    }
  }

  /** The blast radius is what a closed set around a, that nothing forces to be larger, contains. */
  lemma BlastByClosure(g: Adjacency, a: string, t: set<string>)
    requires forall x :: x in t ==> Affects(g, a, x)
    requires forall s :: DependsOn(g, s, a) ==> s in t
    requires Closed(g, t)
    ensures t == Blast(g, a)
  {
    forall b ensures b in t <==> b in Blast(g, a) {
      BlastIsAffected(g, a, b);
      if Affects(g, a, b) {
        var n: nat :| n > 0 && Hops(g, a, b, n);
        assert Closed(g, t + {a});
        ClosedUnderHops(g, t + {a}, a, b, n);
        var m :| Hops(g, a, m, n - 1) && DependsOn(g, b, m);
        ClosedUnderHops(g, t + {a}, a, m, n - 1);
      }
    }
  }

  lemma BlastMonotone(g: Adjacency, a: string, b: string)
    requires b in Blast(g, a)
    ensures Blast(g, b) <= Blast(g, a)
  {
    BlastIsAffected(g, a, b);
    forall x | x in Blast(g, b) ensures x in Blast(g, a) {
      BlastIsAffected(g, b, x);
      AffectsTransitive(g, a, b, x);
      BlastIsAffected(g, a, x);
    }
  }

  // ----- Impact of several failures -----

  /** The failing services and everything they affect. */
  ghost function Impact(g: Adjacency, failing: set<string>): set<string> {
    failing + set x | x in Nodes(g) && exists a :: a in failing && Affects(g, a, x)
  }

  /** The impact is the least set that contains the failing services and is closed under dependents. */
  lemma ImpactIsLeastClosed(g: Adjacency, failing: set<string>, t: set<string>)
    ensures failing <= Impact(g, failing) && Closed(g, Impact(g, failing))
    ensures failing <= t && Closed(g, t) ==> Impact(g, failing) <= t
  {
    forall x, s | x in Impact(g, failing) && DependsOn(g, s, x) ensures s in Impact(g, failing) {
      DirectlyAffects(g, x, s);
      var a := if x in failing then x else var c :| c in failing && Affects(g, c, x); c;
      if x !in failing { AffectsTransitive(g, a, x, s); }
      assert s in Nodes(g) && a in failing && Affects(g, a, s);
    }
    if failing <= t && Closed(g, t) {
      forall x | x in Impact(g, failing) && x !in failing ensures x in t {
        var a :| a in failing && Affects(g, a, x);
        var n: nat :| n > 0 && Hops(g, a, x, n);
        ClosedUnderHops(g, t, a, x, n);
      }
    }
  }
}
