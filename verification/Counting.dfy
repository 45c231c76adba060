/** Counting and collecting over a sequence, and what does not depend on its order. */
module Counting {

  function CountIf<T>(p: T -> bool, s: seq<T>): nat {
    if s == [] then 0 else CountIf(p, s[..|s| - 1]) + (if p(s[|s| - 1]) then 1 else 0)
  }

  lemma {:induction false} CountAppend<T>(p: T -> bool, a: seq<T>, b: seq<T>)
    ensures CountIf(p, a + b) == CountIf(p, a) + CountIf(p, b)
  {
    if b == [] { assert a + b == a; }
    else {
      CountAppend(p, a, b[..|b| - 1]);
      assert (a + b)[..|a + b| - 1] == a + b[..|b| - 1];
    }
  }

  lemma CountWithout<T>(p: T -> bool, s: seq<T>, k: nat)
    requires k < |s|
    ensures CountIf(p, s) == CountIf(p, s[..k] + s[k + 1..]) + CountIf(p, [s[k]])
  {
    hide CountIf;
    assert s == s[..k] + ([s[k]] + s[k + 1..]);
    CountAppend(p, s[..k], [s[k]] + s[k + 1..]);
    CountAppend(p, [s[k]], s[k + 1..]);
    CountAppend(p, s[..k], s[k + 1..]);
  }

  lemma RemoveOne<T>(a: seq<T>, b: seq<T>) returns (k: nat)
    requires a != [] && multiset(a) == multiset(b)
    ensures k < |b| && b[k] == a[|a| - 1]
    ensures multiset(a[..|a| - 1]) == multiset(b[..k] + b[k + 1..])
  {
    var init, x := a[..|a| - 1], a[|a| - 1];
    assert a == init + [x];
    assert x in multiset(b);
    k :| 0 <= k < |b| && b[k] == x;
    var rest := b[..k] + b[k + 1..];
    assert b == b[..k] + ([x] + b[k + 1..]);
    assert multiset(rest) == multiset(b) - multiset{x};
  }

  /** The count depends only on the multiset of elements. */
  lemma {:induction false} CountPermuted<T>(p: T -> bool, a: seq<T>, b: seq<T>)
    requires multiset(a) == multiset(b)
    ensures CountIf(p, a) == CountIf(p, b)
    decreases |a|
  {
    if a == [] {
      assert |multiset(b)| == 0;
    } else {
      var k := RemoveOne(a, b);
      CountPermuted(p, a[..|a| - 1], b[..k] + b[k + 1..]);
      CountWithout(p, b, k);
      assert CountIf(p, [b[k]]) == if p(b[k]) then 1 else 0;
    }
  }

  /** What f gives for the elements of s, in order. */
  function Collect<A, B>(f: A -> seq<B>, s: seq<A>): seq<B> {
    if s == [] then [] else Collect(f, s[..|s| - 1]) + f(s[|s| - 1])
  }

  lemma {:induction false} CollectAppend<A, B>(f: A -> seq<B>, a: seq<A>, b: seq<A>)
    ensures Collect(f, a + b) == Collect(f, a) + Collect(f, b)
  {
    if b == [] { assert a + b == a; }
    else {
      CollectAppend(f, a, b[..|b| - 1]);
      assert (a + b)[..|a + b| - 1] == a + b[..|b| - 1];
    }
  }

  lemma CollectOne<A, B>(f: A -> seq<B>, x: A)
    ensures Collect(f, [x]) == f(x)
  {
  }

  lemma CollectInserted<A, B>(f: A -> seq<B>, a: seq<A>, x: A, b: seq<A>)
    ensures multiset(Collect(f, a + ([x] + b))) == multiset(Collect(f, a + b)) + multiset(f(x))
  {
    hide Collect;
    CollectOne(f, x);
    CollectAppend(f, a, [x] + b);
    CollectAppend(f, [x], b);
    CollectAppend(f, a, b);
  }

  lemma CollectWithout<A, B>(f: A -> seq<B>, s: seq<A>, k: nat)
    requires k < |s|
    ensures multiset(Collect(f, s)) == multiset(Collect(f, s[..k] + s[k + 1..])) + multiset(f(s[k]))
  {
    hide Collect;
    CollectInserted(f, s[..k], s[k], s[k + 1..]);
    assert s == s[..k] + ([s[k]] + s[k + 1..]);
  }

  /** Up to order, what is collected depends only on the multiset of elements. */
  lemma {:induction false} CollectPermuted<A, B>(f: A -> seq<B>, a: seq<A>, b: seq<A>)
    requires multiset(a) == multiset(b)
    ensures multiset(Collect(f, a)) == multiset(Collect(f, b))
    decreases |a|
  {
    if a == [] {
      assert |multiset(b)| == 0;
    } else {
      var k := RemoveOne(a, b);
      CollectPermuted(f, a[..|a| - 1], b[..k] + b[k + 1..]);
      CollectWithout(f, b, k);
    }
  }
}
