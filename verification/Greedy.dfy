/**
 Which match the engine reports. A greedy repetition and an optional group prefer to go on, so where the next
 character decides whether a match can go on, the reported match is the longest one. A pass over a text is then
 determined by the language alone: it replaces the leftmost match, the longest at its place, and so on.
 */
module Greedy {
  import opened Wrappers
  import opened Regex
  import opened Substitution

  /** Classes of the characters with which a longer match goes on where a shorter one ends. */
  function Continues(r: Regex): set<Class> {
    match r
    case Run(k, lo, hi) => if hi.Some? && hi.value <= lo then {} else {k}
    case Then(a, b) => Continues(b) + (if Nullable(b) then Continues(a) else {})
    case Maybe(a) => Continues(a) + Firsts(a)
    case Either(a, b) => Continues(a) + Continues(b)
  }

  /** No character is in a class of both. */
  ghost predicate Apart(u: Unicode, ks: set<Class>, ls: set<Class>) {
    forall k, l, c :: k in ks && l in ls ==> !(In(u, k, c) && In(u, l, c))
  }

  /** The next character decides whether a part goes on and which alternative is taken. */
  ghost predicate Decided(u: Unicode, r: Regex) {
    match r
    case Run(_, _, _) => true
    case Then(a, b) => Decided(u, a) && Decided(u, b) && Apart(u, Continues(a), Firsts(b))
    case Maybe(a) => Decided(u, a) && !Nullable(a)
    case Either(a, b) =>
      Decided(u, a) && Decided(u, b) && !Nullable(a) && !Nullable(b) &&
      Apart(u, Firsts(a), Firsts(b))
  }

  ghost predicate InSome(u: Unicode, ks: set<Class>, c: char) {
    exists k :: k in ks && In(u, k, c)
  }

  lemma NotInBoth(u: Unicode, ks: set<Class>, ls: set<Class>, c: char)
    requires Apart(u, ks, ls) && InSome(u, ks, c)
    ensures !InSome(u, ls, c)
  {
  }

  /** A match that has a longer one goes on with a character of `Continues`. */
  lemma {:induction false} GoesOn(u: Unicode, r: Regex, w: string, n: nat)
    requires Decided(u, r) && n < |w| && Accepts(u, r, w[..n]) && Accepts(u, r, w)
    ensures InSome(u, Continues(r), w[n])
    decreases r, 2
  {
    hide In, Apart;
    match r
    case Run(k, _, _) => assert k in Continues(r) && In(u, k, w[n]);
    case Then(a, b) => ThenGoesOn(u, a, b, w, n);
    case Maybe(a) =>
      if n == 0 {
        FirstsSound(u, a, w);
        var k :| k in Firsts(a) && In(u, k, w[0]);
      } else {
        GoesOn(u, a, w, n);
        var k :| k in Continues(a) && In(u, k, w[n]);
      }
    case Either(a, b) =>
      SameBranch(u, a, b, w, n);
      if Accepts(u, a, w) && Accepts(u, a, w[..n]) {
        GoesOn(u, a, w, n);
        var k :| k in Continues(a) && In(u, k, w[n]);
      } else {
        GoesOn(u, b, w, n);
        var k :| k in Continues(b) && In(u, k, w[n]);
      }
  }

  lemma SameBranch(u: Unicode, a: Regex, b: Regex, w: string, n: nat)
    requires Decided(u, Either(a, b)) && n < |w|
    requires Accepts(u, Either(a, b), w[..n]) && Accepts(u, Either(a, b), w)
    ensures (Accepts(u, a, w[..n]) && Accepts(u, a, w)) || (Accepts(u, b, w[..n]) && Accepts(u, b, w))
  {
    hide In;
    if Accepts(u, a, w[..n]) && Accepts(u, b, w) { FirstsClash(u, a, b, w[..n], w); }
    else if Accepts(u, b, w[..n]) && Accepts(u, a, w) { FirstsClash(u, a, b, w, w[..n]); }
  }

  /** Words of the two alternatives do not begin alike. */
  lemma FirstsClash(u: Unicode, a: Regex, b: Regex, v: string, w: string)
    requires !Nullable(a) && !Nullable(b) && Apart(u, Firsts(a), Firsts(b))
    requires Accepts(u, a, v) && Accepts(u, b, w)
    ensures v != "" && w != "" && v[0] != w[0]
  {
    NullableSound(u, a, v);
    NullableSound(u, b, w);
    FirstsSound(u, a, v);
    FirstsSound(u, b, w);
  }

  lemma {:induction false} ThenGoesOn(u: Unicode, a: Regex, b: Regex, w: string, n: nat)
    requires Decided(u, Then(a, b)) && n < |w| && Accepts(u, Then(a, b), w[..n]) && Accepts(u, Then(a, b), w)
    ensures InSome(u, Continues(Then(a, b)), w[n])
    decreases Then(a, b), 1
  {
    hide In, Apart;
    var m := ThenSplits(u, a, b, w[..n]);
    var x := ThenSplits(u, a, b, w);
    assert w[..n][..m] == w[..m] && w[..n][m..] == w[m..n];
    if m == x {
      assert w[m..][..n - m] == w[m..n] && w[m..][n - m] == w[n];
      GoesOn(u, b, w[m..], n - m);
      var k :| k in Continues(b) && In(u, k, w[n]);
    } else if m < x {
      assert w[..x][..m] == w[..m] && (m < n ==> w[m..n][0] == w[m]);
      StopsThere(u, a, b, w[..x], m, w[m..n]);
      if !Nullable(b) { NullableSound(u, b, w[m..n]); }
      GoesOn(u, a, w[..x], m);
      var k :| k in Continues(a) && In(u, k, w[n]);
    } else {
      assert w[..m][..x] == w[..x] && w[x..][0] == w[x];
      StopsThere(u, a, b, w[..m], x, w[x..]);
    }
  }

  /** Where the first part can go on, the second part does not begin with the same character. */
  lemma {:induction false} StopsThere(u: Unicode, a: Regex, b: Regex, w: string, n: nat, v: string)
    requires Decided(u, a) && Apart(u, Continues(a), Firsts(b))
    requires n < |w| && Accepts(u, a, w[..n]) && Accepts(u, a, w) && Accepts(u, b, v)
    ensures v != "" ==> v[0] != w[n]
    decreases a, 3
  {
    hide In, Apart;
    if v != "" {
      GoesOn(u, a, w, n);
      NotInBoth(u, Continues(a), Firsts(b), w[n]);
      FirstsSound(u, b, v);
      assert InSome(u, Firsts(b), v[0]);
    }
  }

  // ----- The order of the ends -----

  ghost predicate Descending(es: seq<nat>) {
    forall x, y :: 0 <= x < y < |es| ==> es[x] > es[y]
  }

  lemma {:induction false} DownDescends(from: nat, to: nat)
    ensures Descending(Down(from, to))
    decreases from + 1 - to
  {
    if from > to {
      DownDescends(from - 1, to);
      OneDescends(from);
      hide Descending;
      Concatenated([from], Down(from - 1, to));
    }
  }

  lemma Concatenated(a: seq<nat>, b: seq<nat>)
    requires Descending(a) && Descending(b) && forall x, y :: x in a && y in b ==> x > y
    ensures Descending(a + b)
  {
    var c := a + b;
    forall x, y | 0 <= x < y < |c| ensures c[x] > c[y] {
      if x < |a| <= y { assert c[x] in a && c[y] in b; }
    }
  }

  /** A decided pattern tries its longest match first. */
  lemma {:induction false} EndsDescend(u: Unicode, r: Regex, s: string, i: nat)
    requires Decided(u, r)
    ensures Descending(Ends(u, r, s, i))
    decreases r, 0
  {
    hide In, Apart, Accepts, Descending, RunLength;
    match r
    case Run(k, lo, hi) =>
      DownDescends(i + RunLength(u, k, s, i, hi), i + lo);
      EmptyDescends();
    case Then(a, b) =>
      EndsDescend(u, a, s, i);
      forall x: nat, y: nat | x in Ends(u, a, s, i) && y in Ends(u, a, s, i) && x < y
        ensures Blocked(u, b, s, x)
      {
        EndsBlock(u, a, b, s, i, x, y);
      }
      EndsAfterDescend(u, b, s, Ends(u, a, s, i));
    case Maybe(a) =>
      EndsDescend(u, a, s, i);
      forall e | e in Ends(u, a, s, i) ensures e > i { EndIsLater(u, a, s, i, e); }
      OneDescends(i);
      EmptyDescends();
      Concatenated(Ends(u, a, s, i), if i <= |s| then [i] else []);
    case Either(a, b) =>
      EndsDescend(u, a, s, i);
      EndsDescend(u, b, s, i);
      OneBranch(u, a, b, s, i);
  }

  lemma EmptyDescends()
    ensures Descending([])
  {
  }

  lemma OneDescends(i: nat)
    ensures Descending([i])
  {
  }

  lemma EndIsLater(u: Unicode, a: Regex, s: string, i: nat, e: nat)
    requires !Nullable(a) && e in Ends(u, a, s, i)
    ensures e > i
  {
    EndsAreAccepted(u, a, s, i, e);
    NullableSound(u, a, s[i..e]);
  }

  /** Only one alternative has matches at a position. */
  lemma OneBranch(u: Unicode, a: Regex, b: Regex, s: string, i: nat)
    requires Decided(u, Either(a, b))
    ensures var x, y := Ends(u, a, s, i), Ends(u, b, s, i); x + y == x || x + y == y
  {
    hide In, Apart, Accepts;
    var x, y := Ends(u, a, s, i), Ends(u, b, s, i);
    if x != [] && y != [] {
      assert x[0] in x && y[0] in y;
      EndsAreAccepted(u, a, s, i, x[0]);
      EndsAreAccepted(u, b, s, i, y[0]);
      FirstsClash(u, a, b, s[i..x[0]], s[i..y[0]]);
    }
  }

  /** No non-empty match of b begins at x. */
  ghost predicate Blocked(u: Unicode, b: Regex, s: string, x: nat) {
    forall f :: x <= f <= |s| && Accepts(u, b, s[x..f]) ==> f == x
  }

  lemma EndsBlock(u: Unicode, a: Regex, b: Regex, s: string, i: nat, x: nat, y: nat)
    requires Decided(u, Then(a, b)) && x in Ends(u, a, s, i) && y in Ends(u, a, s, i) && x < y
    ensures Blocked(u, b, s, x)
  {
    hide In, Apart, Accepts;
    EndsAreAccepted(u, a, s, i, x);
    EndsAreAccepted(u, a, s, i, y);
    var w := s[i..y];
    assert w[..x - i] == s[i..x] && w[x - i] == s[x];
    forall f | x <= f <= |s| && Accepts(u, b, s[x..f]) ensures f == x {
      StopsThere(u, a, b, w, x - i, s[x..f]);
    }
  }

  lemma {:induction false} EndsAfterDescend(u: Unicode, b: Regex, s: string, starts: seq<nat>)
    requires Decided(u, b) && Descending(starts)
    requires forall x, y :: x in starts && y in starts && x < y ==> Blocked(u, b, s, x)
    ensures Descending(EndsAfter(u, b, s, starts))
    decreases b, |starts| + 1
  {
    hide In, Apart, Accepts, Ends;
    if starts != [] {
      var first, rest := starts[0], starts[1..];
      assert forall x :: x in rest ==> x in starts;
      EndsDescend(u, b, s, first);
      EndsAfterDescend(u, b, s, rest);
      forall m | m in rest ensures m < first && Blocked(u, b, s, m) { assert first in starts && m in starts; }
      forall e, f | e in Ends(u, b, s, first) && f in EndsAfter(u, b, s, rest) ensures e > f {
        EndsLower(u, b, s, first, rest, e, f);
      }
      Concatenated(Ends(u, b, s, first), EndsAfter(u, b, s, rest));
    }
  }

  lemma EndsLower(u: Unicode, b: Regex, s: string, first: nat, rest: seq<nat>, e: nat, f: nat)
    requires forall m :: m in rest ==> m < first && Blocked(u, b, s, m)
    requires e in Ends(u, b, s, first) && f in EndsAfter(u, b, s, rest)
    ensures e > f
  {
    hide Accepts, Ends;
    EndsAreAccepted(u, b, s, first, e);
    EndsAfterAreAccepted(u, b, s, rest, f);
    var m :| m in rest && m <= f <= |s| && Accepts(u, b, s[m..f]);
    assert Blocked(u, b, s, m);
  }

  lemma {:induction false} AtEdgesDescend(u: Unicode, s: string, es: seq<nat>)
    requires Descending(es)
    ensures Descending(AtEdges(u, s, es))
  {
    if es != [] {
      AtEdgesDescend(u, s, es[1..]);
      forall y | y in AtEdges(u, s, es[1..]) ensures es[0] > y { assert y in es[1..]; }
      Concatenated(if Edge(u, s, es[0]) then [es[0]] else [], AtEdges(u, s, es[1..]));
    }
  }

  /** The engine reports the longest match at a position. */
  lemma FirstIsLongest(u: Unicode, p: Pattern, s: string, i: nat, e: nat)
    requires Decided(u, p.body) && Matches(u, p, s, i, e)
    ensures FirstMatch(u, p, s, i).Some? && FirstMatch(u, p, s, i).value >= e
  {
    hide In, Apart, Accepts, Ends, AtEdges;
    var es := Ends(u, p.body, s, i);
    EndsDescend(u, p.body, s, i);
    EndsAreAccepted(u, p.body, s, i, e);
    AtEdgesDescend(u, s, es);
    var kept := MatchEnds(u, p, s, i);
    assert e in kept;
  }

  // ----- A pass, told by the language alone -----

  /** The first match from i on is at x, and j is the end of the longest one there. */
  ghost predicate NextMatch(u: Unicode, p: Pattern, s: string, i: nat, x: nat, j: nat) {
    && i <= x < j && Matches(u, p, s, x, j)
    && (forall y, e :: i <= y < x ==> !Matches(u, p, s, y, e))
    && (forall e: nat :: Matches(u, p, s, x, e) ==> e <= j)
  }

  ghost predicate NoMatchFrom(u: Unicode, p: Pattern, s: string, i: nat) {
    forall y, e :: i <= y ==> !Matches(u, p, s, y, e)
  }

  /** t is s from i on with every match replaced: the leftmost, at its place the longest, then on behind it. */
  ghost predicate Replaced(u: Unicode, p: Pattern, rep: string, s: string, i: nat, t: string)
    requires i <= |s|
    decreases |s| - i
  {
    || (NoMatchFrom(u, p, s, i) && t == s[i..])
    || exists x: nat, j: nat, rest: string ::
         NextMatch(u, p, s, i, x, j) && t == s[i..x] + rep + rest && Replaced(u, p, rep, s, j, rest)
  }

  lemma {:induction false} ScanTo(u: Unicode, p: Pattern, rep: string, s: string, i: nat, x: nat)
    requires i <= x <= |s| && forall y, e :: i <= y < x ==> !Matches(u, p, s, y, e)
    ensures SubFrom(u, p, rep, s, i) == s[i..x] + SubFrom(u, p, rep, s, x)
    decreases x - i
  {
    hide Matches, FirstMatch;
    if i < x {
      assert FirstMatch(u, p, s, i).None?;
      ScanTo(u, p, rep, s, i + 1, x);
      assert s[i..x] == [s[i]] + s[i + 1..x];
    } else {
      assert s[i..x] + SubFrom(u, p, rep, s, x) == SubFrom(u, p, rep, s, x);
    }
  }

  lemma ReplacesNext(u: Unicode, p: Pattern, rep: string, s: string, i: nat, x: nat, j: nat)
    requires Decided(u, p.body) && NextMatch(u, p, s, i, x, j)
    ensures j <= |s| && SubFrom(u, p, rep, s, i) == s[i..x] + rep + SubFrom(u, p, rep, s, j)
  {
    hide FirstMatch, Decided;
    ScanTo(u, p, rep, s, i, x);
    FirstIsLongest(u, p, s, x, j);
    ScanStep(u, p, rep, s, x, FirstMatch(u, p, s, x));
    assert s[i..x] + (rep + SubFrom(u, p, rep, s, j)) == s[i..x] + rep + SubFrom(u, p, rep, s, j);
  }

  lemma NothingReplaced(u: Unicode, p: Pattern, rep: string, s: string, i: nat)
    requires i <= |s| && NoMatchFrom(u, p, s, i)
    ensures SubFrom(u, p, rep, s, i) == s[i..]
  {
    hide Matches;
    ScanTo(u, p, rep, s, i, |s|);
    assert s[i..|s|] == s[i..];
  }

  /** A pass of a decided pattern replaces the leftmost longest matches, and there is only one such text. */
  lemma {:induction false} SubReplaces(u: Unicode, p: Pattern, rep: string, s: string, i: nat, t: string)
    requires Decided(u, p.body) && !Nullable(p.body) && i <= |s|
    ensures Replaced(u, p, rep, s, i, t) <==> t == SubFrom(u, p, rep, s, i)
    decreases |s| - i
  {
    hide Matches, FirstMatch, Decided, SubFrom;
    if NoMatchFrom(u, p, s, i) {
      NothingReplaced(u, p, rep, s, i);
    } else {
      var x, j := FirstPlace(u, p, s, i);
      ReplacesNext(u, p, rep, s, i, x, j);
      SubReplaces(u, p, rep, s, j, SubFrom(u, p, rep, s, j));
      if Replaced(u, p, rep, s, i, t) {
        var y: nat, e: nat, rest: string :|
          NextMatch(u, p, s, i, y, e) && t == s[i..y] + rep + rest && Replaced(u, p, rep, s, e, rest);
        SameNext(u, p, s, i, x, j, y, e);
        SubReplaces(u, p, rep, s, j, rest);
      }
    }
  }

  lemma SameNext(u: Unicode, p: Pattern, s: string, i: nat, x: nat, j: nat, y: nat, e: nat)
    requires NextMatch(u, p, s, i, x, j) && NextMatch(u, p, s, i, y, e)
    ensures x == y && j == e
  {
    hide Matches;
  }

  lemma {:induction false} FirstPlace(u: Unicode, p: Pattern, s: string, i: nat) returns (x: nat, j: nat)
    requires Decided(u, p.body) && !Nullable(p.body) && i <= |s| && !NoMatchFrom(u, p, s, i)
    ensures NextMatch(u, p, s, i, x, j)
    decreases |s| - i
  {
    hide Accepts, FirstMatch, Decided;
    if FirstMatch(u, p, s, i).Some? {
      x, j := i, FirstMatch(u, p, s, i).value;
      NullableSound(u, p.body, s[x..j]);
      forall e: nat | Matches(u, p, s, x, e) ensures e <= j { FirstIsLongest(u, p, s, x, e); }
    } else {
      var y: nat, e: nat :| i <= y && Matches(u, p, s, y, e);
      assert y > i;
      x, j := FirstPlace(u, p, s, i + 1);
    }
  }
}
