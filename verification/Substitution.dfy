/**
 What one substitution pass can and cannot change: a pass removes every match of its own
 pattern, never creates a match of another pattern, and works independently on the two sides
 of a place that no match straddles.
 */
module Substitution {
  import opened Wrappers
  import opened Regex

  // ----- What the shape of a regex says about its language -----

  predicate Nullable(r: Regex) {
    match r
    case Run(_, lo, _) => lo == 0
    case Then(a, b) => Nullable(a) && Nullable(b)
    case Maybe(_) => true
    case Either(a, b) => Nullable(a) || Nullable(b)
  }

  /** The character classes that occur in r. */
  function Classes(r: Regex): set<Class> {
    match r
    case Run(k, _, _) => {k}
    case Then(a, b) => Classes(a) + Classes(b)
    case Maybe(a) => Classes(a)
    case Either(a, b) => Classes(a) + Classes(b)
  }

  /** Whether c may occur in a string of the language. */
  predicate Uses(u: Unicode, r: Regex, c: char) {
    exists k :: k in Classes(r) && In(u, k, c)
  }

  predicate WordClass(k: Class) {
    match k
    case Digit => true
    case Hex => true
    case Letter(_) => true
    case Just(c) => AsciiLetter(c) || '0' <= c <= '9'
    case AnyOf(cs) => forall c :: c in cs ==> AsciiLetter(c) || '0' <= c <= '9'
    case _ => false
  }

  predicate StartsInWord(r: Regex) {
    match r
    case Run(k, lo, _) => lo > 0 && WordClass(k)
    case Then(a, _) => StartsInWord(a)
    case Maybe(_) => false
    case Either(a, b) => StartsInWord(a) && StartsInWord(b)
  }

  predicate EndsInWord(r: Regex) {
    match r
    case Run(k, _, _) => WordClass(k)
    case Then(a, b) => EndsInWord(b) && (EndsInWord(a) || !Nullable(b))
    case Maybe(a) => EndsInWord(a)
    case Either(a, b) => EndsInWord(a) && EndsInWord(b)
  }

  /** A pattern between two `\b` whose matches begin and end with a word character. */
  predicate Aligned(p: Pattern) {
    p.edges && StartsInWord(p.body) && EndsInWord(p.body)
  }

  lemma {:induction false} NullableSound(u: Unicode, r: Regex, w: string)
    requires Accepts(u, r, w) && !Nullable(r)
    ensures w != ""
  {
    match r
    case Run(_, _, _) =>
    case Then(a, b) =>
      var m :| 0 <= m <= |w| && Accepts(u, a, w[..m]) && Accepts(u, b, w[m..]);
      if Nullable(a) { NullableSound(u, b, w[m..]); } else { NullableSound(u, a, w[..m]); }
    case Either(a, b) =>
      if Accepts(u, a, w) { NullableSound(u, a, w); } else { NullableSound(u, b, w); }
  }

  lemma {:induction false} UsesSound(u: Unicode, r: Regex, w: string, i: nat)
    requires Accepts(u, r, w) && i < |w|
    ensures Uses(u, r, w[i])
  {
    match r
    case Run(k, _, _) => assert k in Classes(r);
    case Then(a, b) =>
      var m :| 0 <= m <= |w| && Accepts(u, a, w[..m]) && Accepts(u, b, w[m..]);
      if i < m { UsesSound(u, a, w[..m], i); } else { UsesSound(u, b, w[m..], i - m); }
    case Maybe(a) => UsesSound(u, a, w, i);
    case Either(a, b) =>
      if Accepts(u, a, w) { UsesSound(u, a, w, i); } else { UsesSound(u, b, w, i); }
  }

  lemma AcceptsThen(u: Unicode, a: Regex, b: Regex, v: string, w: string)
    requires Accepts(u, a, v) && Accepts(u, b, w)
    ensures Accepts(u, Then(a, b), v + w)
  {
    assert (v + w)[..|v|] == v && (v + w)[|v|..] == w;
  }

  lemma ThenSplits(u: Unicode, a: Regex, b: Regex, w: string) returns (m: nat)
    requires Accepts(u, Then(a, b), w)
    ensures m <= |w| && Accepts(u, a, w[..m]) && Accepts(u, b, w[m..])
  {
    m :| 0 <= m <= |w| && Accepts(u, a, w[..m]) && Accepts(u, b, w[m..]);
  }

  /** Classes of the first character of a match. */
  function Firsts(r: Regex): set<Class> {
    match r
    case Run(k, _, _) => {k}
    case Then(a, b) => if Nullable(a) then Firsts(a) + Firsts(b) else Firsts(a)
    case Maybe(a) => Firsts(a)
    case Either(a, b) => Firsts(a) + Firsts(b)
  }

  lemma {:induction false} FirstsSound(u: Unicode, r: Regex, w: string)
    requires Accepts(u, r, w) && w != ""
    ensures exists k :: k in Firsts(r) && In(u, k, w[0])
  {
    match r
    case Run(k, _, _) => assert k in Firsts(r) && In(u, k, w[0]);
    case Then(a, b) =>
      var m :| 0 <= m <= |w| && Accepts(u, a, w[..m]) && Accepts(u, b, w[m..]);
      if m > 0 { FirstsSound(u, a, w[..m]); }
      else {
        if !Nullable(a) { NullableSound(u, a, w[..m]); }
        FirstsSound(u, b, w[m..]);
      }
    case Maybe(a) => FirstsSound(u, a, w);
    case Either(a, b) =>
      if Accepts(u, a, w) { FirstsSound(u, a, w); } else { FirstsSound(u, b, w); }
  }

  lemma WordClassSound(u: Unicode, k: Class, c: char)
    requires Sane(u) && WordClass(k) && In(u, k, c)
    ensures u.word(c)
  {
    assert AsciiLetter(c) || u.digit(c) || u.word(c);
  }

  lemma {:induction false} StartsInWordSound(u: Unicode, r: Regex, w: string)
    requires Sane(u) && Accepts(u, r, w) && StartsInWord(r)
    ensures w != "" && u.word(w[0])
  {
    match r
    case Run(k, _, _) => WordClassSound(u, k, w[0]);
    case Then(a, b) =>
      var m :| 0 <= m <= |w| && Accepts(u, a, w[..m]) && Accepts(u, b, w[m..]);
      StartsInWordSound(u, a, w[..m]);
    case Either(a, b) =>
      if Accepts(u, a, w) { StartsInWordSound(u, a, w); } else { StartsInWordSound(u, b, w); }
  }

  lemma {:induction false} EndsInWordSound(u: Unicode, r: Regex, w: string)
    requires Sane(u) && Accepts(u, r, w) && EndsInWord(r) && w != ""
    ensures u.word(w[|w| - 1])
  {
    match r
    case Run(k, _, _) => WordClassSound(u, k, w[|w| - 1]);
    case Then(a, b) =>
      var m :| 0 <= m <= |w| && Accepts(u, a, w[..m]) && Accepts(u, b, w[m..]);
      if m < |w| { EndsInWordSound(u, b, w[m..]); }
      else {
        if !Nullable(b) { NullableSound(u, b, w[m..]); }
        assert w[..m] == w;
        EndsInWordSound(u, a, w);
      }
    case Maybe(a) => EndsInWordSound(u, a, w);
    case Either(a, b) =>
      if Accepts(u, a, w) { EndsInWordSound(u, a, w); } else { EndsInWordSound(u, b, w); }
  }

  /** The ends of an aligned match are word characters with no word character outside. */
  lemma AlignedMatch(u: Unicode, p: Pattern, s: string, i: nat, j: nat)
    requires Sane(u) && Aligned(p) && Matches(u, p, s, i, j)
    ensures i < j
    ensures u.word(s[i]) && u.word(s[j - 1])
    ensures i > 0 ==> !u.word(s[i - 1])
    ensures j < |s| ==> !u.word(s[j])
  {
    StartsInWordSound(u, p.body, s[i..j]);
    EndsInWordSound(u, p.body, s[i..j]);
  }

  // ----- Gluing strings that have no match -----

  /** No word runs across position i of s. */
  predicate Border(u: Unicode, s: string, i: nat) {
    0 < i < |s| ==> !(u.word(s[i - 1]) && u.word(s[i]))
  }

  lemma SliceOfSlice(s: string, k: nat, n: nat, i: nat, j: nat)
    requires k <= n <= |s| && i <= j <= n - k
    ensures s[k..n][i..j] == s[k + i..k + j]
  {
    forall x | 0 <= x < j - i ensures s[k..n][i..j][x] == s[k + i..k + j][x] {
      assert s[k..n][i + x] == s[k + i + x];
    }
  }

  /** A match inside a piece of s is a match of s when the piece is cut at borders. */
  lemma PieceMatch(u: Unicode, p: Pattern, s: string, k: nat, n: nat, i: nat, j: nat)
    requires Sane(u) && k <= n <= |s| && j <= n - k
    requires p.edges ==> Aligned(p) && Border(u, s, k) && Border(u, s, n)
    requires Matches(u, p, s[k..n], i, j)
    ensures Matches(u, p, s, k + i, k + j)
  {
    SliceOfSlice(s, k, n, i, j);
    if p.edges { AlignedMatch(u, p, s[k..n], i, j); }
  }

  /** A match of s that lies inside a piece cut at borders is a match of the piece. */
  lemma MatchOfPiece(u: Unicode, p: Pattern, s: string, k: nat, n: nat, i: nat, j: nat)
    requires Sane(u) && k <= i <= j <= n <= |s|
    requires p.edges ==> Aligned(p)
    requires Matches(u, p, s, i, j)
    ensures Matches(u, p, s[k..n], i - k, j - k)
  {
    SliceOfSlice(s, k, n, i - k, j - k);
    if p.edges { AlignedMatch(u, p, s, i, j); }
  }

  lemma FreePiece(u: Unicode, p: Pattern, s: string, k: nat, n: nat)
    requires Sane(u) && k <= n <= |s| && Free(u, p, s)
    requires p.edges ==> Aligned(p) && Border(u, s, k) && Border(u, s, n)
    ensures Free(u, p, s[k..n])
  {
    forall i: nat, j: nat ensures !Matches(u, p, s[k..n], i, j) {
      if Matches(u, p, s[k..n], i, j) { PieceMatch(u, p, s, k, n, i, j); }
    }
  }

  /** c stops every match of p. */
  predicate Stops(u: Unicode, p: Pattern, c: char) {
    !Uses(u, p.body, c)
  }

  /** A replacement text that p cannot match, not even partly. */
  ghost predicate Inert(u: Unicode, p: Pattern, rep: string) {
    && rep != ""
    && Stops(u, p, rep[0]) && Stops(u, p, rep[|rep| - 1])
    && Free(u, p, rep)
  }

  lemma GlueFree(u: Unicode, p: Pattern, a: string, rep: string, b: string)
    requires Sane(u) && !Nullable(p.body)
    requires p.edges ==> Aligned(p)
    requires Free(u, p, a) && Inert(u, p, rep) && Free(u, p, b)
    ensures Free(u, p, a + rep + b)
  {
    var s := a + rep + b;
    var m, n := |a|, |a| + |rep|;
    assert s[0..m] == a && s[m..n] == rep && s[n..|s|] == b;
    forall i: nat, j: nat ensures !Matches(u, p, s, i, j) {
      if Matches(u, p, s, i, j) {
        NullableSound(u, p.body, s[i..j]);
        if i <= m < j { UsesSound(u, p.body, s[i..j], m - i); }
        if i <= n - 1 < j { UsesSound(u, p.body, s[i..j], n - 1 - i); }
        if j <= m { MatchOfPiece(u, p, s, 0, m, i, j); }
        else if j <= n { MatchOfPiece(u, p, s, m, n, i, j); }
        else { MatchOfPiece(u, p, s, n, |s|, i, j); }
      }
    }
  }

  // ----- One pass -----

  /** Matches of q begin and end at borders of the scanned text. */
  ghost predicate CutsAtBorders(u: Unicode, q: Pattern) {
    forall s, i, j :: Matches(u, q, s, i, j) ==> Border(u, s, i) && Border(u, s, j)
  }

  /** Replacing the matches of q leaves p without a match if it was so before, or if q is p. */
  lemma SubKeepsFree(u: Unicode, p: Pattern, q: Pattern, rep: string, s: string)
    requires Sane(u) && !Nullable(p.body) && !Nullable(q.body)
    requires p.edges ==> Aligned(p) && CutsAtBorders(u, q)
    requires Inert(u, p, rep)
    requires p == q || Free(u, p, s)
    ensures Free(u, p, Sub(u, q, rep, s))
  {
    SubFromKeepsFree(u, p, q, rep, s, 0, 0);
    assert s[0..0] + Sub(u, q, rep, s) == Sub(u, q, rep, s);
  }

  // The scanner stands at i; since k, where the last replaced match ended, it has copied.
  lemma {:induction false} SubFromKeepsFree(u: Unicode, p: Pattern, q: Pattern, rep: string, s: string, k: nat, i: nat)
    requires Sane(u) && !Nullable(p.body) && !Nullable(q.body)
    requires p.edges ==> Aligned(p) && CutsAtBorders(u, q)
    requires Inert(u, p, rep)
    requires p == q || Free(u, p, s)
    requires k <= i <= |s|
    requires p.edges ==> Border(u, s, k)
    requires forall x, e :: k <= x < i ==> !Matches(u, q, s, x, e)
    ensures Free(u, p, s[k..i] + SubFrom(u, q, rep, s, i))
    decreases |s| - i
  {
    hide FirstMatch;
    if i == |s| {
      assert s[k..i] + SubFrom(u, q, rep, s, i) == s[k..i];
      FreeGap(u, p, q, s, k, i);
    } else {
      var end := FirstMatch(u, q, s, i);
      if end.Some? {
        var j := end.value;
        NullableSound(u, q.body, s[i..j]);
        FreeGap(u, p, q, s, k, i);
        SubFromKeepsFree(u, p, q, rep, s, j, j);
        assert s[j..j] + SubFrom(u, q, rep, s, j) == SubFrom(u, q, rep, s, j);
        GlueFree(u, p, s[k..i], rep, SubFrom(u, q, rep, s, j));
        assert s[k..i] + SubFrom(u, q, rep, s, i) == s[k..i] + rep + SubFrom(u, q, rep, s, j);
      } else {
        SubFromKeepsFree(u, p, q, rep, s, k, i + 1);
        assert s[k..i] + SubFrom(u, q, rep, s, i) == s[k..i + 1] + SubFrom(u, q, rep, s, i + 1);
      }
    }
  }

  lemma FreeGap(u: Unicode, p: Pattern, q: Pattern, s: string, k: nat, i: nat)
    requires Sane(u) && k <= i <= |s| && !Nullable(p.body)
    requires p.edges ==> Aligned(p) && Border(u, s, k) && Border(u, s, i)
    requires p == q || Free(u, p, s)
    requires forall x, e :: k <= x < i ==> !Matches(u, q, s, x, e)
    ensures Free(u, p, s[k..i])
  {
    forall x: nat, y: nat ensures !Matches(u, p, s[k..i], x, y) {
      if Matches(u, p, s[k..i], x, y) {
        NullableSound(u, p.body, s[k..i][x..y]);
        PieceMatch(u, p, s, k, i, x, y);
      }
    }
  }

  /** A pass over a text without a match changes nothing. */
  lemma {:induction false} SubOfFree(u: Unicode, p: Pattern, rep: string, s: string, i: nat)
    requires Free(u, p, s) && i <= |s|
    ensures SubFrom(u, p, rep, s, i) == s[i..]
    decreases |s| - i
  {
    if i < |s| {
      assert FirstMatch(u, p, s, i).None?;
      SubOfFree(u, p, rep, s, i + 1);
    }
  }

  // ----- Locality -----

  function UpTo(es: seq<nat>, n: nat): (r: seq<nat>)
    ensures forall j :: j in r <==> j in es && j <= n
  {
    if es == [] then [] else (if es[0] <= n then [es[0]] else []) + UpTo(es[1..], n)
  }

  lemma UpToCons(e: nat, es: seq<nat>, n: nat)
    ensures UpTo([e] + es, n) == (if e <= n then [e] else []) + UpTo(es, n)
  {
    assert ([e] + es)[1..] == es;
  }

  lemma {:induction false} UpToAppend(a: seq<nat>, b: seq<nat>, n: nat)
    ensures UpTo(a + b, n) == UpTo(a, n) + UpTo(b, n)
  {
    assert UpTo([], n) == [];
    hide UpTo;
    if a == [] { assert a + b == b; }
    else {
      var e, rest := a[0], a[1..];
      UpToAppend(rest, b, n);
      UpToCons(e, rest, n);
      UpToCons(e, rest + b, n);
      assert a == [e] + rest && a + b == [e] + (rest + b);
    }
  }

  lemma {:induction false} DownUpTo(from: nat, to: nat, n: nat)
    ensures UpTo(Down(from, to), n) == Down(if from < n then from else n, to)
    decreases from + 1 - to
  {
    if to < from {
      assert Down(from, to)[1..] == Down(from - 1, to);
      DownUpTo(from - 1, to, n);
    }
  }

  function OneLess(hi: Option<nat>): Option<nat> {
    if hi.Some? && hi.value > 0 then Some(hi.value - 1) else None
  }

  predicate Spent(hi: Option<nat>) {
    hi.Some? && hi.value == 0
  }

  lemma RunLengthStep(u: Unicode, k: Class, s: string, i: nat, hi: Option<nat>)
    ensures RunLength(u, k, s, i, hi) ==
            if i < |s| && !Spent(hi) && In(u, k, s[i]) then 1 + RunLength(u, k, s, i + 1, OneLess(hi)) else 0
  {
    hide In;
  }

  lemma {:induction false} RunLengthPrefix(u: Unicode, k: Class, s: string, n: nat, i: nat, hi: Option<nat>)
    requires i <= n <= |s|
    ensures RunLength(u, k, s[..n], i, hi) ==
            var len := RunLength(u, k, s, i, hi); if i + len <= n then len else n - i
    decreases n - i
  {
    hide In, RunLength, OneLess, Spent;
    RunLengthStep(u, k, s, i, hi);
    RunLengthStep(u, k, s[..n], i, hi);
    if i < n && !Spent(hi) && In(u, k, s[i]) {
      RunLengthPrefix(u, k, s, n, i + 1, OneLess(hi));
    }
  }

  /** Cutting the text at n only removes the matches that pass n; the order is kept. */
  lemma {:induction false} EndsPrefix(u: Unicode, r: Regex, s: string, n: nat, i: nat)
    requires i <= n <= |s|
    ensures Ends(u, r, s[..n], i) == UpTo(Ends(u, r, s, i), n)
    decreases r, 0
  {
    hide RunLength;
    match r
    case Run(k, lo, hi) =>
      RunLengthPrefix(u, k, s, n, i, hi);
      DownUpTo(i + RunLength(u, k, s, i, hi), i + lo, n);
    case Then(a, b) =>
      EndsPrefix(u, a, s, n, i);
      EndsAfterPrefix(u, b, s, n, Ends(u, a, s, i));
    case Maybe(a) =>
      EndsPrefix(u, a, s, n, i);
      UpToAppend(Ends(u, a, s, i), [i], n);
    case Either(a, b) =>
      EndsPrefix(u, a, s, n, i);
      EndsPrefix(u, b, s, n, i);
      UpToAppend(Ends(u, a, s, i), Ends(u, b, s, i), n);
  }

  lemma NoEndBefore(u: Unicode, r: Regex, s: string, n: nat, i: nat)
    requires n < i
    ensures UpTo(Ends(u, r, s, i), n) == []
  {
    var es := UpTo(Ends(u, r, s, i), n);
    if es != [] {
      assert es[0] in es;
      EndsAreAccepted(u, r, s, i, es[0]);
    }
  }

  lemma {:induction false} EndsAfterPrefix(u: Unicode, b: Regex, s: string, n: nat, starts: seq<nat>)
    requires n <= |s|
    ensures EndsAfter(u, b, s[..n], UpTo(starts, n)) == UpTo(EndsAfter(u, b, s, starts), n)
    decreases b, |starts| + 1
  {
    hide Ends;
    if starts != [] {
      var e, rest := starts[0], starts[1..];
      EndsAfterPrefix(u, b, s, n, rest);
      UpToAppend(Ends(u, b, s, e), EndsAfter(u, b, s, rest), n);
      if e <= n {
        EndsPrefix(u, b, s, n, e);
        assert UpTo(starts, n) == [e] + UpTo(rest, n);
        assert ([e] + UpTo(rest, n))[1..] == UpTo(rest, n);
      } else {
        NoEndBefore(u, b, s, n, e);
        assert UpTo(starts, n) == UpTo(rest, n);
      }
    }
  }

  function Shift(es: seq<nat>, k: nat): seq<nat> {
    if es == [] then [] else [k + es[0]] + Shift(es[1..], k)
  }

  lemma ShiftCons(e: nat, es: seq<nat>, k: nat)
    ensures Shift([e] + es, k) == [k + e] + Shift(es, k)
  {
    assert ([e] + es)[1..] == es;
  }

  lemma {:induction false} ShiftAppend(a: seq<nat>, b: seq<nat>, k: nat)
    ensures Shift(a + b, k) == Shift(a, k) + Shift(b, k)
  {
    assert Shift([], k) == [];
    hide Shift;
    if a == [] { assert a + b == b; }
    else {
      var e, rest := a[0], a[1..];
      ShiftAppend(rest, b, k);
      ShiftCons(e, rest, k);
      ShiftCons(e, rest + b, k);
      assert a == [e] + rest && a + b == [e] + (rest + b);
    }
  }

  lemma {:induction false} DownShift(from: nat, to: nat, k: nat)
    ensures Shift(Down(from, to), k) == Down(k + from, k + to)
    decreases from + 1 - to
  {
    if to < from {
      assert Down(from, to)[1..] == Down(from - 1, to);
      DownShift(from - 1, to, k);
    }
  }

  /** t is what is left of s after its first n characters. */
  ghost predicate Tail(s: string, n: nat, t: string) {
    |s| == n + |t| && forall x {:trigger t[x]} :: 0 <= x < |t| ==> s[n + x] == t[x]
  }

  lemma TailAt(s: string, n: nat, t: string, i: nat)
    requires Tail(s, n, t) && i < |t|
    ensures n + i < |s| && s[n + i] == t[i]
  {
    var c := t[i];
  }

  lemma {:induction false} RunLengthSuffix(u: Unicode, k: Class, s: string, n: nat, t: string, i: nat, hi: Option<nat>)
    requires Tail(s, n, t) && i <= |t|
    ensures RunLength(u, k, s, n + i, hi) == RunLength(u, k, t, i, hi)
    decreases |t| - i
  {
    assert |s| == n + |t|;
    hide Tail, In, RunLength, OneLess, Spent;
    RunLengthStep(u, k, s, n + i, hi);
    RunLengthStep(u, k, t, i, hi);
    if i < |t| {
      TailAt(s, n, t, i);
      if !Spent(hi) && In(u, k, t[i]) { RunLengthSuffix(u, k, s, n, t, i + 1, OneLess(hi)); }
    }
  }

  lemma RunEnds(u: Unicode, k: Class, lo: nat, hi: Option<nat>, s: string, i: nat)
    ensures Ends(u, Run(k, lo, hi), s, i) == if i <= |s| then Down(i + RunLength(u, k, s, i, hi), i + lo) else []
  {
    hide RunLength;
  }

  lemma RunEndsSuffix(u: Unicode, k: Class, lo: nat, hi: Option<nat>, s: string, n: nat, t: string, i: nat)
    requires Tail(s, n, t)
    ensures Ends(u, Run(k, lo, hi), s, n + i) == Shift(Ends(u, Run(k, lo, hi), t, i), n)
  {
    assert |s| == n + |t| && Shift([], n) == [];
    hide *;
    RunEnds(u, k, lo, hi, s, n + i);
    RunEnds(u, k, lo, hi, t, i);
    if i <= |t| { ShiftedRun(u, k, lo, hi, s, n, t, i); }
  }

  lemma ShiftedRun(u: Unicode, k: Class, lo: nat, hi: Option<nat>, s: string, n: nat, t: string, i: nat)
    requires Tail(s, n, t) && i <= |t|
    ensures Down(n + i + RunLength(u, k, s, n + i, hi), n + i + lo) ==
            Shift(Down(i + RunLength(u, k, t, i, hi), i + lo), n)
  {
    hide *;
    RunLengthSuffix(u, k, s, n, t, i, hi);
    ShiftedDown(n + i, RunLength(u, k, t, i, hi), lo, n, i);
  }

  lemma ShiftedDown(to: nat, len: nat, lo: nat, n: nat, i: nat)
    requires to == n + i
    ensures Down(to + len, to + lo) == Shift(Down(i + len, i + lo), n)
  {
    hide Down, Shift;
    DownShift(i + len, i + lo, n);
    assert to + len == n + (i + len) && to + lo == n + (i + lo);
  }

  lemma EndsAfterCons(u: Unicode, b: Regex, s: string, e: nat, rest: seq<nat>)
    ensures EndsAfter(u, b, s, [e] + rest) == Ends(u, b, s, e) + EndsAfter(u, b, s, rest)
  {
    assert ([e] + rest)[1..] == rest;
  }

  /** Dropping the first n characters shifts the matches and keeps their order. */
  lemma {:induction false} EndsSuffix(u: Unicode, r: Regex, s: string, n: nat, t: string, i: nat)
    requires Tail(s, n, t)
    ensures Ends(u, r, s, n + i) == Shift(Ends(u, r, t, i), n)
    decreases r, 0
  {
    assert |s| == n + |t|;
    hide Tail, RunLength;
    match r
    case Run(k, lo, hi) => RunEndsSuffix(u, k, lo, hi, s, n, t, i);
    case Then(a, b) =>
      EndsSuffix(u, a, s, n, t, i);
      EndsAfterSuffix(u, b, s, n, t, Ends(u, a, t, i));
    case Maybe(a) =>
      EndsSuffix(u, a, s, n, t, i);
      ShiftAppend(Ends(u, a, t, i), if i <= |t| then [i] else [], n);
    case Either(a, b) =>
      EndsSuffix(u, a, s, n, t, i);
      EndsSuffix(u, b, s, n, t, i);
      ShiftAppend(Ends(u, a, t, i), Ends(u, b, t, i), n);
  }

  lemma {:induction false} EndsAfterSuffix(u: Unicode, b: Regex, s: string, n: nat, t: string, starts: seq<nat>)
    requires Tail(s, n, t)
    ensures EndsAfter(u, b, s, Shift(starts, n)) == Shift(EndsAfter(u, b, t, starts), n)
    decreases b, |starts| + 1
  {
    hide Tail, Ends;
    if starts != [] {
      var e, rest := starts[0], starts[1..];
      EndsSuffix(u, b, s, n, t, e);
      EndsAfterSuffix(u, b, s, n, t, rest);
      ShiftAppend(Ends(u, b, t, e), EndsAfter(u, b, t, rest), n);
      EndsAfterCons(u, b, s, n + e, Shift(rest, n));
    }
  }

  /** No match of p starts before position n of s and ends after it. */
  ghost predicate NoStraddle(u: Unicode, p: Pattern, s: string, n: nat) {
    forall i: nat, j: nat :: i < n < j ==> !Matches(u, p, s, i, j)
  }

  lemma {:induction false} AtEdgesSame(u: Unicode, s: string, t: string, es: seq<nat>, n: nat)
    requires forall j :: j in es && Edge(u, s, j) ==> j <= n
    requires forall j :: j in es && j <= n ==> Edge(u, s, j) == Edge(u, t, j)
    ensures AtEdges(u, s, es) == AtEdges(u, t, UpTo(es, n))
  {
    if es != [] {
      AtEdgesSame(u, s, t, es[1..], n);
      assert es[0] in es;
      if es[0] <= n {
        assert UpTo(es, n) == [es[0]] + UpTo(es[1..], n);
        assert UpTo(es, n)[1..] == UpTo(es[1..], n);
      } else {
        assert UpTo(es, n) == UpTo(es[1..], n);
      }
    }
  }

  lemma {:induction false} AtEdgesShift(u: Unicode, s: string, t: string, es: seq<nat>, n: nat)
    requires forall j :: j in es ==> Edge(u, s, n + j) == Edge(u, t, j)
    ensures AtEdges(u, s, Shift(es, n)) == Shift(AtEdges(u, t, es), n)
  {
    if es != [] {
      var rest := es[1..];
      assert es[0] in es;
      AtEdgesShift(u, s, t, rest, n);
      assert Shift(es, n) == [n + es[0]] + Shift(rest, n);
      assert Shift(es, n)[1..] == Shift(rest, n);
      ShiftAppend(if Edge(u, t, es[0]) then [es[0]] else [], AtEdges(u, t, rest), n);
    }
  }

  // Left of a border that no match straddles, the engine behaves as if the text ended there.
  lemma FirstMatchLeft(u: Unicode, p: Pattern, a: string, b: string, i: nat)
    requires Sane(u) && Aligned(p) && i < |a|
    requires Border(u, a + b, |a|) && NoStraddle(u, p, a + b, |a|)
    ensures FirstMatch(u, p, a + b, i) == FirstMatch(u, p, a, i)
  {
    var s, n := a + b, |a|;
    assert s[..n] == a;
    EndsPrefix(u, p.body, s, n, i);
    assert Edge(u, s, i) == Edge(u, a, i);
    if Edge(u, s, i) {
      var es := Ends(u, p.body, s, i);
      forall j | j in es && (Edge(u, s, j) || j <= n)
        ensures j <= n && (Edge(u, s, j) == Edge(u, a, j))
      {
        EndsAreAccepted(u, p.body, s, i, j);
        if Edge(u, s, j) { assert Matches(u, p, s, i, j); }
        if j == n && b != "" {
          StartsInWordSound(u, p.body, s[i..j]);
          EndsInWordSound(u, p.body, s[i..j]);
        }
      }
      AtEdgesSame(u, s, a, es, n);
    }
  }

  // A match end right of a border is an edge of the whole text iff it is one of the rest.
  lemma EdgeRight(u: Unicode, p: Pattern, s: string, n: nat, t: string, i: nat, j: nat)
    requires Sane(u) && Aligned(p) && Tail(s, n, t) && Border(u, s, n)
    requires j in Ends(u, p.body, t, i)
    ensures Edge(u, s, n + i) == Edge(u, t, i) && Edge(u, s, n + j) == Edge(u, t, j)
  {
    EndsAreAccepted(u, p.body, t, i, j);
    StartsInWordSound(u, p.body, t[i..j]);
    assert t[i..j][0] == t[i];
    assert s[n + i] == t[i] && s[n + (j - 1)] == t[j - 1];
    if j < |t| { assert s[n + j] == t[j]; }
    if i > 0 { assert s[n + (i - 1)] == t[i - 1]; }
  }

  function Moved(j: Option<nat>, n: nat): Option<nat> {
    match j case None => None case Some(e) => Some(n + e)
  }

  lemma MatchEndsRight(u: Unicode, p: Pattern, s: string, n: nat, t: string, i: nat)
    requires Sane(u) && Aligned(p) && Tail(s, n, t) && Border(u, s, n)
    ensures MatchEnds(u, p, s, n + i) == Shift(MatchEnds(u, p, t, i), n)
  {
    hide Ends, Edge, Border, StartsInWord, EndsInWord;
    EndsSuffix(u, p.body, s, n, t, i);
    var es := Ends(u, p.body, t, i);
    if es != [] {
      EdgeRight(u, p, s, n, t, i, es[0]);
      forall j | j in es ensures Edge(u, s, n + j) == Edge(u, t, j) {
        EdgeRight(u, p, s, n, t, i, j);
      }
      AtEdgesShift(u, s, t, es, n);
    }
  }

  // Right of a border, the engine behaves as if the text started there.
  lemma FirstMatchRight(u: Unicode, p: Pattern, s: string, n: nat, t: string, i: nat)
    requires Sane(u) && Aligned(p) && Tail(s, n, t) && Border(u, s, n)
    ensures FirstMatch(u, p, s, n + i) == Moved(FirstMatch(u, p, t, i), n)
  {
    hide MatchEnds, Matches, StartsInWord, EndsInWord;
    MatchEndsRight(u, p, s, n, t, i);
  }

  /** A pass treats the two sides of a border independently when no match straddles it. */
  lemma {:induction false} SubSplit(u: Unicode, p: Pattern, rep: string, a: string, b: string)
    requires Sane(u) && Aligned(p)
    requires Border(u, a + b, |a|) && NoStraddle(u, p, a + b, |a|)
    ensures Sub(u, p, rep, a + b) == Sub(u, p, rep, a) + Sub(u, p, rep, b)
  {
    SubFromLeft(u, p, rep, a, b, 0);
  }

  lemma ScanStep(u: Unicode, p: Pattern, rep: string, s: string, i: nat, j: Option<nat>)
    requires i < |s| && FirstMatch(u, p, s, i) == j
    ensures SubFrom(u, p, rep, s, i) ==
            if j.Some? && i < j.value then rep + SubFrom(u, p, rep, s, j.value)
              else [s[i]] + SubFrom(u, p, rep, s, i + 1)
  {
    hide FirstMatch;
  }

  lemma ScanEnd(u: Unicode, p: Pattern, rep: string, s: string, i: nat)
    requires i == |s|
    ensures SubFrom(u, p, rep, s, i) == ""
  {
  }

  lemma {:induction false} SubFromLeft(u: Unicode, p: Pattern, rep: string, a: string, b: string, i: nat)
    requires Sane(u) && Aligned(p) && i <= |a|
    requires Border(u, a + b, |a|) && NoStraddle(u, p, a + b, |a|)
    ensures SubFrom(u, p, rep, a + b, i) == SubFrom(u, p, rep, a, i) + Sub(u, p, rep, b)
    decreases |a| - i
  {
    assert Tail(a + b, |a|, b);
    hide FirstMatch, Border, NoStraddle, Aligned, Sane, SubFrom, Tail;
    if i == |a| {
      ScanEnd(u, p, rep, a, i);
      SubFromRight(u, p, rep, a + b, |a|, b, 0, i);
    } else {
      FirstMatchLeft(u, p, a, b, i);
      var end := FirstMatch(u, p, a, i);
      ScanStep(u, p, rep, a, i, end);
      ScanStep(u, p, rep, a + b, i, end);
      if end.Some? && i < end.value {
        assert end.value <= |a| by { MatchInside(u, p, a, i); }
        SubFromLeft(u, p, rep, a, b, end.value);
      } else {
        SubFromLeft(u, p, rep, a, b, i + 1);
      }
    }
  }

  lemma MatchInside(u: Unicode, p: Pattern, s: string, i: nat)
    ensures var j := FirstMatch(u, p, s, i); j.Some? ==> i <= j.value <= |s|
  {
    hide FirstMatch;
  }

  lemma {:induction false} SubFromRight(u: Unicode, p: Pattern, rep: string, s: string, n: nat, t: string, i: nat,
                                        k: nat)
    requires Sane(u) && Aligned(p) && i <= |t| && Tail(s, n, t) && Border(u, s, n)
    requires k == n + i && |s| == n + |t|
    ensures SubFrom(u, p, rep, s, k) == SubFrom(u, p, rep, t, i)
    decreases |t| - i
  {
    hide Border, Tail, Aligned, Sane, FirstMatch, SubFrom;
    if i == |t| {
      ScanEnd(u, p, rep, t, i);
      ScanEnd(u, p, rep, s, k);
    } else {
      TailAt(s, n, t, i);
      FirstMatchRight(u, p, s, n, t, i);
      var end := FirstMatch(u, p, t, i);
      ScanStep(u, p, rep, t, i, end);
      ScanStep(u, p, rep, s, k, Moved(end, n));
      if end.Some? && i < end.value { SubFromRight(u, p, rep, s, n, t, end.value, n + end.value); }
      else { SubFromRight(u, p, rep, s, n, t, i + 1, k + 1); }
    }
  }
}
