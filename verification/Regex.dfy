/**
 The part of Python's `re` module that the log pipeline relies on.

 A pattern has two meanings. `Accepts` says which strings belong to its language; it is
 declarative and knows nothing about search order. `Ends` is the backtracking matcher: the
 ends of all matches from one position, in the order in which a greedy engine tries them, so
 that its head is the match the engine reports. `EndsAreAccepted` connects the two, and `Sub`
 is the leftmost, non-overlapping substitution built on the matcher.
 */
module Regex {
  import opened Wrappers

  /** The character tables behind `\d`, `\w`, `\s` and case-insensitive comparison. */
  datatype Unicode = Unicode(
    digit: char -> bool,
    word: char -> bool,
    space: char -> bool,
    folds: (char, char) -> bool)  // folds(c, l): c equals the letter l when case is ignored

  predicate AsciiLetter(c: char) {
    'a' <= c <= 'z' || 'A' <= c <= 'Z'
  }

  predicate Punctuation(c: char) {
    || c == '<' || c == '>' || c == '[' || c == ']' || c == '|' || c == '#'
    || c == '-' || c == ':' || c == '.' || c == '+' || c == '=' || Blank(c)
  }

  predicate Blank(c: char) {
    c == ' ' || c == '\t' || c == '\n' || c == '\r'
  }

  /** What the proofs use of the tables; true of Unicode and, as a special case, of ASCII. */
  ghost predicate Sane(u: Unicode) {
    && (forall c {:trigger u.digit(c)} :: u.digit(c) ==> u.word(c))
    && (forall c {:trigger u.space(c)} :: u.space(c) ==> !u.word(c))
    && (forall c {:trigger u.digit(c)} :: '0' <= c <= '9' ==> u.digit(c))
    && (forall c {:trigger AsciiLetter(c)} :: AsciiLetter(c) ==> u.word(c) && !u.digit(c) && u.folds(c, c))
    && (forall c {:trigger Punctuation(c)} :: Punctuation(c) ==> !u.word(c))
    && (forall c {:trigger Punctuation(c)} :: Punctuation(c) && !Blank(c) ==> !u.space(c))
    && u.space(' ')
    && (forall c, l {:trigger u.folds(c, l)} :: u.folds(c, l) ==> u.word(c))
    && u.folds('E', 'e') && u.folds('N', 'n') && u.folds('D', 'd')
  }

  predicate AsciiDigit(c: char) {
    '0' <= c <= '9'
  }

  /** The tables restricted to ASCII. */
  function Ascii(): Unicode {
    Unicode(
      AsciiDigit,
      c => AsciiDigit(c) || AsciiLetter(c) || c == '_',
      c => '\t' <= c <= '\r' || 28 as char <= c <= ' ',
      (c, l) => AsciiLetter(c) && AsciiLetter(l) && (c == l || c as int + 32 == l as int || c as int == l as int + 32))
  }

  /** The assumptions about the tables can be met. */
  lemma AsciiIsSane()
    ensures Sane(Ascii())
  {
    var u := Ascii();
    assert forall c :: u.digit(c) == AsciiDigit(c);
    assert forall c {:trigger u.word(c)} :: u.word(c) == (AsciiDigit(c) || AsciiLetter(c) || c == '_');
    assert forall c {:trigger Punctuation(c)} :: Punctuation(c) ==> !AsciiDigit(c) && !AsciiLetter(c) && c != '_';
    assert forall c {:trigger Punctuation(c)} :: Punctuation(c) && !Blank(c) ==> !u.space(c);
  }

  /** One-character classes. */
  datatype Class =
    | Digit
    | Hex
    | Space
    | Control
    | Just(c: char)
    | AnyOf(cs: string)
    | Letter(l: char)  // the letter l, ignoring case

  predicate In(u: Unicode, k: Class, c: char) {
    match k
    case Digit => u.digit(c)
    case Hex => '0' <= c <= '9' || 'a' <= c <= 'f' || 'A' <= c <= 'F'
    case Space => u.space(c)
    case Control => (c < ' ') && c !in "\t\n\r"
    case Just(d) => c == d
    case AnyOf(cs) => c in cs
    case Letter(l) => u.folds(c, l)
  }

  /** Pattern bodies. `Run(k, lo, hi)` is `k{lo,hi}`, greedy; a missing `hi` means no limit. */
  datatype Regex =
    | Run(k: Class, lo: nat, hi: Option<nat>)
    | Then(first: Regex, second: Regex)
    | Maybe(body: Regex)
    | Either(left: Regex, right: Regex)

  /** A pattern: a body, written between two `\b` when `edges` is set. */
  datatype Pattern = Pattern(body: Regex, edges: bool)

  function One(k: Class): Regex {
    Run(k, 1, Some(1))
  }

  function Times(k: Class, n: nat): Regex {
    Run(k, n, Some(n))
  }

  function Many(k: Class): Regex {
    Run(k, 1, None)
  }

  // ----- Language -----

  ghost predicate AllIn(u: Unicode, k: Class, w: string) {
    forall i :: 0 <= i < |w| ==> In(u, k, w[i])
  }

  /** w belongs to the language of r. */
  ghost predicate Accepts(u: Unicode, r: Regex, w: string) {
    match r
    case Run(k, lo, hi) => lo <= |w| && (hi.Some? ==> |w| <= hi.value) && AllIn(u, k, w)
    case Then(a, b) => exists m :: 0 <= m <= |w| && Accepts(u, a, w[..m]) && Accepts(u, b, w[m..])
    case Maybe(a) => w == "" || Accepts(u, a, w)
    case Either(a, b) => Accepts(u, a, w) || Accepts(u, b, w)
  }

  /** Position i of s lies between a word character and a non-word character (`\b`). */
  predicate Edge(u: Unicode, s: string, i: nat) {
    (0 < i <= |s| && u.word(s[i - 1])) != (i < |s| && u.word(s[i]))
  }

  ghost predicate Matches(u: Unicode, p: Pattern, s: string, i: nat, j: nat) {
    && i <= j <= |s|
    && Accepts(u, p.body, s[i..j])
    && (p.edges ==> Edge(u, s, i) && Edge(u, s, j))
  }

  /** p matches nowhere in s. */
  ghost predicate Free(u: Unicode, p: Pattern, s: string) {
    forall i, j :: !Matches(u, p, s, i, j)
  }

  // ----- Backtracking matcher -----

  function RunLength(u: Unicode, k: Class, s: string, i: nat, hi: Option<nat>): (n: nat)
    ensures i <= |s| ==> i + n <= |s|
    ensures hi.Some? ==> n <= hi.value
    decreases |s| - i
  {
    if i < |s| && (hi.Some? ==> hi.value > 0) && In(u, k, s[i])
    then 1 + RunLength(u, k, s, i + 1, if hi.Some? then Some(hi.value - 1) else None)
    else 0
  }

  /** A greedy run takes the longest stretch of the class that its limit allows. */
  lemma {:induction false} RunLengthMaximal(u: Unicode, k: Class, s: string, i: nat, hi: Option<nat>)
    requires i <= |s|
    ensures var n := RunLength(u, k, s, i, hi);
            && (forall x :: i <= x < i + n ==> In(u, k, s[x]))
            && (i + n < |s| && (hi.Some? ==> n < hi.value) ==> !In(u, k, s[i + n]))
    decreases |s| - i
  {
    hide In;
    if i < |s| && (hi.Some? ==> hi.value > 0) && In(u, k, s[i]) {
      RunLengthMaximal(u, k, s, i + 1, if hi.Some? then Some(hi.value - 1) else None);
    }
  }

  /** [from, from - 1, ..., to]: a greedy run gives back one character at a time. */
  function Down(from: nat, to: nat): (es: seq<nat>)
    ensures forall j :: j in es <==> to <= j <= from
    decreases from + 1 - to
  {
    if from < to then [] else if from == to then [from] else [from] + Down(from - 1, to)
  }

  function Ends(u: Unicode, r: Regex, s: string, i: nat): seq<nat>
    decreases r, 0
  {
    match r
    case Run(k, lo, hi) =>
      if i <= |s| then Down(i + RunLength(u, k, s, i, hi), i + lo) else []
    case Then(a, b) => EndsAfter(u, b, s, Ends(u, a, s, i))
    case Maybe(a) => Ends(u, a, s, i) + (if i <= |s| then [i] else [])
    case Either(a, b) => Ends(u, a, s, i) + Ends(u, b, s, i)
  }

  function EndsAfter(u: Unicode, b: Regex, s: string, starts: seq<nat>): seq<nat>
    decreases b, |starts| + 1
  {
    if starts == [] then [] else Ends(u, b, s, starts[0]) + EndsAfter(u, b, s, starts[1..])
  }

  lemma RunEndsAreAccepted(u: Unicode, k: Class, lo: nat, hi: Option<nat>, s: string, i: nat, j: nat)
    ensures j in Ends(u, Run(k, lo, hi), s, i) <==> i <= j <= |s| && Accepts(u, Run(k, lo, hi), s[i..j])
  {
    hide In;
    if i <= j <= |s| {
      RunLengthMaximal(u, k, s, i, hi);
      var n := RunLength(u, k, s, i, hi);
      assert AllIn(u, k, s[i..j]) <==> forall x :: i <= x < j ==> In(u, k, s[x]) by {
        if AllIn(u, k, s[i..j]) {
          forall x | i <= x < j ensures In(u, k, s[x]) { assert s[i..j][x - i] == s[x]; }
        }
      }
    }
  }

  /** The matcher finds exactly the matches the language allows. */
  lemma {:induction false} EndsAreAccepted(u: Unicode, r: Regex, s: string, i: nat, j: nat)
    ensures j in Ends(u, r, s, i) <==> i <= j <= |s| && Accepts(u, r, s[i..j])
    decreases r, 0
  {
    match r
    case Run(k, lo, hi) => RunEndsAreAccepted(u, k, lo, hi, s, i, j);
    case Then(a, b) =>
      EndsAfterAreAccepted(u, b, s, Ends(u, a, s, i), j);
      if i <= j <= |s| {
        forall m | i <= m <= j
          ensures s[i..j][..m - i] == s[i..m] && s[i..j][m - i..] == s[m..j]
          ensures m in Ends(u, a, s, i) <==> Accepts(u, a, s[i..m])
        {
          EndsAreAccepted(u, a, s, i, m);
        }
        if Accepts(u, r, s[i..j]) {
          var m :| 0 <= m <= |s[i..j]| && Accepts(u, a, s[i..j][..m]) && Accepts(u, b, s[i..j][m..]);
          assert s[i..j][..m] == s[i..i + m] && s[i..j][m..] == s[i + m..j];
        }
      }
      forall m | m in Ends(u, a, s, i) ensures i <= m <= |s| {
        EndsAreAccepted(u, a, s, i, m);
      }
      if j in Ends(u, r, s, i) {
        var m :| m in Ends(u, a, s, i) && m <= j <= |s| && Accepts(u, b, s[m..j]);
        assert Accepts(u, a, s[i..j][..m - i]) && Accepts(u, b, s[i..j][m - i..]);
      }
    case Maybe(a) => EndsAreAccepted(u, a, s, i, j);
    case Either(a, b) =>
      EndsAreAccepted(u, a, s, i, j);
      EndsAreAccepted(u, b, s, i, j);
  }

  lemma {:induction false} EndsAfterAreAccepted(u: Unicode, b: Regex, s: string, starts: seq<nat>, j: nat)
    ensures j in EndsAfter(u, b, s, starts) <==>
            exists m :: m in starts && m <= j <= |s| && Accepts(u, b, s[m..j])
    decreases b, |starts| + 1
  {
    if starts != [] {
      EndsAreAccepted(u, b, s, starts[0], j);
      EndsAfterAreAccepted(u, b, s, starts[1..], j);
    }
  }

  /** The ends that survive the closing `\b`, in the engine's order. */
  function AtEdges(u: Unicode, s: string, es: seq<nat>): (kept: seq<nat>)
    ensures forall j :: j in kept <==> j in es && Edge(u, s, j)
  {
    if es == [] then [] else (if Edge(u, s, es[0]) then [es[0]] else []) + AtEdges(u, s, es[1..])
  }

  function MatchEnds(u: Unicode, p: Pattern, s: string, i: nat): seq<nat> {
    if !p.edges then Ends(u, p.body, s, i)
    else if Edge(u, s, i) then AtEdges(u, s, Ends(u, p.body, s, i))
    else []
  }

  /** The match the engine reports at position i, if any. */
  function FirstMatch(u: Unicode, p: Pattern, s: string, i: nat): (j: Option<nat>)
    ensures j.Some? ==> Matches(u, p, s, i, j.value)
    ensures j.None? ==> forall e :: !Matches(u, p, s, i, e)
  {
    var es := MatchEnds(u, p, s, i);
    assert forall j :: j in es <==> Matches(u, p, s, i, j) by {
      forall j { EndsAreAccepted(u, p.body, s, i, j); }
    }
    if es == [] then None else assert es[0] in es; Some(es[0])
  }

  /**
   `p.sub(rep, s)`, scanning from position i. No pattern of the pipeline accepts the empty
   string, so the engine's rule for empty matches is not needed.
   */
  function SubFrom(u: Unicode, p: Pattern, rep: string, s: string, i: nat): string
    requires i <= |s|
    decreases |s| - i
  {
    if i == |s| then "" else
    match FirstMatch(u, p, s, i)
    case Some(j) => if i < j then rep + SubFrom(u, p, rep, s, j) else [s[i]] + SubFrom(u, p, rep, s, i + 1)
    case None => [s[i]] + SubFrom(u, p, rep, s, i + 1)
  }

  function Sub(u: Unicode, p: Pattern, rep: string, s: string): string {
    SubFrom(u, p, rep, s, 0)
  }
}
