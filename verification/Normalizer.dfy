/**
 Signatures of log messages (backend/app/ingestion/normalizer.py): seven ordered substitutions
 followed by whitespace collapse.
 */
module Normalizer {
  import opened Wrappers
  import opened Regex
  import opened Substitution

  // ----- The patterns -----

  function Digits(n: nat): Regex { Times(Digit, n) }

  function Lit(c: char): Regex { One(Just(c)) }

  function DateBody(): Regex {
    Then(Digits(4), Then(Lit('-'), Then(Digits(2), Then(Lit('-'), Digits(2)))))
  }

  function Fraction(): Regex {
    Maybe(Then(Lit('.'), Many(Digit)))
  }

  function ClockBody(): Regex {
    Then(Digits(2), Then(Lit(':'), Then(Digits(2), Then(Lit(':'), Then(Digits(2), Fraction())))))
  }

  function Zone(): Regex {
    Maybe(Either(Lit('Z'), Then(One(AnyOf("+-")), Then(Digits(2), Then(Maybe(Lit(':')), Digits(2))))))
  }

  function TimestampBody(): Regex {
    Then(DateBody(), Then(One(AnyOf("T ")), Then(ClockBody(), Zone())))
  }

  function HexGroup(n: nat): Regex { Times(Hex, n) }

  function UuidBody(): Regex {
    Then(HexGroup(8), Then(Lit('-'), Then(HexGroup(4), Then(Lit('-'),
      Then(HexGroup(4), Then(Lit('-'), Then(HexGroup(4), Then(Lit('-'), HexGroup(12)))))))))
  }

  function Octet(): Regex { Run(Digit, 1, Some(3)) }

  function IpBody(): Regex {
    Then(Octet(), Then(Lit('.'), Then(Octet(), Then(Lit('.'), Then(Octet(), Then(Lit('.'), Octet()))))))
  }

  function HexBody(): Regex {
    Then(Lit('0'), Then(One(AnyOf("xX")), Many(Hex)))
  }

  function NumBody(): Regex {
    Then(Many(Digit), Fraction())
  }

  function Spaces(): Pattern { Pattern(Many(Space), false) }

  datatype Substitute = Substitute(body: Regex, placeholder: string) {
    function P(): Pattern { Pattern(body, true) }
  }

  /** In the order of the source: IP and hex before plain numbers. */
  function Substitutions(): (subs: seq<Substitute>)
    ensures |subs| == 7
  {
    [ Substitute(TimestampBody(), "<TIMESTAMP>"),
      Substitute(DateBody(), "<TIMESTAMP>"),
      Substitute(ClockBody(), "<TIMESTAMP>"),
      Substitute(UuidBody(), "<UUID>"),
      Substitute(IpBody(), "<IP>"),
      Substitute(HexBody(), "<HEX>"),
      Substitute(NumBody(), "<NUM>") ]
  }

  // ----- The signature -----

  /** Pass n. */
  function Pass(u: Unicode, n: nat, s: string): string
    requires n < 7
  {
    Sub(u, Substitutions()[n].P(), Substitutions()[n].placeholder, s)
  }

  /** The text after the first n passes. */
  function Passes(u: Unicode, message: string, n: nat): string
    requires n <= 7
  {
    if n == 0 then message
    else Pass(u, n - 1, Passes(u, message, n - 1))
  }

  function StripLeft(u: Unicode, s: string): string {
    if s != "" && u.space(s[0]) then StripLeft(u, s[1..]) else s
  }

  function StripRight(u: Unicode, s: string): string {
    if s != "" && u.space(s[|s| - 1]) then StripRight(u, s[..|s| - 1]) else s
  }

  function Strip(u: Unicode, s: string): string {
    StripRight(u, StripLeft(u, s))
  }

  function Collapse(u: Unicode, s: string): string {
    Sub(u, Spaces(), " ", s)
  }

  function Signature(u: Unicode, message: string): string {
    Strip(u, Collapse(u, Passes(u, message, 7)))
  }

  method GenerateSignature(u: Unicode, message: string) returns (signature: string)
    ensures signature == Signature(u, message)
  {
    signature := message;
    var subs := Substitutions();
    for n := 0 to |subs|
      invariant signature == Passes(u, message, n)
    {
      signature := Sub(u, subs[n].P(), subs[n].placeholder, signature);
    }
    signature := Strip(u, Collapse(u, signature));
  }

  // ----- Shape of the seven patterns -----

  /** Classes from which every string of the language contains a character. */
  function Mandatory(r: Regex): set<Class> {
    match r
    case Run(k, lo, _) => if lo > 0 then {k} else {}
    case Then(a, b) => Mandatory(a) + Mandatory(b)
    case Maybe(_) => {}
    case Either(a, b) => Mandatory(a) * Mandatory(b)
  }

  lemma {:induction false} MandatorySound(u: Unicode, r: Regex, w: string, k: Class)
    requires Accepts(u, r, w) && k in Mandatory(r)
    ensures exists i :: 0 <= i < |w| && In(u, k, w[i])
  {
    hide In;
    match r
    case Run(_, _, _) => assert In(u, k, w[0]);
    case Then(a, b) =>
      var m := ThenSplits(u, a, b, w);
      if k in Mandatory(a) {
        MandatorySound(u, a, w[..m], k);
        var i :| 0 <= i < m && In(u, k, w[..m][i]);
        assert w[..m][i] == w[i];
      } else {
        MandatorySound(u, b, w[m..], k);
        var i :| 0 <= i < |w| - m && In(u, k, w[m..][i]);
        assert w[m..][i] == w[m + i];
      }
    case Either(a, b) =>
      if Accepts(u, a, w) { MandatorySound(u, a, w, k); } else { MandatorySound(u, b, w, k); }
  }

  /** A class every match of pass n needs, and a placeholder never has. */
  function Telltale(n: nat): Class
    requires n < 7
  {
    if n == 3 then Just('-') else if n == 5 then Just('0') else Digit
  }

  /** A class every match of pass n < 6 needs, and an integer never has. */
  function NonDigit(n: nat): Class
    requires n < 6
  {
    if n == 2 then Just(':') else if n == 4 then Just('.') else if n == 5 then AnyOf("xX") else Just('-')
  }

  lemma PassEnds(n: nat)
    requires n < 7
    ensures var r := Substitutions()[n].body; StartsInWord(r) && EndsInWord(r)
  {
  }

  lemma PassNotEmpty(n: nat)
    requires n < 7
    ensures !Nullable(Substitutions()[n].body)
  {
  }

  lemma PassMandatory(n: nat)
    requires n < 7
    ensures var m := Mandatory(Substitutions()[n].body); Telltale(n) in m && (n < 6 ==> NonDigit(n) in m)
  {
  }

  lemma PassShape(n: nat)
    requires n < 7
    ensures var r := Substitutions()[n].body;
            && !Nullable(r) && StartsInWord(r) && EndsInWord(r)
            && Telltale(n) in Mandatory(r) && (n < 6 ==> NonDigit(n) in Mandatory(r))
  {
    hide *;
    PassNotEmpty(n);
    PassEnds(n);
    PassMandatory(n);
  }

  /** The classes of pass n; only the first pass knows the space, inside `[T ]`. */
  lemma PassClasses(n: nat)
    requires n < 7
    ensures Classes(Substitutions()[n].body) <=
            {Digit, Hex, Just('-'), Just(':'), Just('.'), Just('0'), Just('Z'), AnyOf("+-"), AnyOf("xX")}
            + (if n == 0 then {AnyOf("T ")} else {})
  {
  }

  lemma PassAlphabet(u: Unicode, n: nat, c: char)
    requires Sane(u) && n < 7
    requires !u.word(c) && c !in "-:.+"
    ensures Uses(u, Substitutions()[n].body, c) ==> n == 0 && c == ' '
  {
    hide Substitutions, Classes;
    PassClasses(n);
    if Uses(u, Substitutions()[n].body, c) {
      var k :| k in Classes(Substitutions()[n].body) && In(u, k, c);
      assert AsciiLetter('T') && AsciiLetter('Z') && AsciiLetter('x') && AsciiLetter('X');
      assert u.digit('0');
      assert AsciiLetter(c) || u.digit(c) || c == ' ' || c in "-:.+";
    }
  }

  // ----- No pattern survives -----

  /** Nothing the normalizer looks for occurs in s. */
  ghost predicate PatternFree(u: Unicode, s: string) {
    forall n :: 0 <= n < 7 ==> Free(u, Substitutions()[n].P(), s)
  }

  lemma AlignedCutsAtBorders(u: Unicode, q: Pattern)
    requires Sane(u) && Aligned(q)
    ensures CutsAtBorders(u, q)
  {
    forall s, i: nat, j: nat | Matches(u, q, s, i, j)
      ensures Border(u, s, i) && Border(u, s, j)
    {
      AlignedMatch(u, q, s, i, j);
    }
  }

  predicate PlaceholderChar(c: char) {
    'A' <= c <= 'Z' || c == '<' || c == '>'
  }

  lemma PlainIsFree(u: Unicode, n: nat, t: string)
    requires Sane(u) && n < 7
    requires forall x :: 0 <= x < |t| ==> PlaceholderChar(t[x])
    ensures Free(u, Substitutions()[n].P(), t)
  {
    var p := Substitutions()[n].P();
    PassShape(n);
    assert forall x :: 0 <= x < |t| ==> AsciiLetter(t[x]) || Punctuation(t[x]);
    hide Substitutions;
    forall i: nat, j: nat ensures !Matches(u, p, t, i, j) {
      if Matches(u, p, t, i, j) {
        MandatorySound(u, p.body, t[i..j], Telltale(n));
      }
    }
  }

  lemma PlaceholderInert(u: Unicode, n: nat, m: nat)
    requires Sane(u) && n < 7 && m < 7
    ensures Inert(u, Substitutions()[n].P(), Substitutions()[m].placeholder)
  {
    var rep := Substitutions()[m].placeholder;
    assert rep != "" && rep[0] == '<' && rep[|rep| - 1] == '>';
    assert forall x :: 0 <= x < |rep| ==> PlaceholderChar(rep[x]);
    hide Substitutions;
    assert Punctuation('<') && Punctuation('>');
    PassAlphabet(u, n, '<');
    PassAlphabet(u, n, '>');
    PlainIsFree(u, n, rep);
  }

  /** After pass n, patterns 0 to n - 1 are gone. */
  lemma {:induction false} PassesFree(u: Unicode, message: string, n: nat, k: nat)
    requires Sane(u) && k < n <= 7
    ensures Free(u, Substitutions()[k].P(), Passes(u, message, n))
  {
    if k < n - 1 { PassesFree(u, message, n - 1, k); }
    PassShape(k);
    PassShape(n - 1);
    AlignedCutsAtBorders(u, Substitutions()[n - 1].P());
    PlaceholderInert(u, k, n - 1);
    SubKeepsFree(u, Substitutions()[k].P(), Substitutions()[n - 1].P(),
                 Substitutions()[n - 1].placeholder, Passes(u, message, n - 1));
  }

  // The one pattern that can match across a space contains a number before it.
  lemma TimestampHasNumber(u: Unicode, s: string, i: nat, j: nat)
    requires Sane(u) && Matches(u, Substitutions()[0].P(), s, i, j)
    ensures Matches(u, Substitutions()[6].P(), s, i, i + 4)
  {
    var w := s[i..j];
    var m :| 0 <= m <= |w| && Accepts(u, DateBody(), w[..m]);
    var d := w[..m];
    var x :| 0 <= x <= |d| && Accepts(u, Digits(4), d[..x])
             && Accepts(u, Then(Lit('-'), Then(Digits(2), Then(Lit('-'), Digits(2)))), d[x..]);
    var e := d[x..];
    var y :| 0 <= y <= |e| && Accepts(u, Lit('-'), e[..y]);
    assert |d[..x]| == 4 && |e[..y]| == 1;
    assert e[..y][0] == '-' && e[0] == '-';
    assert e[0] == d[4] == w[4] == s[i + 4];
    assert Punctuation('-');
    var year := s[i..i + 4];
    forall z | 0 <= z < 4 ensures year[z] == d[..x][z] && In(u, Digit, year[z]) {
      assert w[z] == s[i + z] && d[z] == w[z];
    }
    assert In(u, Digit, year[0]) && In(u, Digit, year[3]);
    assert year[..4] == year && year[4..] == "";
    assert Accepts(u, Many(Digit), year[..4]) && Accepts(u, Fraction(), year[4..]);
    assert Accepts(u, NumBody(), year);
  }

  lemma SpaceInert(u: Unicode, n: nat)
    requires Sane(u) && 0 < n < 7
    ensures Inert(u, Substitutions()[n].P(), " ")
  {
    assert Punctuation(' ');
    PassShape(n);
    PassAlphabet(u, n, ' ');
    var p := Substitutions()[n].P();
    forall i: nat, j: nat ensures !Matches(u, p, " ", i, j) {
      assert !Edge(u, " ", i);
    }
  }

  lemma SpacesCutAtBorders(u: Unicode)
    requires Sane(u)
    ensures CutsAtBorders(u, Spaces())
  {
    forall s, i: nat, j: nat | Matches(u, Spaces(), s, i, j)
      ensures Border(u, s, i) && Border(u, s, j)
    {
      assert In(u, Space, s[i..j][0]) && In(u, Space, s[i..j][j - i - 1]);
    }
  }

  lemma CollapseKeepsFree(u: Unicode, s: string)
    requires Sane(u) && PatternFree(u, s)
    ensures PatternFree(u, Collapse(u, s))
  {
    var t := Collapse(u, s);
    SpacesCutAtBorders(u);
    forall n | 0 < n < 7 ensures Free(u, Substitutions()[n].P(), t) {
      PassShape(n);
      SpaceInert(u, n);
      SubKeepsFree(u, Substitutions()[n].P(), Spaces(), " ", s);
    }
    forall i: nat, j: nat ensures !Matches(u, Substitutions()[0].P(), t, i, j) {
      if Matches(u, Substitutions()[0].P(), t, i, j) { TimestampHasNumber(u, t, i, j); }
    }
  }

  lemma PieceKeepsFree(u: Unicode, s: string, k: nat, n: nat)
    requires Sane(u) && PatternFree(u, s)
    requires k <= n <= |s| && Border(u, s, k) && Border(u, s, n)
    ensures PatternFree(u, s[k..n])
  {
    forall x | 0 <= x < 7 ensures Free(u, Substitutions()[x].P(), s[k..n]) {
      PassShape(x);
      FreePiece(u, Substitutions()[x].P(), s, k, n);
    }
  }

  lemma {:induction false} StripLeftKeepsFree(u: Unicode, s: string)
    requires Sane(u) && PatternFree(u, s)
    ensures PatternFree(u, StripLeft(u, s))
  {
    if s != "" && u.space(s[0]) {
      PieceKeepsFree(u, s, 1, |s|);
      assert s[1..|s|] == s[1..];
      StripLeftKeepsFree(u, s[1..]);
    }
  }

  lemma {:induction false} StripRightKeepsFree(u: Unicode, s: string)
    requires Sane(u) && PatternFree(u, s)
    ensures PatternFree(u, StripRight(u, s))
  {
    if s != "" && u.space(s[|s| - 1]) {
      PieceKeepsFree(u, s, 0, |s| - 1);
      assert s[0..|s| - 1] == s[..|s| - 1];
      StripRightKeepsFree(u, s[..|s| - 1]);
    }
  }

  /** None of the seven patterns matches anywhere in a signature. */
  lemma SignatureIsPatternFree(u: Unicode, message: string)
    requires Sane(u)
    ensures PatternFree(u, Signature(u, message))
  {
    var t := Passes(u, message, 7);
    forall n | 0 <= n < 7 ensures Free(u, Substitutions()[n].P(), t) {
      PassesFree(u, message, 7, n);
    }
    CollapseKeepsFree(u, t);
    StripLeftKeepsFree(u, Collapse(u, t));
    StripRightKeepsFree(u, StripLeft(u, Collapse(u, t)));
  }

  // ----- Whitespace -----

  /** The only white space is single blanks. */
  ghost predicate Collapsed(u: Unicode, s: string) {
    && (forall i :: 0 <= i < |s| && u.space(s[i]) ==> s[i] == ' ')
    && (forall i :: 0 < i < |s| ==> !(u.space(s[i - 1]) && u.space(s[i])))
  }

  lemma SpacesMatch(u: Unicode, s: string, i: nat)
    requires i < |s|
    ensures var len := RunLength(u, Space, s, i, None);
            FirstMatch(u, Spaces(), s, i) == if len == 0 then None else Some(i + len)
  {
  }

  lemma CollapsedCons(u: Unicode, c: char, rest: string)
    requires Collapsed(u, rest) && (u.space(c) ==> c == ' ' && (rest != "" ==> !u.space(rest[0])))
    ensures Collapsed(u, [c] + rest)
  {
    var t := [c] + rest;
    forall i | 0 < i < |t| ensures !(u.space(t[i - 1]) && u.space(t[i])) {
      if i > 1 { assert !(u.space(rest[i - 2]) && u.space(rest[i - 1])); }
    }
  }

  lemma {:induction false} CollapseShape(u: Unicode, s: string, i: nat)
    requires Sane(u) && i <= |s|
    ensures var t := SubFrom(u, Spaces(), " ", s, i);
            && Collapsed(u, t)
            && (t != "" && u.space(t[0]) ==> i < |s| && u.space(s[i]))
    decreases |s| - i
  {
    if i < |s| {
      var len := RunLength(u, Space, s, i, None);
      var next := if len == 0 then i + 1 else i + len;
      CollapseStep(u, s, i, len);
      hide Collapsed, Sane, SubFrom;
      CollapseShape(u, s, next);
      CollapsedCons(u, if len == 0 then s[i] else ' ', SubFrom(u, Spaces(), " ", s, next));
    }
  }

  lemma CollapseStep(u: Unicode, s: string, i: nat, len: nat)
    requires i < |s| && len == RunLength(u, Space, s, i, None)
    ensures var next := if len == 0 then i + 1 else i + len;
            && SubFrom(u, Spaces(), " ", s, i) ==
               [if len == 0 then s[i] else ' '] + SubFrom(u, Spaces(), " ", s, next)
            && (len == 0 <==> !u.space(s[i]))
            && (len > 0 && next < |s| ==> !u.space(s[next]))
  {
    hide FirstMatch, RunLength, In;
    SpacesMatch(u, s, i);
    SpaceRun(u, s, i, len);
  }

  lemma SpaceRun(u: Unicode, s: string, i: nat, len: nat)
    requires i < |s| && len == RunLength(u, Space, s, i, None)
    ensures len <= |s| - i && (len == 0 <==> !u.space(s[i])) && (len > 0 && i + len < |s| ==> !u.space(s[i + len]))
  {
    RunLengthMaximal(u, Space, s, i, None);
    hide RunLength;
    assert len > 0 ==> In(u, Space, s[i]);
  }

  lemma {:induction false} CollapseOfCollapsed(u: Unicode, s: string, i: nat)
    requires Collapsed(u, s) && i <= |s|
    ensures SubFrom(u, Spaces(), " ", s, i) == s[i..]
    decreases |s| - i
  {
    hide RunLength, SubFrom, Collapsed;
    if i == |s| { CollapseAtEnd(u, s); }
    else {
      var len := RunLength(u, Space, s, i, None);
      CollapseStep(u, s, i, len);
      CollapsedRun(u, s, i, len);
      CollapseOfCollapsed(u, s, i + 1);
    }
  }

  lemma CollapseAtEnd(u: Unicode, s: string)
    ensures SubFrom(u, Spaces(), " ", s, |s|) == ""
  {
  }

  /** Runs of white space in a collapsed text are single blanks. */
  lemma CollapsedRun(u: Unicode, s: string, i: nat, len: nat)
    requires Collapsed(u, s) && i < |s| && len == RunLength(u, Space, s, i, None)
    ensures len <= 1 && (len == 1 ==> s[i] == ' ')
  {
    RunLengthMaximal(u, Space, s, i, None);
    hide RunLength;
    assert len > 0 ==> In(u, Space, s[i]);
    assert len > 1 ==> In(u, Space, s[i + 1]);
  }

  ghost predicate Stripped(u: Unicode, s: string) {
    s != "" ==> !u.space(s[0]) && !u.space(s[|s| - 1])
  }

  lemma {:induction false} StripLeftShape(u: Unicode, s: string)
    requires Collapsed(u, s)
    ensures var t := StripLeft(u, s); Collapsed(u, t) && (t != "" ==> !u.space(t[0]))
  {
    if s != "" && u.space(s[0]) { StripLeftShape(u, s[1..]); }
  }

  lemma {:induction false} StripRightShape(u: Unicode, s: string)
    requires Collapsed(u, s) && (s != "" ==> !u.space(s[0]))
    ensures Collapsed(u, StripRight(u, s)) && Stripped(u, StripRight(u, s))
  {
    if s != "" && u.space(s[|s| - 1]) { StripRightShape(u, s[..|s| - 1]); }
  }

  /** A signature has no white space at its ends and only single blanks inside. */
  lemma SignatureIsCollapsed(u: Unicode, message: string)
    requires Sane(u)
    ensures var s := Signature(u, message); Collapsed(u, s) && Stripped(u, s)
  {
    CollapseShape(u, Passes(u, message, 7), 0);
    StripLeftShape(u, Collapse(u, Passes(u, message, 7)));
    StripRightShape(u, StripLeft(u, Collapse(u, Passes(u, message, 7))));
  }

  // ----- Idempotence -----

  lemma {:induction false} PassesOfFree(u: Unicode, s: string, n: nat)
    requires PatternFree(u, s) && n <= 7
    ensures Passes(u, s, n) == s
  {
    if n > 0 {
      PassesOfFree(u, s, n - 1);
      SubOfFree(u, Substitutions()[n - 1].P(), Substitutions()[n - 1].placeholder, s, 0);
    }
  }

  /** Exactly the pattern-free, collapsed and stripped strings are their own signature. */
  lemma SignatureFixpoint(u: Unicode, s: string)
    requires Sane(u)
    ensures Signature(u, s) == s <==> PatternFree(u, s) && Collapsed(u, s) && Stripped(u, s)
  {
    if PatternFree(u, s) && Collapsed(u, s) && Stripped(u, s) {
      PassesOfFree(u, s, 7);
      CollapseOfCollapsed(u, s, 0);
    }
    if Signature(u, s) == s {
      SignatureIsPatternFree(u, s);
      SignatureIsCollapsed(u, s);
    }
  }

  /** Signing a signature changes nothing. */
  lemma SignatureIdempotent(u: Unicode, message: string)
    requires Sane(u)
    ensures Signature(u, Signature(u, message)) == Signature(u, message)
  {
    SignatureIsPatternFree(u, message);
    SignatureIsCollapsed(u, message);
    SignatureFixpoint(u, Signature(u, message));
  }
}
