/**
 Tokens inside messages. A delimited token of any of the seven kinds becomes the placeholder of its kind, the
 text on its two sides is treated as if it stood alone, and so messages that differ only in such tokens have
 the same signature (backend/app/ingestion/normalizer.py:3-5).
 */
module Tokens {
  import opened Wrappers
  import opened Regex
  import opened Substitution
  import opened Greedy
  import opened Normalizer
  import opened Shapes

  // ----- The engine's choice -----

  lemma PatternDecided(u: Unicode, n: nat)
    requires Sane(u) && n < 7
    ensures Decided(u, Substitutions()[n].body)
  {
    hide TimestampBody, DateBody, ClockBody, UuidBody, IpBody, HexBody, NumBody, Decided;
    match n
    case 0 => TimestampDecided(u);
    case 1 => DateDecided(u);
    case 2 => ClockDecided(u);
    case 3 => UuidDecided(u);
    case 4 => IpDecided(u);
    case 5 => HexDecided(u);
    case _ => NumberDecided(u);
  }

  /** A part of fixed length never goes on. */
  lemma FixedThen(u: Unicode, k: Class, n: nat, b: Regex)
    requires Decided(u, b) && n > 0
    ensures var r := Then(Times(k, n), b);
            Decided(u, r) && Continues(r) == Continues(b) && Firsts(r) == {k} && !Nullable(r)
  {
    hide In;
    assert Continues(Times(k, n)) == {};
  }

  lemma DateDecided(u: Unicode)
    ensures Decided(u, DateBody()) && Continues(DateBody()) == {}
  {
    hide Decided, Continues;
    FixedDecided(u, Digit, 2);
    FixedThen(u, Just('-'), 1, Digits(2));
    FixedThen(u, Digit, 2, Then(Lit('-'), Digits(2)));
    FixedThen(u, Just('-'), 1, Then(Digits(2), Then(Lit('-'), Digits(2))));
    FixedThen(u, Digit, 4, Then(Lit('-'), Then(Digits(2), Then(Lit('-'), Digits(2)))));
  }

  lemma FixedDecided(u: Unicode, k: Class, n: nat)
    ensures Decided(u, Times(k, n)) && Continues(Times(k, n)) == {}
  {
  }

  lemma UuidDecided(u: Unicode)
    ensures Decided(u, UuidBody())
  {
    hide Decided, Continues;
    FixedDecided(u, Hex, 12);
    var r1 := Then(Lit('-'), HexGroup(12));
    FixedThen(u, Just('-'), 1, HexGroup(12));
    FixedThen(u, Hex, 4, r1);
    var r2 := Then(Lit('-'), Then(HexGroup(4), r1));
    FixedThen(u, Just('-'), 1, Then(HexGroup(4), r1));
    FixedThen(u, Hex, 4, r2);
    var r3 := Then(Lit('-'), Then(HexGroup(4), r2));
    FixedThen(u, Just('-'), 1, Then(HexGroup(4), r2));
    FixedThen(u, Hex, 4, r3);
    FixedThen(u, Just('-'), 1, Then(HexGroup(4), r3));
    FixedThen(u, Hex, 8, Then(Lit('-'), Then(HexGroup(4), r3)));
    UuidParts();
  }

  lemma HexDecided(u: Unicode)
    ensures Decided(u, HexBody())
  {
    hide In;
    FixedThen(u, AnyOf("xX"), 1, Many(Hex));
    FixedThen(u, Just('0'), 1, Then(One(AnyOf("xX")), Many(Hex)));
  }

  lemma DotApart(u: Unicode)
    requires Sane(u)
    ensures Apart(u, {Digit}, {Just('.')})
  {
    assert Punctuation('.');
  }

  lemma FractionDecided(u: Unicode)
    ensures Decided(u, Fraction()) && Continues(Fraction()) == {Digit, Just('.')}
    ensures Firsts(Fraction()) == {Just('.')} && Nullable(Fraction())
  {
    hide In;
    FixedThen(u, Just('.'), 1, Many(Digit));
  }

  lemma NumberDecided(u: Unicode)
    requires Sane(u)
    ensures Decided(u, NumBody())
  {
    hide In, Fraction, Sane, Apart;
    FractionDecided(u);
    DotApart(u);
    assert Continues(Many(Digit)) == {Digit};
  }

  lemma {:induction false} TailDecided(u: Unicode, k: nat)
    requires Sane(u) && k < 4
    ensures Decided(u, IpTail(k))
  {
    hide In, Sane, Apart;
    if k > 0 {
      TailDecided(u, k - 1);
      FixedThen(u, Just('.'), 1, IpTail(k - 1));
      DotApart(u);
      assert Continues(Octet()) == {Digit};
    }
  }

  lemma IpDecided(u: Unicode)
    requires Sane(u)
    ensures Decided(u, IpBody())
  {
    IpParts();
    hide IpBody, Decided;
    TailDecided(u, 3);
  }

  lemma ClockDecided(u: Unicode)
    ensures Decided(u, ClockBody()) && Continues(ClockBody()) == {Digit, Just('.')}
  {
    hide Decided, Continues, Fraction;
    FractionDecided(u);
    var r1 := Then(Digits(2), Fraction());
    FixedThen(u, Digit, 2, Fraction());
    FixedThen(u, Just(':'), 1, r1);
    FixedThen(u, Digit, 2, Then(Lit(':'), r1));
    FixedThen(u, Just(':'), 1, Then(Digits(2), Then(Lit(':'), r1)));
    FixedThen(u, Digit, 2, Then(Lit(':'), Then(Digits(2), Then(Lit(':'), r1))));
  }

  lemma ColonApart(u: Unicode)
    requires Sane(u)
    ensures Apart(u, {Just(':')}, {Digit}) && Apart(u, {Just('Z')}, {AnyOf("+-")})
  {
    assert Punctuation(':');
  }

  lemma EitherDecided(u: Unicode, a: Regex, b: Regex)
    requires Decided(u, a) && Decided(u, b) && !Nullable(a) && !Nullable(b) && Apart(u, Firsts(a), Firsts(b))
    ensures Decided(u, Maybe(Either(a, b))) && Firsts(Maybe(Either(a, b))) == Firsts(a) + Firsts(b)
  {
    hide In, Apart;
    assert Decided(u, Either(a, b));
  }

  lemma ZoneDecided(u: Unicode)
    requires Sane(u)
    ensures Decided(u, Zone()) && Firsts(Zone()) == {Just('Z'), AnyOf("+-")}
  {
    hide In, Sane, Apart;
    ColonApart(u);
    FixedDecided(u, Digit, 2);
    FixedDecided(u, Just(':'), 1);
    var offset := Then(Maybe(Lit(':')), Digits(2));
    assert Continues(Maybe(Lit(':'))) == {Just(':')};
    assert Decided(u, offset) && !Nullable(offset);
    FixedThen(u, Digit, 2, offset);
    FixedThen(u, AnyOf("+-"), 1, Then(Digits(2), offset));
    EitherDecided(u, Lit('Z'), Then(One(AnyOf("+-")), Then(Digits(2), offset)));
  }

  lemma ZoneApart(u: Unicode)
    requires Sane(u)
    ensures Apart(u, {Digit, Just('.')}, {Just('Z'), AnyOf("+-")})
  {
    assert Punctuation('+') && Punctuation('-') && AsciiLetter('Z');
  }

  lemma TimestampDecided(u: Unicode)
    requires Sane(u)
    ensures Decided(u, TimestampBody())
  {
    hide DateBody, ClockBody, Zone, In, Sane, Continues, Firsts;
    DateDecided(u);
    ClockDecided(u);
    ZoneDecided(u);
    ZoneApart(u);
    ThenDecided(u, ClockBody(), Zone());
    FixedThen(u, AnyOf("T "), 1, Then(ClockBody(), Zone()));
    ThenDecided(u, DateBody(), Then(One(AnyOf("T ")), Then(ClockBody(), Zone())));
  }

  lemma ThenDecided(u: Unicode, a: Regex, b: Regex)
    requires Decided(u, a) && Decided(u, b) && Apart(u, Continues(a), Firsts(b))
    ensures Decided(u, Then(a, b))
  {
  }

  /** Every pass replaces the leftmost token of its kind, the longest at its place, and so on to the right. */
  lemma PassReplaces(u: Unicode, n: nat, s: string, t: string)
    requires Sane(u) && n < 7
    ensures t == Pass(u, n, s) <==>
            Replaced(u, Substitutions()[n].P(), Substitutions()[n].placeholder, s, 0, t)
  {
    hide Substitutions, Replaced, Decided, Sub;
    PatternDecided(u, n);
    PassNotEmpty(n);
    PassFromStart(u, n, s);
    SubReplaces(u, Substitutions()[n].P(), Substitutions()[n].placeholder, s, 0, t);
  }

  lemma PassFromStart(u: Unicode, n: nat, s: string)
    requires n < 7
    ensures Pass(u, n, s) == SubFrom(u, Substitutions()[n].P(), Substitutions()[n].placeholder, s, 0)
  {
    hide Substitutions, SubFrom;
  }

  // ----- A token alone -----

  lemma TokenMatches(u: Unicode, n: nat, t: string)
    requires Sane(u) && n < 7 && IsToken(u, n, t)
    ensures t != "" && Matches(u, Substitutions()[n].P(), t, 0, |t|)
    ensures u.word(t[0]) && u.word(t[|t| - 1])
  {
    hide Substitutions, IsToken, Accepts;
    var p := Substitutions()[n].P();
    TokenLanguage(u, n, t);
    PassShape(n);
    StartsInWordSound(u, p.body, t);
    EndsInWordSound(u, p.body, t);
    assert t[0..|t|] == t;
  }

  /** The pass of its kind replaces a token as a whole. */
  lemma TokenIsReplaced(u: Unicode, n: nat, t: string)
    requires Sane(u) && n < 7 && IsToken(u, n, t)
    ensures Pass(u, n, t) == Substitutions()[n].placeholder
  {
    hide Substitutions, IsToken, Matches, Decided, SubFrom;
    var p, rep := Substitutions()[n].P(), Substitutions()[n].placeholder;
    TokenMatches(u, n, t);
    PatternDecided(u, n);
    PassFromStart(u, n, t);
    forall e: nat | Matches(u, p, t, 0, e) ensures e <= |t| { MatchEnd(u, p, t, 0, e); }
    ReplacesNext(u, p, rep, t, 0, 0, |t|);
    ScanEnd(u, p, rep, t, |t|);
  }

  lemma MatchEnd(u: Unicode, p: Pattern, s: string, i: nat, e: nat)
    requires Matches(u, p, s, i, e)
    ensures e <= |s|
  {
  }

  // ----- Tokens of one kind hold none of an earlier kind -----

  /** The characters of a token of kind n, timestamps excepted. */
  predicate TokenChar(u: Unicode, n: nat, c: char) {
    match n
    case 1 => u.digit(c) || c == '-'
    case 2 => u.digit(c) || c == ':' || c == '.'
    case 3 => HexDigit(c) || c == '-'
    case 5 => HexDigit(c) || c == 'x' || c == 'X'
    case _ => u.digit(c) || c == '.'
  }

  ghost predicate OnlyTokenChars(u: Unicode, n: nat, t: string) {
    forall i :: 0 <= i < |t| ==> TokenChar(u, n, t[i])
  }

  lemma TokenAlphabet(u: Unicode, n: nat, t: string)
    requires 1 <= n < 7 && IsToken(u, n, t)
    ensures OnlyTokenChars(u, n, t)
  {
    hide IsIp, IsClock, IsNumber;
    match n
    case 2 => ClockAlphabet(u, t);
    case 4 => IpAlphabet(u, t);
    case 6 => NumberAlphabet(u, t);
    case _ =>
  }

  lemma ClockAlphabet(u: Unicode, t: string)
    requires IsClock(u, t)
    ensures OnlyTokenChars(u, 2, t)
  {
    assert forall i :: 0 <= i < 8 ==> t[..8][i] == t[i];
    assert forall i :: 8 <= i < |t| ==> t[i] == t[8..][i - 8];
    assert forall i :: 9 <= i < |t| ==> t[i] == t[8..][1..][i - 9];
  }

  lemma CharsAppend(u: Unicode, n: nat, a: string, b: string)
    requires OnlyTokenChars(u, n, a) && OnlyTokenChars(u, n, b)
    ensures OnlyTokenChars(u, n, a + b)
  {
  }

  lemma IpAlphabet(u: Unicode, t: string)
    requires IsIp(u, t)
    ensures OnlyTokenChars(u, 4, t)
  {
    var a, b, c, d :| IsOctet(u, a) && IsOctet(u, b) && IsOctet(u, c) && IsOctet(u, d) &&
      t == a + ("." + (b + ("." + (c + ("." + d)))));
    assert OnlyTokenChars(u, 4, a) && OnlyTokenChars(u, 4, b) && OnlyTokenChars(u, 4, c) && OnlyTokenChars(u, 4, d);
    assert OnlyTokenChars(u, 4, ".");
    hide OnlyTokenChars, IsOctet;
    CharsAppend(u, 4, ".", d);
    CharsAppend(u, 4, c, "." + d);
    CharsAppend(u, 4, ".", c + ("." + d));
    CharsAppend(u, 4, b, "." + (c + ("." + d)));
    CharsAppend(u, 4, ".", b + ("." + (c + ("." + d))));
    CharsAppend(u, 4, a, "." + (b + ("." + (c + ("." + d)))));
  }

  lemma NumberAlphabet(u: Unicode, t: string)
    requires IsNumber(u, t)
    ensures OnlyTokenChars(u, 6, t)
  {
    var h, f :| Integer(u, h) && IsFraction(u, f) && t == h + f;
    assert forall i :: 1 <= i < |f| ==> f[i] == f[1..][i - 1];
    assert OnlyTokenChars(u, 6, h) && OnlyTokenChars(u, 6, f);
  }

  /** A class that every token of kind m has and no token of the later kind n. */
  function Lacking(m: nat, n: nat): Class {
    if n == 2 then Just('-') else if m == 0 || m == 2 then Just(':') else if m == 4 then Just('.')
    else if m == 5 then AnyOf("xX") else Just('-')
  }

  /** The pairs of kinds that the characters do not tell apart. */
  predicate Alike(m: nat, n: nat) {
    (m == 1 && n == 3) || (m == 4 && n == 6)
  }

  lemma LackingMandatory(m: nat, n: nat)
    requires m < n < 7 && !Alike(m, n)
    ensures Lacking(m, n) in Mandatory(Substitutions()[m].body)
  {
  }

  lemma LackingMissing(u: Unicode, m: nat, n: nat, c: char)
    requires Sane(u) && m < n < 7 && !Alike(m, n) && TokenChar(u, n, c)
    ensures !In(u, Lacking(m, n), c)
  {
    assert Punctuation('-') && Punctuation(':') && Punctuation('.') && AsciiLetter('x') && AsciiLetter('X');
  }

  lemma TokenHasNoEarlier(u: Unicode, m: nat, n: nat, t: string)
    requires Sane(u) && m < n < 7 && IsToken(u, n, t)
    ensures Free(u, Substitutions()[m].P(), t)
  {
    hide Substitutions, IsToken, Mandatory, Lacking, Accepts, TokenChar;
    var p := Substitutions()[m].P();
    TokenAlphabet(u, n, t);
    forall i: nat, j: nat ensures !Matches(u, p, t, i, j) {
      if Matches(u, p, t, i, j) {
        var w := t[i..j];
        assert forall x :: 0 <= x < |w| ==> w[x] == t[i + x] && TokenChar(u, n, w[x]);
        TokenLanguage(u, m, w);
        if Alike(m, n) {
          TellApart(u, m, n, t, i, j);
        } else {
          LackingMandatory(m, n);
          MandatorySound(u, p.body, w, Lacking(m, n));
          var x :| 0 <= x < |w| && In(u, Lacking(m, n), w[x]);
          LackingMissing(u, m, n, w[x]);
        }
      }
    }
  }

  lemma TellApart(u: Unicode, m: nat, n: nat, t: string, i: nat, j: nat)
    requires Sane(u) && Alike(m, n) && IsToken(u, n, t) && i <= j <= |t|
    ensures !IsToken(u, m, t[i..j])
  {
    hide IsIp, IsNumber;
    if IsToken(u, m, t[i..j]) {
      if m == 1 {
        NoDateInUuid(u, t, i, j);
      } else {
        var x, y := TwoDots(u, t[i..j]);
        OneDot(u, t, i + x, i + y);
      }
    }
  }

  lemma NoDateInUuid(u: Unicode, t: string, i: nat, j: nat)
    requires IsUuid(u, t) && i <= j <= |t|
    ensures !IsDate(u, t[i..j])
  {
    var w := t[i..j];
    if |w| == 10 { assert w[4] == t[i + 4] && w[7] == t[i + 7]; }
    assert forall x :: 0 <= x < |t| && t[x] == '-' ==> x == 8 || x == 13 || x == 18 || x == 23;
  }

  lemma TwoDots(u: Unicode, w: string) returns (x: nat, y: nat)
    requires IsIp(u, w)
    ensures x < y < |w| && w[x] == '.' && w[y] == '.'
  {
    hide IsOctet;
    var a, b, c, d :| IsOctet(u, a) && IsOctet(u, b) && IsOctet(u, c) && IsOctet(u, d) &&
      w == a + ("." + (b + ("." + (c + ("." + d)))));
    x, y := |a|, |a| + 1 + |b|;
  }

  lemma OneDot(u: Unicode, t: string, x: nat, y: nat)
    requires Sane(u) && IsNumber(u, t) && x < y < |t|
    ensures !(t[x] == '.' && t[y] == '.')
  {
    var h, f :| Integer(u, h) && IsFraction(u, f) && t == h + f;
    assert Punctuation('.');
    if x < |h| { assert t[x] == h[x]; }
    else { assert t[y] == f[y - |h|] == f[1..][y - |h| - 1]; }
  }

  // ----- A token inside a message -----

  /** A character that ends a token and that no pattern but the timestamp can match. */
  predicate Delimiter(u: Unicode, c: char) {
    !u.word(c) && c !in "-:.+"
  }

  predicate OpenEnd(u: Unicode, a: string) {
    a == "" || Delimiter(u, a[|a| - 1])
  }

  predicate OpenStart(u: Unicode, b: string) {
    b == "" || Delimiter(u, b[0])
  }

  /** Both sides are open, and no timestamp reaches over an end of t. */
  ghost predicate Standing(u: Unicode, a: string, t: string, b: string) {
    && OpenEnd(u, a) && OpenStart(u, b)
    && NoStraddle(u, Substitutions()[0].P(), a + t + b, |a|)
    && NoStraddle(u, Substitutions()[0].P(), a + t + b, |a + t|)
  }

  lemma NoneOver(u: Unicode, n: nat, s: string, i: nat, j: nat, d: nat)
    requires Sane(u) && 1 <= n < 7 && i <= d < j && d < |s| && Delimiter(u, s[d])
    ensures !Matches(u, Substitutions()[n].P(), s, i, j)
  {
    hide Substitutions, Accepts;
    if Matches(u, Substitutions()[n].P(), s, i, j) {
      assert s[i..j][d - i] == s[d];
      PassAlphabet(u, n, s[d]);
      UsesSound(u, Substitutions()[n].body, s[i..j], d - i);
    }
  }

  /** No later pass reaches over an open side. */
  lemma OpenSides(u: Unicode, n: nat, a: string, t: string, b: string)
    requires Sane(u) && 1 <= n < 7 && OpenEnd(u, a) && OpenStart(u, b)
    ensures NoStraddle(u, Substitutions()[n].P(), a + t + b, |a|)
    ensures NoStraddle(u, Substitutions()[n].P(), a + t + b, |a + t|)
  {
    hide Substitutions, Matches;
    var p, s := Substitutions()[n].P(), a + t + b;
    forall i: nat, j: nat | i < |a| < j ensures !Matches(u, p, s, i, j) {
      if |a| <= |s| { NoneOver(u, n, s, i, j, |a| - 1); }
    }
    forall i: nat, j: nat | i < |a + t| < j ensures !Matches(u, p, s, i, j) {
      if b != "" { NoneOver(u, n, s, i, j, |a + t|); }
      else { NoneBehind(u, p, s, i, j); }
    }
  }

  lemma NoneBehind(u: Unicode, p: Pattern, s: string, i: nat, j: nat)
    requires j > |s|
    ensures !Matches(u, p, s, i, j)
  {
  }

  lemma PassSplits(u: Unicode, n: nat, a: string, t: string, b: string)
    requires Sane(u) && n < 7 && OpenEnd(u, a) && OpenStart(u, b)
    requires NoStraddle(u, Substitutions()[n].P(), a + t + b, |a|)
    requires NoStraddle(u, Substitutions()[n].P(), a + t + b, |a + t|)
    ensures Pass(u, n, a + t + b) == Pass(u, n, a) + Pass(u, n, t) + Pass(u, n, b)
  {
    var p, rep := Substitutions()[n].P(), Substitutions()[n].placeholder;
    PassShape(n);
    assert Border(u, a + (t + b), |a|) && Border(u, t + b, |t|) && Aligned(p);
    assert a + t + b == a + (t + b);
    hide Substitutions, Sub, Aligned, Border, OpenEnd, OpenStart;
    StraddleRight(u, p, a, t, b);
    SubSplit(u, p, rep, a, t + b);
    SubSplit(u, p, rep, t, b);
  }

  lemma StraddleRight(u: Unicode, p: Pattern, a: string, t: string, b: string)
    requires Sane(u) && Aligned(p) && Border(u, a + (t + b), |a|) && NoStraddle(u, p, a + t + b, |a + t|)
    ensures NoStraddle(u, p, t + b, |t|)
  {
    hide Matches, Aligned;
    var s := a + (t + b);
    assert a + t + b == s && s[|a|..|s|] == t + b;
    forall i: nat, j: nat | i < |t| < j ensures !Matches(u, p, t + b, i, j) {
      if Matches(u, p, t + b, i, j) {
        WithinText(u, p, t + b, i, j);
        EndBorder(u, s);
        PieceMatch(u, p, s, |a|, |s|, i, j);
      }
    }
  }

  lemma WithinText(u: Unicode, p: Pattern, s: string, i: nat, j: nat)
    requires Matches(u, p, s, i, j)
    ensures i <= j <= |s|
  {
  }

  lemma EndBorder(u: Unicode, s: string)
    ensures Border(u, s, |s|)
  {
  }

  lemma LonePunctuation(u: Unicode, n: nat, c: char)
    requires Sane(u) && n < 7 && !u.word(c)
    ensures Pass(u, n, [c]) == [c]
  {
    var p := Substitutions()[n].P();
    PassShape(n);
    forall i: nat, j: nat ensures !Matches(u, p, [c], i, j) {
      if Matches(u, p, [c], i, j) { AlignedMatch(u, p, [c], i, j); }
    }
    SubOfFree(u, p, Substitutions()[n].placeholder, [c], 0);
  }

  lemma PassKeepsOpenEnd(u: Unicode, n: nat, a: string)
    requires Sane(u) && n < 7 && OpenEnd(u, a)
    ensures OpenEnd(u, Pass(u, n, a))
  {
    if a != "" {
      var p, rep := Substitutions()[n].P(), Substitutions()[n].placeholder;
      var init, c := a[..|a| - 1], a[|a| - 1];
      assert a == init + [c];
      PassShape(n);
      forall i: nat, j: nat | i < |init| < j ensures !Matches(u, p, a, i, j) {
        if Matches(u, p, a, i, j) { AlignedMatch(u, p, a, i, j); }
      }
      SubSplit(u, p, rep, init, [c]);
      LonePunctuation(u, n, c);
    }
  }

  lemma PassKeepsOpenStart(u: Unicode, n: nat, b: string)
    requires Sane(u) && n < 7 && OpenStart(u, b)
    ensures OpenStart(u, Pass(u, n, b))
  {
    if b != "" {
      var p, rep := Substitutions()[n].P(), Substitutions()[n].placeholder;
      var rest, c := b[1..], b[0];
      assert b == [c] + rest;
      PassShape(n);
      forall i: nat, j: nat | i < 1 < j ensures !Matches(u, p, b, i, j) {
        if Matches(u, p, b, i, j) { AlignedMatch(u, p, b, i, j); }
      }
      SubSplit(u, p, rep, [c], rest);
      LonePunctuation(u, n, c);
    }
  }

  /** What a token of kind n has become after k passes. */
  function Masked(n: nat, t: string, k: nat): string
    requires n < 7
  {
    if k <= n then t else Substitutions()[n].placeholder
  }

  lemma MaskedStep(u: Unicode, n: nat, t: string, k: nat)
    requires Sane(u) && n < 7 && k < 7 && IsToken(u, n, t)
    ensures Pass(u, k, Masked(n, t, k)) == Masked(n, t, k + 1)
  {
    hide Substitutions, IsToken, Sub;
    if k < n {
      TokenHasNoEarlier(u, k, n, t);
      UntouchedPass(u, k, t);
    } else if k == n {
      TokenIsReplaced(u, n, t);
    } else {
      PlaceholderInert(u, k, n);
      UntouchedPass(u, k, Substitutions()[n].placeholder);
    }
  }

  lemma UntouchedPass(u: Unicode, k: nat, t: string)
    requires k < 7 && Free(u, Substitutions()[k].P(), t)
    ensures Pass(u, k, t) == t
  {
    hide Substitutions, Free;
    SubOfFree(u, Substitutions()[k].P(), Substitutions()[k].placeholder, t, 0);
  }

  lemma StepAround(u: Unicode, n: nat, a: string, t: string, b: string, k: nat)
    requires Sane(u) && n < 7 && k < 7 && IsToken(u, n, t) && OpenEnd(u, a) && OpenStart(u, b)
    requires k == 0 ==> Standing(u, a, t, b)
    ensures OpenEnd(u, Pass(u, k, a)) && OpenStart(u, Pass(u, k, b))
    ensures Pass(u, k, a + Masked(n, t, k) + b) == Pass(u, k, a) + Masked(n, t, k + 1) + Pass(u, k, b)
  {
    hide Pass, IsToken, NoStraddle, Substitutions;
    PassKeepsOpenEnd(u, k, a);
    PassKeepsOpenStart(u, k, b);
    if k > 0 { OpenSides(u, k, a, Masked(n, t, k), b); }
    PassSplits(u, k, a, Masked(n, t, k), b);
    MaskedStep(u, n, t, k);
  }

  /** Around a standing token every pass works on the two sides alone. */
  lemma {:induction false} PassesAround(u: Unicode, n: nat, a: string, t: string, b: string, k: nat)
    requires Sane(u) && n < 7 && k <= 7 && IsToken(u, n, t) && Standing(u, a, t, b)
    ensures OpenEnd(u, Passes(u, a, k)) && OpenStart(u, Passes(u, b, k))
    ensures Passes(u, a + t + b, k) == Passes(u, a, k) + Masked(n, t, k) + Passes(u, b, k)
  {
    hide Pass, IsToken, Sane, OpenEnd, OpenStart, NoStraddle, Substitutions;
    if k > 0 {
      PassesAround(u, n, a, t, b, k - 1);
      StepAround(u, n, Passes(u, a, k - 1), t, Passes(u, b, k - 1), k - 1);
    }
  }
}
