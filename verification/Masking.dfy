/**
 What a message looks like after the seven passes, token by token, with the placeholders written out. Open sides
 are enough for five of the kinds; a date can be the beginning of a timestamp and a clock the end of one.
 */
module Masking {
  import opened Wrappers
  import opened Regex
  import opened Substitution
  import opened Greedy
  import opened Normalizer
  import opened Shapes
  import opened Tokens

  // ----- Timestamps over an open side -----

  function Timestamp(): Pattern { Substitutions()[0].P() }

  lemma TimestampIsToken(u: Unicode, s: string, i: nat, j: nat)
    requires Matches(u, Timestamp(), s, i, j)
    ensures i <= j <= |s| && IsTimestamp(u, s[i..j])
  {
    TokenLanguage(u, 0, s[i..j]);
  }

  lemma NotDelimiters(u: Unicode, n: nat, w: string, x: nat)
    requires Sane(u) && 1 <= n < 7 && OnlyTokenChars(u, n, w) && x < |w|
    ensures !Delimiter(u, w[x])
  {
    assert TokenChar(u, n, w[x]);
    assert HexDigit(w[x]) ==> AsciiLetter(w[x]) || u.digit(w[x]);
    assert AsciiLetter('x') && AsciiLetter('X');
  }

  lemma ZoneChar(u: Unicode, z: string, x: nat)
    requires Sane(u) && IsZone(u, z) && x < |z|
    ensures !Delimiter(u, z[x])
  {
    assert AsciiLetter('Z');
    if x > 0 && z != "Z" { assert z[1..][x - 1] == z[x]; }
  }

  /** The delimiter inside a timestamp is its blank. */
  lemma BlankPlace(u: Unicode, w: string, x: nat)
    requires Sane(u) && IsTimestamp(u, w) && x < |w| && Delimiter(u, w[x])
    ensures x == 10 && |w| >= 19 && w[10] == ' ' && IsDate(u, w[..10]) && IsClock(u, w[11..19])
  {
    hide IsDate, IsClock, IsZone, Delimiter;
    var d, t, z :| IsDate(u, d) && IsClock(u, t) && IsZone(u, z) && (w == d + "T" + t + z || w == d + " " + t + z);
    PartLengths(u, d, t);
    TokenAlphabet(u, 1, d);
    TokenAlphabet(u, 2, t);
    assert w[..10] == d && w[11..19] == t[..8];
    if x < 10 { NotDelimiters(u, 1, d, x); assert false; }
    else if 11 <= x < 11 + |t| { NotDelimiters(u, 2, t, x - 11); assert false; }
    else if x >= 11 + |t| { ZoneChar(u, z, x - 11 - |t|); assert false; }
    else { TIsNone(u); }
  }

  lemma TIsNone(u: Unicode)
    requires Sane(u)
    ensures !Delimiter(u, 'T')
  {
    assert AsciiLetter('T');
  }

  lemma PartLengths(u: Unicode, d: string, t: string)
    requires IsDate(u, d) && IsClock(u, t)
    ensures |d| == 10 && |t| >= 8 && IsClock(u, t[..8])
  {
    assert t[..8][..8] == t[..8] && t[..8][8..] == "";
  }

  lemma TimestampOver(u: Unicode, s: string, i: nat, j: nat, d: nat)
    requires Sane(u) && Matches(u, Timestamp(), s, i, j) && i <= d < j && Delimiter(u, s[d])
    ensures d == i + 10 && i + 19 <= j <= |s| && s[d] == ' '
    ensures IsDate(u, s[i..i + 10]) && IsClock(u, s[i + 11..i + 19])
  {
    hide IsDate, IsClock, IsTimestamp, Matches, Delimiter;
    TimestampIsToken(u, s, i, j);
    var w := s[i..j];
    assert w[d - i] == s[d];
    BlankPlace(u, w, d - i);
    SliceOfSlice(s, i, j, 0, 10);
    SliceOfSlice(s, i, j, 11, 19);
    assert w[..10] == w[0..10];
  }

  // ----- Open sides are enough for most kinds -----

  lemma ThirdChar(u: Unicode, n: nat, t: string)
    requires Sane(u) && n < 7 && n != 2 && IsToken(u, n, t) && |t| >= 3
    ensures t[2] != ':'
  {
    assert Punctuation(':');
    if n == 0 {
      hide IsClock, IsZone;
      var d, c, z :| IsDate(u, d) && IsClock(u, c) && IsZone(u, z) && (t == d + "T" + c + z || t == d + " " + c + z);
      assert t[2] == d[2];
    } else {
      TokenAlphabet(u, n, t);
      assert TokenChar(u, n, t[2]);
    }
  }

  lemma StandsLeft(u: Unicode, n: nat, a: string, t: string, b: string)
    requires Sane(u) && n < 7 && n != 2 && IsToken(u, n, t) && OpenEnd(u, a) && OpenStart(u, b)
    ensures NoStraddle(u, Timestamp(), a + t + b, |a|)
  {
    hide Matches, IsToken;
    var s := a + t + b;
    TokenMatches(u, n, t);
    forall i: nat, j: nat | i < |a| < j ensures !Matches(u, Timestamp(), s, i, j) {
      if Matches(u, Timestamp(), s, i, j) {
        TimestampOver(u, s, i, j, |a| - 1);
        ClockStart(u, s[i + 11..i + 19]);
        assert s[i + 11] == s[i + 11..i + 19][0] && s[i + 12] == s[i + 11..i + 19][1];
        assert s[i + 13] == s[i + 11..i + 19][2];
        ShortSide(u, t, b);
        if |t| >= 3 { ThirdChar(u, n, t); }
      }
    }
  }

  lemma ClockStart(u: Unicode, c: string)
    requires IsClock(u, c)
    ensures |c| >= 8 && u.digit(c[0]) && u.digit(c[1]) && c[2] == ':'
  {
    assert c[..8][0] == c[0] && c[..8][1] == c[1] && c[..8][2] == c[2];
  }

  lemma ShortSide(u: Unicode, t: string, b: string)
    requires Sane(u) && t != "" && OpenStart(u, b)
    ensures |t| < 3 && |t + b| >= 3 ==> !u.digit((t + b)[1]) || (t + b)[2] != ':'
  {
  }

  lemma NoDateAtEnd(u: Unicode, n: nat, t: string)
    requires Sane(u) && n < 7 && n != 1 && IsToken(u, n, t) && |t| >= 10
    ensures !IsDate(u, t[|t| - 10..])
  {
    var w := t[|t| - 10..];
    assert w[7] == t[|t| - 3] && w[9] == t[|t| - 1];
    assert Punctuation('-') && AsciiLetter('Z');
    if n == 0 { NotDashed(u, t); }
    else if n != 3 {
      TokenAlphabet(u, n, t);
      assert TokenChar(u, n, t[|t| - 3]);
    }
  }

  lemma NotDashed(u: Unicode, t: string)
    requires Sane(u) && IsTimestamp(u, t)
    ensures |t| >= 3 && (u.digit(t[|t| - 1]) ==> t[|t| - 3] != '-')
  {
    hide IsDate, IsClock;
    assert Punctuation('-') && AsciiLetter('Z');
    var d, c, z :| IsDate(u, d) && IsClock(u, c) && IsZone(u, z) && (t == d + "T" + c + z || t == d + " " + c + z);
    PartLengths(u, d, c);
    TokenAlphabet(u, 2, c);
    if z == "" {
      assert t[|t| - 3] == c[|c| - 3];
      assert TokenChar(u, 2, c[|c| - 3]);
    } else if z != "Z" {
      assert t[|t| - 3] == z[|z| - 3] == z[1..][|z| - 4];
    } else {
      assert t[|t| - 1] == 'Z';
    }
  }

  lemma NoDelimiterInDate(u: Unicode, d: string, x: nat)
    requires Sane(u) && IsDate(u, d) && x < |d|
    ensures !Delimiter(u, d[x])
  {
    TokenAlphabet(u, 1, d);
    NotDelimiters(u, 1, d, x);
  }

  lemma StandsRight(u: Unicode, n: nat, a: string, t: string, b: string)
    requires Sane(u) && n < 7 && n != 1 && IsToken(u, n, t) && OpenEnd(u, a) && OpenStart(u, b)
    ensures NoStraddle(u, Timestamp(), a + t + b, |a + t|)
  {
    hide Matches, IsToken, IsDate;
    var s := a + t + b;
    forall i: nat, j: nat | i < |a + t| < j ensures !Matches(u, Timestamp(), s, i, j) {
      if Matches(u, Timestamp(), s, i, j) {
        TimestampIsToken(u, s, i, j);
        TimestampOver(u, s, i, j, |a + t|);
        var d := s[i..i + 10];
        if |t| >= 10 {
          assert d == t[|t| - 10..];
          NoDateAtEnd(u, n, t);
        } else if a != "" {
          assert d[|a| - 1 - i] == a[|a| - 1];
          NoDelimiterInDate(u, d, |a| - 1 - i);
        }
      }
    }
  }

  lemma OpenSidesStand(u: Unicode, n: nat, a: string, t: string, b: string)
    requires Sane(u) && n < 7 && n != 1 && n != 2 && IsToken(u, n, t) && OpenEnd(u, a) && OpenStart(u, b)
    ensures Standing(u, a, t, b)
  {
    hide IsToken, NoStraddle, OpenEnd, OpenStart;
    StandsLeft(u, n, a, t, b);
    StandsRight(u, n, a, t, b);
  }

  /** A delimited token, dates and clocks excepted, becomes the placeholder of its kind. */
  lemma TokenIsMasked(u: Unicode, n: nat, a: string, t: string, b: string)
    requires Sane(u) && n < 7 && n != 1 && n != 2 && IsToken(u, n, t) && OpenEnd(u, a) && OpenStart(u, b)
    ensures Passes(u, a + t + b, 7) == Passes(u, a, 7) + Substitutions()[n].placeholder + Passes(u, b, 7)
  {
    hide IsToken, Standing, OpenEnd, OpenStart, Passes;
    OpenSidesStand(u, n, a, t, b);
    PassesAround(u, n, a, t, b, 7);
  }

  // ----- Written out -----

  lemma TimestampIsMasked(u: Unicode, a: string, d: string, sep: string, t: string, z: string, b: string)
    requires Sane(u) && OpenEnd(u, a) && OpenStart(u, b)
    requires IsDate(u, d) && (sep == "T" || sep == " ") && IsClock(u, t) && IsZone(u, z)
    ensures Passes(u, a + (d + sep + t + z) + b, 7) == Passes(u, a, 7) + "<TIMESTAMP>" + Passes(u, b, 7)
  {
    hide IsDate, IsClock, IsZone, OpenEnd, OpenStart, Passes;
    TokenIsMasked(u, 0, a, d + sep + t + z, b);
  }

  lemma UuidIsMasked(u: Unicode, a: string, t: string, b: string)
    requires Sane(u) && OpenEnd(u, a) && OpenStart(u, b)
    requires Fits(u, "hhhhhhhh-hhhh-hhhh-hhhh-hhhhhhhhhhhh", t)
    ensures Passes(u, a + t + b, 7) == Passes(u, a, 7) + "<UUID>" + Passes(u, b, 7)
  {
    hide OpenEnd, OpenStart, Passes, Fits;
    TokenIsMasked(u, 3, a, t, b);
  }

  lemma AddressIsMasked(u: Unicode, a: string, o: seq<string>, b: string)
    requires Sane(u) && OpenEnd(u, a) && OpenStart(u, b)
    requires |o| == 4 && forall k :: 0 <= k < 4 ==> 1 <= |o[k]| <= 3 && AllDigits(u, o[k])
    ensures Passes(u, a + (o[0] + "." + o[1] + "." + o[2] + "." + o[3]) + b, 7) ==
            Passes(u, a, 7) + "<IP>" + Passes(u, b, 7)
  {
    hide OpenEnd, OpenStart, Passes, AllDigits;
    var t := o[0] + "." + o[1] + "." + o[2] + "." + o[3];
    assert t == o[0] + ("." + (o[1] + ("." + (o[2] + ("." + o[3])))));
    assert IsOctet(u, o[0]) && IsOctet(u, o[1]) && IsOctet(u, o[2]) && IsOctet(u, o[3]);
    assert IsIp(u, t);
    TokenIsMasked(u, 4, a, t, b);
  }

  lemma HexIsMasked(u: Unicode, a: string, x: char, h: string, b: string)
    requires Sane(u) && OpenEnd(u, a) && OpenStart(u, b)
    requires x in "xX" && h != "" && forall i :: 0 <= i < |h| ==> HexDigit(h[i])
    ensures Passes(u, a + ("0" + [x] + h) + b, 7) == Passes(u, a, 7) + "<HEX>" + Passes(u, b, 7)
  {
    hide OpenEnd, OpenStart, Passes, HexDigit;
    TokenIsMasked(u, 5, a, "0" + [x] + h, b);
  }

  /** A whole number, or one with a decimal fraction, is masked as one token. */
  lemma NumberIsMasked(u: Unicode, a: string, h: string, f: string, b: string)
    requires Sane(u) && OpenEnd(u, a) && OpenStart(u, b) && Integer(u, h) && Integer(u, f)
    ensures Passes(u, a + h + b, 7) == Passes(u, a, 7) + "<NUM>" + Passes(u, b, 7)
    ensures Passes(u, a + h + "." + f + b, 7) == Passes(u, a, 7) + "<NUM>" + Passes(u, b, 7)
  {
    hide OpenEnd, OpenStart, Passes, Integer;
    assert h == h + "" && ("." + f)[1..] == f;
    assert IsNumber(u, h) && IsNumber(u, h + ("." + f));
    TokenIsMasked(u, 6, a, h, b);
    TokenIsMasked(u, 6, a, h + ("." + f), b);
    assert a + (h + ("." + f)) + b == a + h + "." + f + b;
  }

  // ----- Dates -----

  ghost predicate BeginsTimestamp(u: Unicode, s: string) {
    exists j :: Matches(u, Timestamp(), s, 0, j)
  }

  lemma DateStands(u: Unicode, a: string, d: string, b: string)
    requires Sane(u) && IsDate(u, d) && OpenEnd(u, a) && OpenStart(u, b) && !BeginsTimestamp(u, d + b)
    ensures Standing(u, a, d, b)
  {
    StandsLeft(u, 1, a, d, b);
    TimestampAligned(u);
    hide Matches, IsDate, Substitutions, Aligned, NoStraddle;
    NoTimestampBehind(u, a, d, b);
  }

  lemma NoTimestampBehind(u: Unicode, a: string, d: string, b: string)
    requires Sane(u) && IsDate(u, d) && OpenStart(u, b) && !BeginsTimestamp(u, d + b)
    ensures NoStraddle(u, Timestamp(), a + d + b, |a + d|)
  {
    TimestampAligned(u);
    hide Matches, IsDate, Substitutions, Aligned, Timestamp;
    var s := a + d + b;
    assert s[|a|..|s|] == d + b;
    DateLength(u, d);
    forall i: nat, j: nat | i < |a + d| < j ensures !Matches(u, Timestamp(), s, i, j) {
      if Matches(u, Timestamp(), s, i, j) {
        TimestampIsToken(u, s, i, j);
        TimestampOver(u, s, i, j, |a + d|);
        MatchOfPiece(u, Timestamp(), s, |a|, |s|, i, j);
      }
    }
  }

  lemma DateLength(u: Unicode, d: string)
    requires IsDate(u, d)
    ensures |d| == 10
  {
  }

  /** Text behind an open end is passed over on its own. */
  lemma SplitOpenEnd(u: Unicode, k: nat, l: string, r: string)
    requires Sane(u) && 1 <= k < 7 && OpenEnd(u, l)
    ensures Pass(u, k, l + r) == Pass(u, k, l) + Pass(u, k, r)
  {
    var p := Substitutions()[k].P();
    PassShape(k);
    assert Border(u, l + r, |l|) && Aligned(p);
    hide Substitutions, Sub, Aligned, Border, Matches;
    forall i: nat, j: nat | i < |l| < j ensures !Matches(u, p, l + r, i, j) { NoneOver(u, k, l + r, i, j, |l| - 1); }
    SubSplit(u, p, Substitutions()[k].placeholder, l, r);
  }

  lemma TimestampAligned(u: Unicode)
    requires Sane(u)
    ensures Aligned(Timestamp()) && Decided(u, Timestamp().body) && Substitutions()[0].placeholder == "<TIMESTAMP>"
  {
    PassShape(0);
    hide Decided;
    PatternDecided(u, 0);
  }

  lemma FirstTaken(u: Unicode, s: string, j: nat)
    requires Sane(u) && NextMatch(u, Timestamp(), s, 0, 0, j)
    ensures j <= |s| && Pass(u, 0, s) == "<TIMESTAMP>" + Pass(u, 0, s[j..])
  {
    var p, rep := Timestamp(), "<TIMESTAMP>";
    TimestampAligned(u);
    hide Matches, Substitutions, SubFrom, Aligned, Decided, Timestamp;
    ReplacesNext(u, p, rep, s, 0, 0, j);
    assert s[0..0] + rep == rep && Tail(s, j, s[j..]);
    AlignedMatch(u, p, s, 0, j);
    SubFromRight(u, p, rep, s, j, s[j..], 0, j);
    AsPass(u, s);
    AsPass(u, s[j..]);
  }

  lemma AsPass(u: Unicode, s: string)
    ensures Pass(u, 0, s) == SubFrom(u, Timestamp(), "<TIMESTAMP>", s, 0)
  {
    hide SubFrom;
  }

  /** The first pass takes a date and what makes a timestamp of it. */
  lemma DateTaken(u: Unicode, a: string, s: string, j: nat)
    requires Sane(u) && OpenEnd(u, a) && NoStraddle(u, Timestamp(), a + s, |a|) && NextMatch(u, Timestamp(), s, 0, 0, j)
    ensures j <= |s| && Pass(u, 0, a + s) == Pass(u, 0, a) + "<TIMESTAMP>" + Pass(u, 0, s[j..])
  {
    var p := Timestamp();
    TimestampAligned(u);
    hide Matches, Substitutions, SubFrom, Aligned, NextMatch, Pass, Timestamp;
    SubSplit(u, p, "<TIMESTAMP>", a, s);
    FirstTaken(u, s, j);
    AsPass(u, a + s);
    AsPass(u, a);
    AsPass(u, s);
  }

  lemma {:induction false} TimestampTaken(u: Unicode, a: string, s: string, j: nat, k: nat)
    requires Sane(u) && OpenEnd(u, a) && NoStraddle(u, Timestamp(), a + s, |a|) && NextMatch(u, Timestamp(), s, 0, 0, j)
    requires 1 <= k <= 7
    ensures j <= |s| && OpenEnd(u, Passes(u, a, k))
    ensures Passes(u, a + s, k) == Passes(u, a, k) + "<TIMESTAMP>" + Passes(u, s[j..], k)
  {
    hide Pass, NoStraddle, NextMatch, Sane;
    DateTaken(u, a, s, j);
    if k == 1 {
      OnePass(u, a);
      OnePass(u, a + s);
      OnePass(u, s[j..]);
      PassKeepsOpenEnd(u, 0, a);
    } else {
      TimestampTaken(u, a, s, j, k - 1);
      PlaceholderStays(u, k - 1, Passes(u, a, k - 1), Passes(u, s[j..], k - 1));
    }
  }

  lemma OnePass(u: Unicode, s: string)
    ensures Passes(u, s, 1) == Pass(u, 0, s)
  {
    hide Pass;
    assert Passes(u, s, 0) == s;
  }

  lemma PlaceholderStays(u: Unicode, k: nat, a: string, r: string)
    requires Sane(u) && 1 <= k < 7 && OpenEnd(u, a)
    ensures OpenEnd(u, Pass(u, k, a))
    ensures Pass(u, k, a + "<TIMESTAMP>" + r) == Pass(u, k, a) + "<TIMESTAMP>" + Pass(u, k, r)
  {
    assert Punctuation('>');
    PlaceholderInert(u, k, 0);
    assert Substitutions()[0].placeholder == "<TIMESTAMP>";
    hide Pass, Substitutions;
    PassKeepsOpenEnd(u, k, a);
    assert (a + "<TIMESTAMP>")[|a + "<TIMESTAMP>"| - 1] == '>';
    SplitOpenEnd(u, k, a + "<TIMESTAMP>", r);
    SplitOpenEnd(u, k, a, "<TIMESTAMP>");
    UntouchedPass(u, k, "<TIMESTAMP>");
  }

  /** An open start splits off, unless a timestamp reaches over it. */
  lemma {:induction false} PassesOpenStart(u: Unicode, l: string, r: string, k: nat)
    requires Sane(u) && k <= 7 && OpenStart(u, r) && NoStraddle(u, Timestamp(), l + r, |l|)
    ensures OpenStart(u, Passes(u, r, k)) && Passes(u, l + r, k) == Passes(u, l, k) + Passes(u, r, k)
  {
    hide Pass, NoStraddle, Sane, OpenStart;
    if k > 0 {
      PassesOpenStart(u, l, r, k - 1);
      PassKeepsOpenStart(u, k - 1, Passes(u, r, k - 1));
      SplitOpenStart(u, k - 1, Passes(u, l, k - 1), Passes(u, r, k - 1));
    }
  }

  lemma SplitOpenStart(u: Unicode, k: nat, l: string, r: string)
    requires Sane(u) && k < 7 && OpenStart(u, r) && (k == 0 ==> NoStraddle(u, Timestamp(), l + r, |l|))
    ensures Pass(u, k, l + r) == Pass(u, k, l) + Pass(u, k, r)
  {
    var p := Substitutions()[k].P();
    PassShape(k);
    assert Border(u, l + r, |l|) && Aligned(p);
    hide Substitutions, Sub, Aligned, Border, Matches;
    if k > 0 {
      forall i: nat, j: nat | i < |l| < j ensures !Matches(u, p, l + r, i, j) {
        if r == "" { NoneBehind(u, p, l + r, i, j); } else { NoneOver(u, k, l + r, i, j, |l|); }
      }
    }
    SubSplit(u, p, Substitutions()[k].placeholder, l, r);
  }

  /** A pass changes a first blank neither into something else nor something else into it. */
  lemma {:induction false} FirstBlank(u: Unicode, s: string, k: nat)
    requires Sane(u) && k <= 7
    ensures " " <= s <==> " " <= Passes(u, s, k)
  {
    hide Pass, Sane;
    if k > 0 {
      FirstBlank(u, s, k - 1);
      FirstBlankStep(u, Passes(u, s, k - 1), k - 1);
    }
  }

  lemma FirstBlankStep(u: Unicode, s: string, k: nat)
    requires Sane(u) && k < 7
    ensures " " <= s <==> " " <= Pass(u, k, s)
  {
    var p, rep := Substitutions()[k].P(), Substitutions()[k].placeholder;
    assert Punctuation(' ') && rep[0] == '<';
    PassShape(k);
    assert Aligned(p);
    hide Substitutions, FirstMatch, Aligned, SubFrom;
    if s == "" { ScanEnd(u, p, rep, s, 0); }
    else {
      var e := FirstMatch(u, p, s, 0);
      ScanStep(u, p, rep, s, 0, e);
      if e.Some? { AlignedMatch(u, p, s, 0, e.value); }
    }
  }

  /** What the first pass leaves behind a timestamp is no longer what it leaves behind its date. */
  lemma RestDiffers(u: Unicode, d: string, b: string, j: nat)
    requires Sane(u) && IsDate(u, d) && OpenStart(u, b) && Matches(u, Timestamp(), d + b, 0, j)
    ensures |d| < j <= |d + b| && Passes(u, (d + b)[j..], 7) != Passes(u, b, 7)
  {
    hide IsDate, Matches, Passes;
    var s := d + b;
    TimestampIsToken(u, s, 0, j);
    DateLength(u, d);
    LongToken(u, s[0..j]);
    TimestampOver(u, s, 0, j, 10);
    var l, r := b[..j - 10], s[j..];
    assert b == l + r && b[0] == ' ' && r == b[j - 10..];
    FirstBlank(u, b, 7);
    FirstBlank(u, r, 7);
    if " " <= r {
      LateBlank(u, d, l, r);
      PassesOpenStart(u, l, r, 7);
      FirstBlank(u, l, 7);
    }
  }

  lemma LongToken(u: Unicode, w: string)
    requires IsTimestamp(u, w)
    ensures |w| >= 19
  {
    hide IsDate, IsClock;
    var d, t, z :| IsDate(u, d) && IsClock(u, t) && IsZone(u, z) && (w == d + "T" + t + z || w == d + " " + t + z);
    PartLengths(u, d, t);
  }

  /** No timestamp reaches over a blank behind another one. */
  lemma LateBlank(u: Unicode, d: string, l: string, r: string)
    requires Sane(u) && |d| == 10 && IsTimestamp(u, d + l) && " " <= r
    ensures OpenStart(u, r) && NoStraddle(u, Timestamp(), l + r, |l|)
  {
    assert Punctuation(' ');
    hide IsTimestamp, Matches, IsDate;
    forall i: nat, j: nat | i < |l| < j ensures !Matches(u, Timestamp(), l + r, i, j) {
      if Matches(u, Timestamp(), l + r, i, j) {
        TimestampIsToken(u, l + r, i, j);
        TimestampOver(u, l + r, i, j, |l|);
        assert (l + r)[i..i + 10] == (d + l)[|d + l| - 10..];
        TimestampEndsOtherwise(u, d + l);
      }
    }
  }

  lemma TimestampEndsOtherwise(u: Unicode, t: string)
    requires Sane(u) && IsTimestamp(u, t) && |t| >= 10
    ensures !IsDate(u, t[|t| - 10..])
  {
    NoDateAtEnd(u, 0, t);
  }

  /** A delimited date becomes a placeholder of its own exactly if it does not begin a timestamp. */
  lemma DateIsMaskedIff(u: Unicode, a: string, d: string, b: string)
    requires Sane(u) && Fits(u, "dddd-dd-dd", d) && OpenEnd(u, a) && OpenStart(u, b)
    ensures Passes(u, a + d + b, 7) == Passes(u, a, 7) + "<TIMESTAMP>" + Passes(u, b, 7) <==>
            !BeginsTimestamp(u, d + b)
  {
    hide Fits, Passes, OpenEnd, OpenStart, Matches, Standing;
    assert IsToken(u, 1, d) && Masked(1, d, 7) == "<TIMESTAMP>";
    if BeginsTimestamp(u, d + b) {
      var j := LongestTimestamp(u, d + b);
      StandsLeft(u, 1, a, d, b);
      assert a + d + b == a + (d + b);
      TimestampTaken(u, a, d + b, j, 7);
      RestDiffers(u, d, b, j);
      OtherRest(Passes(u, a, 7) + "<TIMESTAMP>", Passes(u, (d + b)[j..], 7), Passes(u, b, 7));
    } else {
      DateStands(u, a, d, b);
      PassesAround(u, 1, a, d, b, 7);
    }
  }

  lemma OtherRest(x: string, y: string, z: string)
    requires y != z
    ensures x + y != x + z
  {
    assert (x + y)[|x|..] == y && (x + z)[|x|..] == z;
  }

  lemma LongestTimestamp(u: Unicode, s: string) returns (j: nat)
    requires Sane(u) && BeginsTimestamp(u, s)
    ensures NextMatch(u, Timestamp(), s, 0, 0, j)
  {
    TimestampAligned(u);
    PassNotEmpty(0);
    hide Matches, Decided, Substitutions;
    j := FirstLongest(u, Timestamp(), s);
  }

  lemma FirstLongest(u: Unicode, p: Pattern, s: string) returns (j: nat)
    requires Decided(u, p.body) && !Nullable(p.body) && exists j :: Matches(u, p, s, 0, j)
    ensures NextMatch(u, p, s, 0, 0, j)
  {
    hide Decided, Accepts, FirstMatch;
    var e: nat :| Matches(u, p, s, 0, e);
    FirstIsLongest(u, p, s, 0, e);
    j := FirstMatch(u, p, s, 0).value;
    NullableSound(u, p.body, s[0..j]);
    forall e: nat | Matches(u, p, s, 0, e) ensures e <= j { FirstIsLongest(u, p, s, 0, e); }
  }

  // ----- Clocks -----

  /** a ends in a date and a blank, with no word character before the date. */
  ghost predicate EndsInDate(u: Unicode, a: string) {
    && |a| >= 11 && a[|a| - 1] == ' ' && IsDate(u, a[|a| - 11..|a| - 1])
    && (|a| > 11 ==> !u.word(a[|a| - 12]))
  }

  lemma ClockStands(u: Unicode, a: string, t: string, b: string)
    requires Sane(u) && IsClock(u, t) && OpenEnd(u, a) && OpenStart(u, b) && !EndsInDate(u, a)
    ensures Standing(u, a, t, b)
  {
    StandsRight(u, 2, a, t, b);
    hide Matches, IsDate, IsClock;
    var s := a + t + b;
    forall i: nat, j: nat | i < |a| < j ensures !Matches(u, Timestamp(), s, i, j) {
      if Matches(u, Timestamp(), s, i, j) {
        TimestampOver(u, s, i, j, |a| - 1);
        assert s[i..i + 10] == a[|a| - 11..|a| - 1];
        TimestampAligned(u);
        AlignedMatch(u, Timestamp(), s, i, j);
      }
    }
  }

  /**
   A delimited clock becomes a placeholder of its own exactly if no date stands before it. (A date that follows
   one of the characters - : . + may have gone into another timestamp.)
   */
  lemma ClockIsMaskedIff(u: Unicode, a: string, t: string, b: string)
    requires Sane(u) && IsClock(u, t) && OpenEnd(u, a) && OpenStart(u, b)
    requires EndsInDate(u, a) ==> OpenEnd(u, a[..|a| - 11])
    ensures Passes(u, a + t + b, 7) == Passes(u, a, 7) + "<TIMESTAMP>" + Passes(u, b, 7) <==> !EndsInDate(u, a)
  {
    hide IsDate, IsClock, Passes, OpenEnd, OpenStart, Standing, Sane;
    if EndsInDate(u, a) {
      var before, d := a[..|a| - 11], a[|a| - 11..|a| - 1];
      assert a == before + d + " ";
      DateBeforeClock(u, before, d, t, b);
    } else {
      ClockStands(u, a, t, b);
      StandingClock(u, a, t, b);
    }
  }

  lemma StandingClock(u: Unicode, a: string, t: string, b: string)
    requires Sane(u) && IsClock(u, t) && Standing(u, a, t, b)
    ensures Passes(u, a + t + b, 7) == Passes(u, a, 7) + "<TIMESTAMP>" + Passes(u, b, 7)
  {
    assert Masked(2, t, 7) == "<TIMESTAMP>";
    ClockIsToken(u, t);
    hide *;
    PassesAround(u, 2, a, t, b, 7);
  }

  lemma DateBeforeClock(u: Unicode, a: string, d: string, t: string, b: string)
    requires Sane(u) && IsDate(u, d) && IsClock(u, t) && OpenEnd(u, a) && OpenStart(u, b)
    ensures Passes(u, a + d + " " + t + b, 7) != Passes(u, a + d + " ", 7) + "<TIMESTAMP>" + Passes(u, b, 7)
  {
    hide IsDate, IsClock, Passes, OpenEnd, OpenStart;
    assert a + d + " " + t + b == a + (d + " " + t + "") + b;
    TimestampIsMasked(u, a, d, " ", t, "", b);
    DateAndBlank(u, a, d);
  }

  lemma ClockIsToken(u: Unicode, t: string)
    requires IsClock(u, t)
    ensures IsToken(u, 2, t)
  {
  }

  lemma DateAndBlank(u: Unicode, a: string, d: string)
    requires Sane(u) && IsDate(u, d) && OpenEnd(u, a)
    ensures |Passes(u, a + d + " ", 7)| > |Passes(u, a, 7)|
  {
    assert Punctuation(' ') && OpenStart(u, " ");
    hide OpenEnd, OpenStart, Passes, Matches, IsDate;
    DateLength(u, d);
    forall j: nat ensures !Matches(u, Timestamp(), d + " ", 0, j) {
      if Matches(u, Timestamp(), d + " ", 0, j) {
        TimestampIsToken(u, d + " ", 0, j);
        LongToken(u, (d + " ")[0..j]);
      }
    }
    DateIsMaskedIff(u, a, d, " ");
  }

  // ----- Messages of one template -----

  /** Which token of a kind stands at a place does not show in the signature. */
  lemma SignatureLocality(u: Unicode, n: nat, a: string, t1: string, t2: string, b: string)
    requires Sane(u) && n < 7 && IsToken(u, n, t1) && IsToken(u, n, t2)
    requires Standing(u, a, t1, b) && Standing(u, a, t2, b)
    ensures Signature(u, a + t1 + b) == Signature(u, a + t2 + b)
  {
    hide IsToken, Standing, Passes, Collapse, Strip;
    PassesAround(u, n, a, t1, b, 7);
    PassesAround(u, n, a, t2, b, 7);
  }

  /** A place for a token, and the text behind it. */
  datatype Hole = Hole(kind: nat, after: string)

  function Filled(a: string, holes: seq<Hole>, tokens: seq<string>): string
    requires |holes| == |tokens|
    decreases |holes|
  {
    if holes == [] then a else a + tokens[0] + Filled(holes[0].after, holes[1..], tokens[1..])
  }

  /** Texts that are delimited on both sides of every place; dates and clocks alone are left out. */
  ghost predicate Delimited(u: Unicode, a: string, holes: seq<Hole>)
    decreases |holes|
  {
    holes == [] ||
      (OpenEnd(u, a) && holes[0].kind < 7 && holes[0].kind != 1 && holes[0].kind != 2
       && OpenStart(u, holes[0].after) && (|holes| > 1 ==> holes[0].after != "")
       && Delimited(u, holes[0].after, holes[1..]))
  }

  ghost predicate Fitting(u: Unicode, holes: seq<Hole>, tokens: seq<string>) {
    |holes| == |tokens| && forall i :: 0 <= i < |holes| ==> IsToken(u, holes[i].kind, tokens[i])
  }

  /** The texts as the passes leave them, with placeholders between. */
  function Template(u: Unicode, a: string, holes: seq<Hole>): string
    requires forall i :: 0 <= i < |holes| ==> holes[i].kind < 7
    decreases |holes|
  {
    if holes == [] then Passes(u, a, 7)
    else Passes(u, a, 7) + Substitutions()[holes[0].kind].placeholder + Template(u, holes[0].after, holes[1..])
  }

  lemma {:induction false} KindsInRange(u: Unicode, a: string, holes: seq<Hole>)
    requires Delimited(u, a, holes)
    ensures forall i :: 0 <= i < |holes| ==> holes[i].kind < 7
    decreases |holes|
  {
    if holes != [] {
      KindsInRange(u, holes[0].after, holes[1..]);
      assert forall i :: 1 <= i < |holes| ==> holes[i] == holes[1..][i - 1];
    }
  }

  /** The passes make of every message of a template the same text. */
  lemma {:induction false} TemplateIsMasked(u: Unicode, a: string, holes: seq<Hole>, tokens: seq<string>)
    requires Sane(u) && Delimited(u, a, holes) && Fitting(u, holes, tokens)
    requires forall i :: 0 <= i < |holes| ==> holes[i].kind < 7
    ensures Passes(u, Filled(a, holes, tokens), 7) == Template(u, a, holes)
    decreases |holes|
  {
    hide IsToken, Passes, OpenEnd;
    if holes != [] {
      var rest := Filled(holes[0].after, holes[1..], tokens[1..]);
      TemplateIsMasked(u, holes[0].after, holes[1..], tokens[1..]);
      FilledStart(holes[0].after, holes[1..], tokens[1..]);
      TokenIsMasked(u, holes[0].kind, a, tokens[0], rest);
    }
  }

  lemma FilledStart(a: string, holes: seq<Hole>, tokens: seq<string>)
    requires |holes| == |tokens|
    ensures a <= Filled(a, holes, tokens) && (holes == [] ==> Filled(a, holes, tokens) == a)
  {
  }

  /** Messages that differ only in their delimited tokens have the same signature. */
  lemma SameTemplateSameSignature(u: Unicode, a: string, holes: seq<Hole>, tokens1: seq<string>, tokens2: seq<string>)
    requires Sane(u) && Delimited(u, a, holes) && Fitting(u, holes, tokens1) && Fitting(u, holes, tokens2)
    ensures Signature(u, Filled(a, holes, tokens1)) == Signature(u, Filled(a, holes, tokens2))
  {
    hide Passes, Collapse, Strip, Delimited, Fitting, Filled, Template;
    KindsInRange(u, a, holes);
    SameLength(u, holes, tokens1);
    SameLength(u, holes, tokens2);
    TemplateIsMasked(u, a, holes, tokens1);
    TemplateIsMasked(u, a, holes, tokens2);
  }

  lemma SameLength(u: Unicode, holes: seq<Hole>, tokens: seq<string>)
    requires Fitting(u, holes, tokens)
    ensures |holes| == |tokens|
  {
  }
}
