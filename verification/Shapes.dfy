/**
 What the seven patterns of the normalizer match (backend/app/ingestion/normalizer.py:13-23), written out
 character by character and without regular expressions.
 */
module Shapes {
  import opened Wrappers
  import opened Regex
  import opened Substitution
  import opened Normalizer

  // ----- Layouts -----

  predicate HexDigit(c: char) {
    '0' <= c <= '9' || 'a' <= c <= 'f' || 'A' <= c <= 'F'
  }

  /** In a layout d is any digit, h any hexadecimal digit, and every other character itself. */
  predicate FitsChar(u: Unicode, l: char, c: char) {
    if l == 'd' then u.digit(c) else if l == 'h' then HexDigit(c) else c == l
  }

  ghost predicate Fits(u: Unicode, layout: string, w: string) {
    |w| == |layout| && forall i :: 0 <= i < |w| ==> FitsChar(u, layout[i], w[i])
  }

  ghost predicate AllDigits(u: Unicode, w: string) {
    forall i :: 0 <= i < |w| ==> u.digit(w[i])
  }

  ghost predicate Integer(u: Unicode, h: string) {
    h != "" && AllDigits(u, h)
  }

  // ----- The seven kinds of token -----

  ghost predicate IsDate(u: Unicode, w: string) {
    Fits(u, "dddd-dd-dd", w)
  }

  ghost predicate IsFraction(u: Unicode, w: string) {
    w == "" || (w[0] == '.' && Integer(u, w[1..]))
  }

  ghost predicate IsClock(u: Unicode, w: string) {
    |w| >= 8 && Fits(u, "dd:dd:dd", w[..8]) && IsFraction(u, w[8..])
  }

  ghost predicate IsZone(u: Unicode, w: string) {
    w == "" || w == "Z" || (w[0] in "+-" && (Fits(u, "dddd", w[1..]) || Fits(u, "dd:dd", w[1..])))
  }

  ghost predicate IsTimestamp(u: Unicode, w: string) {
    exists d, t, z :: IsDate(u, d) && IsClock(u, t) && IsZone(u, z) && (w == d + "T" + t + z || w == d + " " + t + z)
  }

  ghost predicate IsUuid(u: Unicode, w: string) {
    Fits(u, "hhhhhhhh-hhhh-hhhh-hhhh-hhhhhhhhhhhh", w)
  }

  ghost predicate IsOctet(u: Unicode, w: string) {
    1 <= |w| <= 3 && AllDigits(u, w)
  }

  ghost predicate IsIp(u: Unicode, w: string) {
    exists a, b, c, d :: IsOctet(u, a) && IsOctet(u, b) && IsOctet(u, c) && IsOctet(u, d) &&
      w == a + ("." + (b + ("." + (c + ("." + d)))))
  }

  ghost predicate IsHexLiteral(w: string) {
    |w| >= 3 && w[0] == '0' && w[1] in "xX" && forall i :: 2 <= i < |w| ==> HexDigit(w[i])
  }

  ghost predicate IsNumber(u: Unicode, w: string) {
    exists h, f :: Integer(u, h) && IsFraction(u, f) && w == h + f
  }

  ghost predicate IsToken(u: Unicode, n: nat, w: string) {
    match n
    case 0 => IsTimestamp(u, w)
    case 1 => IsDate(u, w)
    case 2 => IsClock(u, w)
    case 3 => IsUuid(u, w)
    case 4 => IsIp(u, w)
    case 5 => IsHexLiteral(w)
    case _ => IsNumber(u, w)
  }

  // ----- Layouts of regular expressions -----

  /** The language of r is the texts of this layout. */
  ghost predicate Layouts(u: Unicode, r: Regex, layout: string) {
    forall w :: Accepts(u, r, w) <==> Fits(u, layout, w)
  }

  /** The language of r is a text of this layout and then one of rest. */
  ghost predicate Front(u: Unicode, r: Regex, layout: string, rest: Regex) {
    forall w :: Accepts(u, r, w) <==>
      |layout| <= |w| && Fits(u, layout, w[..|layout|]) && Accepts(u, rest, w[|layout|..])
  }

  lemma LayoutTimes(u: Unicode, k: Class, layout: string)
    requires forall i :: 0 <= i < |layout| ==> forall c :: In(u, k, c) <==> FitsChar(u, layout[i], c)
    ensures Layouts(u, Times(k, |layout|), layout)
  {
    hide In, FitsChar;
  }

  lemma LayoutDigits(u: Unicode)
    ensures Layouts(u, Digits(2), "dd") && Layouts(u, Digits(4), "dddd")
  {
    LayoutTimes(u, Digit, "dd");
    LayoutTimes(u, Digit, "dddd");
  }

  lemma LayoutHex(u: Unicode)
    ensures Layouts(u, HexGroup(4), "hhhh") && Layouts(u, HexGroup(8), "hhhhhhhh")
    ensures Layouts(u, HexGroup(12), "hhhhhhhhhhhh")
  {
    LayoutTimes(u, Hex, "hhhh");
    LayoutTimes(u, Hex, "hhhhhhhh");
    LayoutTimes(u, Hex, "hhhhhhhhhhhh");
  }

  lemma LayoutLit(u: Unicode, c: char)
    requires c != 'd' && c != 'h'
    ensures Layouts(u, Lit(c), [c])
  {
    LayoutTimes(u, Just(c), [c]);
  }

  lemma FitsParts(u: Unicode, l: string, m: string, w: string)
    ensures Fits(u, l + m, w) <==> |l| <= |w| && Fits(u, l, w[..|l|]) && Fits(u, m, w[|l|..])
  {
    hide FitsChar;
    if |l| <= |w| && Fits(u, l, w[..|l|]) && Fits(u, m, w[|l|..]) {
      forall i | 0 <= i < |w| ensures FitsChar(u, (l + m)[i], w[i]) {
        if i < |l| { assert w[..|l|][i] == w[i]; } else { assert w[|l|..][i - |l|] == w[i]; }
      }
    }
    if Fits(u, l + m, w) {
      assert forall i :: 0 <= i < |l| ==> (l + m)[i] == l[i];
      assert forall i :: 0 <= i < |m| ==> (l + m)[|l| + i] == m[i];
    }
  }

  /** A part of fixed length comes off the front. */
  lemma FrontOf(u: Unicode, a: Regex, l: string, rest: Regex)
    requires Layouts(u, a, l)
    ensures Front(u, Then(a, rest), l, rest)
  {
    hide Fits;
    forall w ensures Accepts(u, Then(a, rest), w) <==>
      |l| <= |w| && Fits(u, l, w[..|l|]) && Accepts(u, rest, w[|l|..]) {
      if Accepts(u, Then(a, rest), w) {
        var m := ThenSplits(u, a, rest, w);
        FitsLength(u, l, w[..m]);
      }
    }
  }

  lemma FitsLength(u: Unicode, l: string, w: string)
    requires Fits(u, l, w)
    ensures |w| == |l|
  {
  }

  lemma LayoutThen(u: Unicode, a: Regex, l: string, b: Regex, m: string)
    requires Layouts(u, a, l) && Layouts(u, b, m)
    ensures Layouts(u, Then(a, b), l + m)
  {
    FrontOf(u, a, l, b);
    hide Fits, Accepts;
    forall w ensures Accepts(u, Then(a, b), w) <==> Fits(u, l + m, w) { FitsParts(u, l, m, w); }
  }

  lemma FrontThen(u: Unicode, a: Regex, l: string, b: Regex, m: string, rest: Regex)
    requires Layouts(u, a, l) && Front(u, b, m, rest)
    ensures Front(u, Then(a, b), l + m, rest)
  {
    FrontOf(u, a, l, b);
    forall w ensures Accepts(u, Then(a, b), w) <==>
      |l + m| <= |w| && Fits(u, l + m, w[..|l + m|]) && Accepts(u, rest, w[|l + m|..]) {
      hide *;
      FrontTwice(u, a, l, b, m, rest, w);
    }
  }

  lemma FrontTwice(u: Unicode, a: Regex, l: string, b: Regex, m: string, rest: Regex, w: string)
    requires Front(u, Then(a, b), l, b) && Front(u, b, m, rest)
    ensures Accepts(u, Then(a, b), w) <==>
            |l + m| <= |w| && Fits(u, l + m, w[..|l + m|]) && Accepts(u, rest, w[|l + m|..])
  {
    hide Front, Fits, Accepts;
    FrontAt(u, Then(a, b), l, b, w);
    if |l| <= |w| { FrontAt(u, b, m, rest, w[|l|..]); }
    if |l + m| <= |w| {
      FitsParts(u, l, m, w[..|l + m|]);
      assert w[..|l + m|][..|l|] == w[..|l|] && w[..|l + m|][|l|..] == w[|l|..][..|m|];
      assert w[|l + m|..] == w[|l|..][|m|..];
    }
  }

  lemma FrontAt(u: Unicode, r: Regex, l: string, rest: Regex, w: string)
    requires Front(u, r, l, rest)
    ensures Accepts(u, r, w) <==> |l| <= |w| && Fits(u, l, w[..|l|]) && Accepts(u, rest, w[|l|..])
  {
  }

  // ----- The languages -----

  lemma DateLanguage(u: Unicode)
    ensures Layouts(u, DateBody(), "dddd-dd-dd")
  {
    hide *;
    LayoutDigits(u);
    LayoutLit(u, '-');
    LayoutThen(u, Lit('-'), "-", Digits(2), "dd");
    LayoutThen(u, Digits(2), "dd", Then(Lit('-'), Digits(2)), "-" + "dd");
    LayoutThen(u, Lit('-'), "-", Then(Digits(2), Then(Lit('-'), Digits(2))), "dd" + ("-" + "dd"));
    LayoutThen(u, Digits(4), "dddd", Then(Lit('-'), Then(Digits(2), Then(Lit('-'), Digits(2)))),
               "-" + ("dd" + ("-" + "dd")));
    DateParts();
    assert "dddd" + ("-" + ("dd" + ("-" + "dd"))) == "dddd-dd-dd";
  }

  lemma DateParts()
    ensures DateBody() == Then(Digits(4), Then(Lit('-'), Then(Digits(2), Then(Lit('-'), Digits(2)))))
  {
  }

  lemma UuidLanguage(u: Unicode)
    ensures Layouts(u, UuidBody(), "hhhhhhhh-hhhh-hhhh-hhhh-hhhhhhhhhhhh")
  {
    hide *;
    LayoutHex(u);
    LayoutLit(u, '-');
    var g, l, dash := HexGroup(4), "hhhh", Lit('-');
    var r1, m1 := Then(dash, HexGroup(12)), "-" + "hhhhhhhhhhhh";
    LayoutThen(u, dash, "-", HexGroup(12), "hhhhhhhhhhhh");
    LayoutThen(u, g, l, r1, m1);
    LayoutThen(u, dash, "-", Then(g, r1), l + m1);
    var r2, m2 := Then(dash, Then(g, r1)), "-" + (l + m1);
    LayoutThen(u, g, l, r2, m2);
    LayoutThen(u, dash, "-", Then(g, r2), l + m2);
    var r3, m3 := Then(dash, Then(g, r2)), "-" + (l + m2);
    LayoutThen(u, g, l, r3, m3);
    LayoutThen(u, dash, "-", Then(g, r3), l + m3);
    LayoutThen(u, HexGroup(8), "hhhhhhhh", Then(dash, Then(g, r3)), "-" + (l + m3));
    UuidParts();
    assert "hhhhhhhh" + ("-" + (l + m3)) == "hhhhhhhh-hhhh-hhhh-hhhh-hhhhhhhhhhhh";
  }

  lemma UuidParts()
    ensures var g, dash := HexGroup(4), Lit('-');
            UuidBody() == Then(HexGroup(8), Then(dash, Then(g, Then(dash, Then(g, Then(dash, Then(g, Then(dash,
              HexGroup(12)))))))))
  {
  }

  lemma IntegerLanguage(u: Unicode, w: string)
    ensures Accepts(u, Many(Digit), w) <==> Integer(u, w)
  {
  }

  /** A part of one character comes off the front. */
  lemma OneFirst(u: Unicode, k: Class, r: Regex, w: string)
    ensures Accepts(u, Then(One(k), r), w) <==> w != "" && In(u, k, w[0]) && Accepts(u, r, w[1..])
  {
    hide In;
    if Accepts(u, Then(One(k), r), w) {
      var m := ThenSplits(u, One(k), r, w);
      assert |w[..m]| == 1 && In(u, k, w[..m][0]);
    }
    if w != "" && In(u, k, w[0]) { assert Accepts(u, One(k), w[..1]); }
  }

  lemma FractionLanguage(u: Unicode, w: string)
    ensures Accepts(u, Fraction(), w) <==> IsFraction(u, w)
  {
    OneFirst(u, Just('.'), Many(Digit), w);
    if w != "" { IntegerLanguage(u, w[1..]); }
    hide Many, One, Integer;
  }

  lemma ClockFront(u: Unicode)
    ensures Front(u, ClockBody(), "dd:dd:dd", Fraction())
  {
    hide *;
    LayoutDigits(u);
    LayoutLit(u, ':');
    var r1 := Then(Digits(2), Fraction());
    FrontOf(u, Digits(2), "dd", Fraction());
    FrontThen(u, Lit(':'), ":", r1, "dd", Fraction());
    var r2, m2 := Then(Lit(':'), r1), ":" + "dd";
    FrontThen(u, Digits(2), "dd", r2, m2, Fraction());
    FrontThen(u, Lit(':'), ":", Then(Digits(2), r2), "dd" + m2, Fraction());
    FrontThen(u, Digits(2), "dd", Then(Lit(':'), Then(Digits(2), r2)), ":" + ("dd" + m2), Fraction());
    ClockParts();
    assert "dd" + (":" + ("dd" + m2)) == "dd:dd:dd";
  }

  lemma ClockParts()
    ensures ClockBody() == Then(Digits(2), Then(Lit(':'), Then(Digits(2), Then(Lit(':'), Then(Digits(2), Fraction())))))
  {
  }

  lemma ClockLanguage(u: Unicode, w: string)
    ensures Accepts(u, ClockBody(), w) <==> IsClock(u, w)
  {
    ClockFront(u);
    hide ClockBody, Fraction, Accepts, Fits, IsFraction;
    if |w| >= 8 { FractionLanguage(u, w[8..]); }
  }

  lemma OffsetLanguage(u: Unicode, w: string)
    ensures Accepts(u, Then(Digits(2), Then(Maybe(Lit(':')), Digits(2))), w) <==>
            Fits(u, "dddd", w) || Fits(u, "dd:dd", w)
  {
    hide *;
    var colon, two := Lit(':'), Digits(2);
    LayoutDigits(u);
    LayoutLit(u, ':');
    FrontOf(u, two, "dd", Then(Maybe(colon), two));
    LayoutThen(u, colon, ":", two, "dd");
    FrontAt(u, Then(two, Then(Maybe(colon), two)), "dd", Then(Maybe(colon), two), w);
    FitsParts(u, "dd", "dd", w);
    FitsParts(u, "dd", ":dd", w);
    assert "dd" + "dd" == "dddd" && "dd" + ":dd" == "dd:dd" && ":" + "dd" == ":dd";
    if |w| >= 2 {
      OptionalFirst(u, colon, two, w[2..]);
      LayoutAt(u, two, "dd", w[2..]);
      LayoutAt(u, Then(colon, two), ":dd", w[2..]);
    }
  }

  lemma LayoutAt(u: Unicode, r: Regex, l: string, w: string)
    requires Layouts(u, r, l)
    ensures Accepts(u, r, w) <==> Fits(u, l, w)
  {
  }

  lemma OptionalFirst(u: Unicode, a: Regex, b: Regex, w: string)
    ensures Accepts(u, Then(Maybe(a), b), w) <==> Accepts(u, Then(a, b), w) || Accepts(u, b, w)
  {
    if Accepts(u, b, w) { assert w[..0] == "" && w[0..] == w; }
    if Accepts(u, Then(Maybe(a), b), w) {
      var m := ThenSplits(u, Maybe(a), b, w);
      if w[..m] == "" { assert w[m..] == w; }
    }
    if Accepts(u, Then(a, b), w) { var m := ThenSplits(u, a, b, w); }
  }

  lemma ZoneLanguage(u: Unicode, w: string)
    ensures Accepts(u, Zone(), w) <==> IsZone(u, w)
  {
    var offset := Then(Digits(2), Then(Maybe(Lit(':')), Digits(2)));
    LayoutLit(u, 'Z');
    assert Fits(u, "Z", w) <==> w == "Z";
    if w != "" {
      OffsetLanguage(u, w[1..]);
      OneFirst(u, AnyOf("+-"), offset, w);
    }
    hide Lit, Digits, Fits;
    assert Zone() == Maybe(Either(Lit('Z'), Then(One(AnyOf("+-")), offset)));
  }

  /** In a hexadecimal literal the digits begin after two characters. */
  lemma HexLanguage(u: Unicode, w: string)
    ensures Accepts(u, HexBody(), w) <==> IsHexLiteral(w)
  {
    OneFirst(u, Just('0'), Then(One(AnyOf("xX")), Many(Hex)), w);
    if w != "" {
      OneFirst(u, AnyOf("xX"), Many(Hex), w[1..]);
      if |w| > 1 {
        assert w[1..][1..] == w[2..] && forall i :: 2 <= i < |w| ==> w[i] == w[2..][i - 2];
        HexDigits(u, w[2..]);
      }
    }
    hide Many, One, HexDigit, Accepts;
  }

  lemma HexDigits(u: Unicode, w: string)
    ensures Accepts(u, Many(Hex), w) <==> w != "" && forall i :: 0 <= i < |w| ==> HexDigit(w[i])
  {
  }

  lemma OctetLanguage(u: Unicode, w: string)
    ensures Accepts(u, Octet(), w) <==> IsOctet(u, w)
  {
  }

  lemma NumberLanguage(u: Unicode, w: string)
    ensures Accepts(u, NumBody(), w) <==> IsNumber(u, w)
  {
    hide Many, Fraction, Accepts, Integer, IsFraction;
    if Accepts(u, NumBody(), w) {
      var m := ThenSplits(u, Many(Digit), Fraction(), w);
      IntegerLanguage(u, w[..m]);
      FractionLanguage(u, w[m..]);
      assert w == w[..m] + w[m..];
    }
    if IsNumber(u, w) {
      var h, f :| Integer(u, h) && IsFraction(u, f) && w == h + f;
      IntegerLanguage(u, h);
      FractionLanguage(u, f);
      AcceptsThen(u, Many(Digit), Fraction(), h, f);
    }
  }

  // ----- Addresses -----

  function IpTail(k: nat): Regex
    requires k < 4
  {
    if k == 0 then Octet() else Then(Octet(), Then(Lit('.'), IpTail(k - 1)))
  }

  /** k + 1 octets with dots between. */
  ghost predicate IsTail(u: Unicode, k: nat, w: string) {
    if k == 0 then IsOctet(u, w)
    else exists a, rest :: IsOctet(u, a) && w == a + ("." + rest) && IsTail(u, k - 1, rest)
  }

  lemma {:induction false} TailLanguage(u: Unicode, k: nat, w: string)
    requires k < 4
    ensures Accepts(u, IpTail(k), w) <==> IsTail(u, k, w)
  {
    hide Octet, Accepts, IsOctet, Lit;
    if k == 0 { OctetLanguage(u, w); }
    else {
      var r := Then(Lit('.'), IpTail(k - 1));
      if Accepts(u, IpTail(k), w) {
        var m := ThenSplits(u, Octet(), r, w);
        OctetLanguage(u, w[..m]);
        DotFirst(u, IpTail(k - 1), w[m..]);
        TailLanguage(u, k - 1, w[m..][1..]);
        assert w == w[..m] + ("." + w[m..][1..]);
      }
      if IsTail(u, k, w) {
        var a, rest :| IsOctet(u, a) && w == a + ("." + rest) && IsTail(u, k - 1, rest);
        OctetLanguage(u, a);
        TailLanguage(u, k - 1, rest);
        assert ("." + rest)[1..] == rest;
        DotFirst(u, IpTail(k - 1), "." + rest);
        AcceptsThen(u, Octet(), r, a, "." + rest);
      }
    }
  }

  lemma DotFirst(u: Unicode, r: Regex, w: string)
    ensures Accepts(u, Then(Lit('.'), r), w) <==> w != "" && w[0] == '.' && Accepts(u, r, w[1..])
  {
    OneFirst(u, Just('.'), r, w);
  }

  lemma IpLanguage(u: Unicode, w: string)
    ensures Accepts(u, IpBody(), w) <==> IsIp(u, w)
  {
    TailLanguage(u, 3, w);
    IpParts();
    FourOctets(u, w);
    hide IsTail, IsIp, IpBody, IpTail, Accepts;
  }

  lemma IpParts()
    ensures IpBody() == IpTail(3)
  {
  }

  lemma TailParts(u: Unicode, k: nat, w: string) returns (a: string, rest: string)
    requires k > 0 && IsTail(u, k, w)
    ensures IsOctet(u, a) && w == a + ("." + rest) && IsTail(u, k - 1, rest)
  {
    hide IsOctet;
    a, rest :| IsOctet(u, a) && w == a + ("." + rest) && IsTail(u, k - 1, rest);
  }

  lemma TailOf(u: Unicode, k: nat, a: string, rest: string)
    requires k > 0 && IsOctet(u, a) && IsTail(u, k - 1, rest)
    ensures IsTail(u, k, a + ("." + rest))
  {
    hide IsOctet;
  }

  lemma LastOctet(u: Unicode, w: string)
    ensures IsTail(u, 0, w) <==> IsOctet(u, w)
  {
  }

  lemma FourOctets(u: Unicode, w: string)
    ensures IsTail(u, 3, w) <==> IsIp(u, w)
  {
    hide IsOctet, IsTail;
    if IsTail(u, 3, w) {
      var a, x := TailParts(u, 3, w);
      var b, y := TailParts(u, 2, x);
      var c, d := TailParts(u, 1, y);
      LastOctet(u, d);
    }
    if IsIp(u, w) {
      var a, b, c, d :| IsOctet(u, a) && IsOctet(u, b) && IsOctet(u, c) && IsOctet(u, d) &&
        w == a + ("." + (b + ("." + (c + ("." + d)))));
      LastOctet(u, d);
      TailOf(u, 1, c, d);
      TailOf(u, 2, b, c + ("." + d));
      TailOf(u, 3, a, b + ("." + (c + ("." + d))));
    }
  }

  // ----- Timestamps -----

  lemma TimestampParts(u: Unicode, w: string) returns (d: string, sep: char, t: string, z: string)
    requires Accepts(u, TimestampBody(), w)
    ensures IsDate(u, d) && sep in "T " && IsClock(u, t) && IsZone(u, z) && w == d + [sep] + t + z
  {
    hide DateBody, ClockBody, Zone, Accepts, IsClock, IsZone, Fits;
    var rest := Then(ClockBody(), Zone());
    var m := ThenSplits(u, DateBody(), Then(One(AnyOf("T ")), rest), w);
    DateLanguage(u);
    d := w[..m];
    OneFirst(u, AnyOf("T "), rest, w[m..]);
    var v := w[m..][1..];
    var x := ThenSplits(u, ClockBody(), Zone(), v);
    sep, t, z := w[m..][0], v[..x], v[x..];
    ClockLanguage(u, t);
    ZoneLanguage(u, z);
    assert w == d + ([sep] + (t + z));
  }

  lemma TimestampAccepted(u: Unicode, d: string, sep: char, t: string, z: string)
    requires IsDate(u, d) && sep in "T " && IsClock(u, t) && IsZone(u, z)
    ensures Accepts(u, TimestampBody(), d + [sep] + t + z)
  {
    hide DateBody, ClockBody, Zone, Accepts, IsClock, IsZone, Fits;
    var rest := Then(ClockBody(), Zone());
    DateLanguage(u);
    ClockLanguage(u, t);
    ZoneLanguage(u, z);
    AcceptsThen(u, ClockBody(), Zone(), t, z);
    var v := [sep] + (t + z);
    assert v[1..] == t + z;
    OneFirst(u, AnyOf("T "), rest, v);
    AcceptsThen(u, DateBody(), Then(One(AnyOf("T ")), rest), d, v);
    assert d + v == d + [sep] + t + z;
  }

  lemma TimestampLanguage(u: Unicode, w: string)
    ensures Accepts(u, TimestampBody(), w) <==> IsTimestamp(u, w)
  {
    hide TimestampBody, Accepts, IsDate, IsClock, IsZone;
    if Accepts(u, TimestampBody(), w) {
      var d, sep, t, z := TimestampParts(u, w);
      assert [sep] == "T" || [sep] == " ";
    }
    if IsTimestamp(u, w) {
      var d, t, z :| IsDate(u, d) && IsClock(u, t) && IsZone(u, z) && (w == d + "T" + t + z || w == d + " " + t + z);
      TimestampAccepted(u, d, 'T', t, z);
      TimestampAccepted(u, d, ' ', t, z);
    }
  }

  /** The language of every pattern is exactly the tokens of its kind. */
  lemma TokenLanguage(u: Unicode, n: nat, w: string)
    requires n < 7
    ensures Accepts(u, Substitutions()[n].body, w) <==> IsToken(u, n, w)
  {
    hide TimestampBody, DateBody, ClockBody, UuidBody, IpBody, HexBody, NumBody, Accepts;
    hide IsTimestamp, IsClock, IsIp, IsHexLiteral, IsNumber, Fits;
    match n
    case 0 => TimestampLanguage(u, w);
    case 1 => DateLanguage(u);
    case 2 => ClockLanguage(u, w);
    case 3 => UuidLanguage(u);
    case 4 => IpLanguage(u, w);
    case 5 => HexLanguage(u, w);
    case _ => NumberLanguage(u, w);
  }
}
