/**
 What sanitising does to a text (backend/app/triage/sanitize.py), told by code points and by the markers as
 they are written.
 */
module Redaction {
  import opened Wrappers
  import opened Regex
  import opened Substitution
  import opened Greedy
  import opened Text
  import opened Sanitizer
  import opened Prompts

  // ----- Control characters -----

  /** Every code point below the blank but tab, line feed and carriage return. */
  predicate Dropped(c: char) {
    var n := c as int;
    0 <= n <= 8 || n == 11 || n == 12 || 14 <= n <= 31
  }

  lemma ControlCodes(u: Unicode, c: char)
    ensures In(u, Control, c) <==> Dropped(c)
  {
    assert '\t' as int == 9 && '\n' as int == 10 && '\r' as int == 13 && ' ' as int == 32;
  }

  /** The characters that stay, in their order. */
  function Kept(text: string): string {
    if text == "" then "" else (if Dropped(text[0]) then "" else [text[0]]) + Kept(text[1..])
  }

  lemma {:induction false} ControlsRemoved(u: Unicode, s: string, i: nat)
    requires i <= |s|
    ensures SubFrom(u, ControlChar(), "", s, i) == Kept(s[i..])
    decreases |s| - i
  {
    hide Dropped, FirstMatch, In;
    if i < |s| {
      ControlMatch(u, s, i);
      ControlCodes(u, s[i]);
      ControlsRemoved(u, s, i + 1);
      assert s[i..][0] == s[i] && s[i..][1..] == s[i + 1..];
    }
  }

  lemma {:induction false} NothingDropped(text: string)
    requires forall i :: 0 <= i < |text| ==> !Dropped(text[i])
    ensures Kept(text) == text
  {
    if text != "" { NothingDropped(text[1..]); }
  }

  // ----- Markers -----

  ghost predicate AllBlank(u: Unicode, g: string) {
    forall i :: 0 <= i < |g| ==> u.space(g[i])
  }

  /** Three hash marks and a word, with any white space between. */
  ghost predicate HashForm(u: Unicode, word: string, w: string) {
    exists g, x :: AllBlank(u, g) && w == "###" + g + x && Folds(u, x, word)
  }

  /** The word end between angle brackets, with any white space around it. */
  ghost predicate EndForm(u: Unicode, w: string) {
    exists g, x, h :: AllBlank(u, g) && AllBlank(u, h) && w == "<<<" + g + x + h + ">>>" && Folds(u, x, "end")
  }

  /** The markers as they are written, letters in any case. */
  ghost predicate IsMarker(u: Unicode, w: string) {
    || Folds(u, w, "<|im_start|>") || Folds(u, w, "<|im_end|>")
    || HashForm(u, "system", w) || HashForm(u, "instructions", w) || EndForm(u, w)
  }

  lemma {:induction false} WordLanguage(u: Unicode, w: string, s: string)
    requires s != ""
    ensures Accepts(u, Word(s), w) <==> Folds(u, w, s)
  {
    if Folds(u, w, s) { AcceptsWord(u, w, s); }
    if Accepts(u, Word(s), w) {
      var k := if AsciiLetter(s[0]) then Letter(s[0]) else Just(s[0]);
      if |s| == 1 { assert Word(s) == One(k) && In(u, k, w[0]); }
      else {
        var m := ThenSplits(u, One(k), Word(s[1..]), w);
        assert |w[..m]| == 1 && In(u, k, w[..m][0]);
        WordLanguage(u, w[1..], s[1..]);
        assert forall i :: 1 <= i < |s| ==> s[i] == s[1..][i - 1] && w[i] == w[1..][i - 1];
      }
    }
  }

  lemma GapLanguage(u: Unicode, g: string)
    ensures Accepts(u, Gap(), g) <==> AllBlank(u, g)
  {
    if AllBlank(u, g) { assert forall i :: 0 <= i < |g| ==> In(u, Space, g[i]); }
    if Accepts(u, Gap(), g) { assert forall i :: 0 <= i < |g| ==> In(u, Space, g[i]); }
  }

  lemma FoldsParts(u: Unicode, w: string, s: string, t: string)
    ensures Folds(u, w, s + t) <==> |s| <= |w| && Folds(u, w[..|s|], s) && Folds(u, w[|s|..], t)
  {
    if |s| <= |w| && Folds(u, w[..|s|], s) && Folds(u, w[|s|..], t) {
      assert forall i :: 0 <= i < |s| ==> w[..|s|][i] == w[i] && (s + t)[i] == s[i];
      assert forall i :: |s| <= i < |s + t| ==> w[|s|..][i - |s|] == w[i] && (s + t)[i] == t[i - |s|];
    }
    if Folds(u, w, s + t) {
      assert forall i :: 0 <= i < |s| ==> (s + t)[i] == s[i];
      assert forall i :: 0 <= i < |t| ==> (s + t)[|s| + i] == t[i];
    }
  }

  /** A word and then a text of r. */
  lemma WordThen(u: Unicode, s: string, r: Regex, w: string)
    requires s != ""
    ensures Accepts(u, Then(Word(s), r), w) <==> |s| <= |w| && Folds(u, w[..|s|], s) && Accepts(u, r, w[|s|..])
  {
    hide Word, Accepts;
    if Accepts(u, Then(Word(s), r), w) {
      var m := ThenSplits(u, Word(s), r, w);
      WordLanguage(u, w[..m], s);
      assert m == |s|;
    }
    if |s| <= |w| && Folds(u, w[..|s|], s) && Accepts(u, r, w[|s|..]) {
      WordLanguage(u, w[..|s|], s);
      AcceptsThen(u, Word(s), r, w[..|s|], w[|s|..]);
      assert w[..|s|] + w[|s|..] == w;
    }
  }

  lemma ChatLanguage(u: Unicode, w: string)
    ensures Accepts(u, ChatMarker(), w) <==> Folds(u, w, "<|im_start|>") || Folds(u, w, "<|im_end|>")
  {
    hide Word, Folds;
    var start, end := Then(Word("start"), Word("|>")), Then(Word("end"), Word("|>"));
    assert "<|im_start|>" == "<|im_" + ("start" + "|>") && "<|im_end|>" == "<|im_" + ("end" + "|>");
    FoldsParts(u, w, "<|im_", "start" + "|>");
    FoldsParts(u, w, "<|im_", "end" + "|>");
    WordThen(u, "<|im_", Then(Either(Word("start"), Word("end")), Word("|>")), w);
    if |w| >= 5 {
      var v := w[5..];
      FoldsParts(u, v, "start", "|>");
      FoldsParts(u, v, "end", "|>");
      WordThen(u, "start", Word("|>"), v);
      WordThen(u, "end", Word("|>"), v);
      if |v| >= 5 { WordLanguage(u, v[5..], "|>"); }
      if |v| >= 3 { WordLanguage(u, v[3..], "|>"); }
      EitherThen(u, Word("start"), Word("end"), Word("|>"), v);
    }
    hide Accepts;
  }

  lemma EitherThen(u: Unicode, a: Regex, b: Regex, r: Regex, w: string)
    ensures Accepts(u, Then(Either(a, b), r), w) <==> Accepts(u, Then(a, r), w) || Accepts(u, Then(b, r), w)
  {
    if Accepts(u, Then(Either(a, b), r), w) { var m := ThenSplits(u, Either(a, b), r, w); }
    if Accepts(u, Then(a, r), w) { var m := ThenSplits(u, a, r, w); }
    if Accepts(u, Then(b, r), w) { var m := ThenSplits(u, b, r, w); }
  }

  lemma Literal(u: Unicode, w: string, s: string)
    requires forall i :: 0 <= i < |s| ==> !AsciiLetter(s[i])
    ensures Folds(u, w, s) <==> w == s
  {
  }

  lemma HashLanguage(u: Unicode, word: string, w: string)
    requires word != ""
    ensures Accepts(u, HashMarker(word), w) <==> HashForm(u, word, w)
  {
    hide Word, Folds, Gap, AllBlank;
    var r := Then(Gap(), Word(word));
    WordThen(u, "###", r, w);
    if Accepts(u, HashMarker(word), w) {
      Literal(u, w[..3], "###");
      var m := ThenSplits(u, Gap(), Word(word), w[3..]);
      var g, x := w[3..][..m], w[3..][m..];
      GapLanguage(u, g);
      WordLanguage(u, x, word);
      assert w == "###" + g + x;
    }
    if g, x :| AllBlank(u, g) && w == "###" + g + x && Folds(u, x, word) {
      GapLanguage(u, g);
      WordLanguage(u, x, word);
      AcceptsThen(u, Gap(), Word(word), g, x);
      assert w[..3] == "###" && w[3..] == g + x;
      Literal(u, w[..3], "###");
    }
  }

  lemma EndLanguage(u: Unicode, w: string)
    ensures Accepts(u, EndMarker(), w) <==> EndForm(u, w)
  {
    hide EndMarker, Accepts, Folds, AllBlank;
    if Accepts(u, EndMarker(), w) { var g, x, h := EndParts(u, w); }
    if g, x, h :| AllBlank(u, g) && AllBlank(u, h) && w == "<<<" + g + x + h + ">>>" && Folds(u, x, "end") {
      EndAccepted(u, g, x, h);
    }
  }

  lemma EndParts(u: Unicode, w: string) returns (g: string, x: string, h: string)
    requires Accepts(u, EndMarker(), w)
    ensures AllBlank(u, g) && AllBlank(u, h) && w == "<<<" + g + x + h + ">>>" && Folds(u, x, "end")
  {
    hide Word, Folds, Gap, AllBlank, Accepts;
    var close := Then(Gap(), Word(">>>"));
    var r := Then(Word("end"), close);
    WordThen(u, "<<<", Then(Gap(), r), w);
    Literal(u, w[..3], "<<<");
    var m := ThenSplits(u, Gap(), r, w[3..]);
    g := w[3..][..m];
    var v := w[3..][m..];
    GapLanguage(u, g);
    WordThen(u, "end", close, v);
    x := v[..3];
    var k := ThenSplits(u, Gap(), Word(">>>"), v[3..]);
    h := v[3..][..k];
    GapLanguage(u, h);
    WordLanguage(u, v[3..][k..], ">>>");
    Literal(u, v[3..][k..], ">>>");
    assert w == "<<<" + g + x + h + ">>>";
  }

  lemma EndAccepted(u: Unicode, g: string, x: string, h: string)
    requires AllBlank(u, g) && AllBlank(u, h) && Folds(u, x, "end")
    ensures Accepts(u, EndMarker(), "<<<" + g + x + h + ">>>")
  {
    hide Word, Folds, Gap, AllBlank, Accepts;
    var close := Then(Gap(), Word(">>>"));
    GapLanguage(u, g);
    GapLanguage(u, h);
    Literal(u, "<<<", "<<<");
    Literal(u, ">>>", ">>>");
    WordLanguage(u, "<<<", "<<<");
    WordLanguage(u, ">>>", ">>>");
    WordLanguage(u, x, "end");
    AcceptsThen(u, Gap(), Word(">>>"), h, ">>>");
    AcceptsThen(u, Word("end"), close, x, h + ">>>");
    AcceptsThen(u, Gap(), Then(Word("end"), close), g, x + (h + ">>>"));
    AcceptsThen(u, Word("<<<"), Then(Gap(), Then(Word("end"), close)), "<<<", g + (x + (h + ">>>")));
    assert "<<<" + (g + (x + (h + ">>>"))) == "<<<" + g + x + h + ">>>";
  }

  lemma EitherLanguage(u: Unicode, a: Regex, b: Regex, w: string)
    ensures Accepts(u, Either(a, b), w) <==> Accepts(u, a, w) || Accepts(u, b, w)
  {
  }

  /** The pattern matches exactly the markers. */
  lemma MarkerLanguage(u: Unicode, w: string)
    ensures Accepts(u, Markers().body, w) <==> IsMarker(u, w)
  {
    hide ChatMarker, HashMarker, EndMarker, Folds, HashForm, EndForm, Accepts;
    var instructions := Either(HashMarker("instructions"), EndMarker());
    EitherLanguage(u, HashMarker("instructions"), EndMarker(), w);
    EitherLanguage(u, HashMarker("system"), instructions, w);
    EitherLanguage(u, ChatMarker(), Either(HashMarker("system"), instructions), w);
    ChatLanguage(u, w);
    HashLanguage(u, "system", w);
    HashLanguage(u, "instructions", w);
    EndLanguage(u, w);
  }

  // ----- The whole -----

  /** Where a marker begins at x, or none begins anywhere from i on. */
  ghost predicate MarkerAt(u: Unicode, s: string, x: nat, j: nat) {
    x <= j <= |s| && IsMarker(u, s[x..j])
  }

  /** t is s from i on with markers replaced from left to right. */
  ghost predicate Redacted(u: Unicode, s: string, i: nat, t: string)
    requires i <= |s|
    decreases |s| - i
  {
    || ((forall y, e :: i <= y ==> !MarkerAt(u, s, y, e)) && t == s[i..])
    || exists x: nat, j: nat, rest: string ::
         && i <= x < j && MarkerAt(u, s, x, j) && (forall y, e :: i <= y < x ==> !MarkerAt(u, s, y, e))
         && t == s[i..x] + "[REDACTED]" + rest && Redacted(u, s, j, rest)
  }

  lemma MarkerMatches(u: Unicode, s: string, x: nat, j: nat)
    ensures MarkerAt(u, s, x, j) <==> Matches(u, Markers(), s, x, j)
  {
    MarkersShape();
    hide Markers, Accepts, IsMarker;
    if x <= j <= |s| { MarkerLanguage(u, s[x..j]); }
  }

  lemma {:induction false} MarkersRedacted(u: Unicode, s: string, i: nat)
    requires i <= |s|
    ensures Redacted(u, s, i, SubFrom(u, Markers(), REDACTED, s, i))
    decreases |s| - i
  {
    hide Markers, IsMarker, FirstMatch, MarkerAt;
    if forall y, e :: i <= y ==> !MarkerAt(u, s, y, e) {
      forall y: nat, e: nat | i <= y ensures !Matches(u, Markers(), s, y, e) { MarkerMatches(u, s, y, e); }
      NothingReplaced(u, Markers(), REDACTED, s, i);
    } else {
      var x, j := FirstMarker(u, s, i);
      forall y: nat, e: nat | i <= y < x ensures !Matches(u, Markers(), s, y, e) { MarkerMatches(u, s, y, e); }
      ScanTo(u, Markers(), REDACTED, s, i, x);
      ScanStep(u, Markers(), REDACTED, s, x, Some(j));
      MarkersRedacted(u, s, j);
      var rest := SubFrom(u, Markers(), REDACTED, s, j);
      assert s[i..x] + (REDACTED + rest) == s[i..x] + "[REDACTED]" + rest;
    }
  }

  lemma {:induction false} FirstMarker(u: Unicode, s: string, i: nat) returns (x: nat, j: nat)
    requires i <= |s| && exists y, e :: i <= y && MarkerAt(u, s, y, e)
    ensures i <= x < j <= |s| && MarkerAt(u, s, x, j) && FirstMatch(u, Markers(), s, x) == Some(j)
    ensures forall y, e :: i <= y < x ==> !MarkerAt(u, s, y, e)
    decreases |s| - i
  {
    hide Markers, IsMarker, FirstMatch, MarkerAt;
    var y: nat, e: nat :| i <= y && MarkerAt(u, s, y, e);
    MarkerWithin(u, s, y, e);
    if FirstMatch(u, Markers(), s, i).Some? {
      x, j := i, FirstMatch(u, Markers(), s, i).value;
      MarkerMatches(u, s, x, j);
      MarkerWithin(u, s, x, j);
    } else {
      forall e: nat ensures !MarkerAt(u, s, i, e) { MarkerMatches(u, s, i, e); }
      x, j := FirstMarker(u, s, i + 1);
    }
  }

  lemma MarkerWithin(u: Unicode, s: string, x: nat, j: nat)
    requires MarkerAt(u, s, x, j)
    ensures x < j <= |s|
  {
    MarkersShape();
    hide Markers, IsMarker;
    MarkerMatches(u, s, x, j);
    NullableSound(u, Markers().body, s[x..j]);
  }

  /** Control characters go, markers are redacted in what is left, and the first 1000 characters stay. */
  lemma SanitizeMeans(u: Unicode, text: string)
    ensures exists t :: Redacted(u, Kept(text), 0, t) && Sanitize(u, text) == if |t| > 1000 then t[..1000] else t
  {
    hide Markers, Redacted, SubFrom;
    ControlsRemoved(u, text, 0);
    assert text[0..] == text;
    MarkersRedacted(u, Kept(text), 0);
    assert Redacted(u, Kept(text), 0, Sub(u, Markers(), REDACTED, Kept(text)));
  }

  /** A text of at most 1000 characters without control characters and markers passes unchanged. */
  lemma HarmlessPasses(u: Unicode, text: string)
    requires |text| <= 1000 && forall i :: 0 <= i < |text| ==> !Dropped(text[i])
    requires forall x, j :: !MarkerAt(u, text, x, j)
    ensures Sanitize(u, text) == text
  {
    hide Markers, SubFrom, IsMarker, Dropped, MarkerAt;
    ControlsRemoved(u, text, 0);
    assert text[0..] == text;
    NothingDropped(text);
    forall y: nat, e: nat ensures !Matches(u, Markers(), text, y, e) { MarkerMatches(u, text, y, e); }
    NothingReplaced(u, Markers(), REDACTED, text, 0);
  }
}
