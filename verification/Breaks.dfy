/**
 Markers across a line break. Sanitised fields hold no marker (backend/app/triage/sanitize.py), but white space
 inside a marker may be a line break, so two fields on consecutive lines of a prompt can form one together.
 */
module Breaks {
  import opened Regex
  import opened Substitution
  import opened Text
  import opened Sanitizer
  import opened Prompts

  /** What can stand before and after a line break inside a marker. */
  function Halves(): (halves: seq<(Regex, Regex)>)
    ensures |halves| == 4
  {
    [ (Then(Word("###"), Gap()), Then(Gap(), Word("system"))),
      (Then(Word("###"), Gap()), Then(Gap(), Word("instructions"))),
      (Then(Word("<<<"), Gap()), Then(Gap(), Then(Word("end"), Then(Gap(), Word(">>>"))))),
      (Then(Word("<<<"), Then(Gap(), Then(Word("end"), Gap()))), Then(Gap(), Word(">>>"))) ]
  }

  ghost predicate EndsLike(u: Unicode, a: string, r: Regex) {
    exists i :: 0 <= i <= |a| && Accepts(u, r, a[i..])
  }

  ghost predicate StartsLike(u: Unicode, b: string, r: Regex) {
    exists j :: 0 <= j <= |b| && Accepts(u, r, b[..j])
  }

  /** a ends as a marker begins, and b starts as the rest of it goes on after a line break. */
  ghost predicate Joins(u: Unicode, a: string, b: string) {
    exists h :: 0 <= h < 4 && EndsLike(u, a, Halves()[h].0) && StartsLike(u, b, Halves()[h].1)
  }

  // ----- Where a line break can be -----

  /** No character of a literal is a line break. */
  ghost predicate Solid(u: Unicode, r: Regex) {
    forall w :: Accepts(u, r, w) ==> '\n' !in w
  }

  lemma {:induction false} WordSolid(u: Unicode, s: string)
    requires Sane(u) && u.space('\n') && s != "" && '\n' !in s
    ensures Solid(u, Word(s))
  {
    forall w | Accepts(u, Word(s), w) ensures '\n' !in w { WordNoBreak(u, s, w); }
  }

  lemma {:induction false} WordNoBreak(u: Unicode, s: string, w: string)
    requires Sane(u) && u.space('\n') && s != "" && '\n' !in s && Accepts(u, Word(s), w)
    ensures '\n' !in w
  {
    var first := One(if AsciiLetter(s[0]) then Letter(s[0]) else Just(s[0]));
    if |s| == 1 {
      OneNoBreak(u, s[0], w);
    } else {
      var m :| 0 <= m <= |w| && Accepts(u, first, w[..m]) && Accepts(u, Word(s[1..]), w[m..]);
      OneNoBreak(u, s[0], w[..m]);
      WordNoBreak(u, s[1..], w[m..]);
      assert w == w[..m] + w[m..];
    }
  }

  lemma OneNoBreak(u: Unicode, c: char, w: string)
    requires Sane(u) && u.space('\n') && c != '\n'
    requires Accepts(u, One(if AsciiLetter(c) then Letter(c) else Just(c)), w)
    ensures '\n' !in w
  {
    assert |w| == 1 && In(u, if AsciiLetter(c) then Letter(c) else Just(c), w[0]);
  }

  lemma GapPieces(u: Unicode, p: string, q: string)
    ensures Accepts(u, Gap(), p + "\n" + q) ==> Accepts(u, Gap(), p) && Accepts(u, Gap(), q)
    ensures u.space('\n') && Accepts(u, Gap(), p) && Accepts(u, Gap(), q) ==> Accepts(u, Gap(), p + "\n" + q)
  {
    var w := p + "\n" + q;
    if AllIn(u, Space, w) {
      forall i | 0 <= i < |p| ensures In(u, Space, p[i]) { assert w[i] == p[i]; }
      forall i | 0 <= i < |q| ensures In(u, Space, q[i]) { assert w[|p| + 1 + i] == q[i]; }
    }
  }

  /** In x gap y, with a literal x, a line break lies in the gap or in y. */
  lemma BreakInGap(u: Unicode, x: Regex, y: Regex, p: string, q: string) returns (k: nat)
    requires Solid(u, x) && Accepts(u, Then(x, Then(Gap(), y)), p + "\n" + q)
    ensures || (Accepts(u, Then(x, Gap()), p) && Accepts(u, Then(Gap(), y), q))
            || (k <= |p| && Accepts(u, Then(x, Gap()), p[..k]) && Accepts(u, y, p[k..] + "\n" + q))
  {
    hide Gap, Solid, Accepts;
    var w := p + "\n" + q;
    assert w[|p|] == '\n';
    var m := ThenSplits(u, x, Then(Gap(), y), w);
    var n := ThenSplits(u, Gap(), y, w[m..]);
    SolidEndsBefore(u, x, w, m, |p|);
    var gap := w[m..][..n];
    k := m + n;
    assert w[m..][n..] == w[k..];
    if k <= |p| {
      assert p[..k] == w[..m] + gap && w[k..] == p[k..] + "\n" + q;
      AcceptsThen(u, x, Gap(), w[..m], gap);
    } else {
      var before, after := p[m..], w[|p| + 1..k];
      assert gap == before + "\n" + after;
      GapPieces(u, before, after);
      assert p == w[..m] + before && q == after + w[k..];
      AcceptsThen(u, x, Gap(), w[..m], before);
      AcceptsThen(u, Gap(), y, after, w[k..]);
    }
  }

  lemma SolidEndsBefore(u: Unicode, x: Regex, w: string, m: nat, n: nat)
    requires Solid(u, x) && m <= |w| && n < |w| && w[n] == '\n' && Accepts(u, x, w[..m])
    ensures m <= n
  {
    assert forall i :: 0 <= i < m ==> w[..m][i] == w[i] && w[..m][i] in w[..m];
  }

  /** Both halves around a line break make the whole. */
  lemma HalvesMeet(u: Unicode, x: Regex, y: Regex, p: string, q: string)
    requires u.space('\n') && Accepts(u, Then(x, Gap()), p) && Accepts(u, Then(Gap(), y), q)
    ensures Accepts(u, Then(x, Then(Gap(), y)), p + "\n" + q)
  {
    hide Gap, Accepts;
    var m := ThenSplits(u, x, Gap(), p);
    var n := ThenSplits(u, Gap(), y, q);
    GapPieces(u, p[m..], q[..n]);
    AcceptsThen(u, Gap(), y, p[m..] + "\n" + q[..n], q[n..]);
    AcceptsThen(u, x, Then(Gap(), y), p[..m], p[m..] + "\n" + q[..n] + q[n..]);
    assert p + "\n" + q == p[..m] + (p[m..] + "\n" + q[..n] + q[n..]);
  }

  // ----- Markers -----

  ghost predicate Halved(u: Unicode, p: string, q: string) {
    exists h :: 0 <= h < 4 && Accepts(u, Halves()[h].0, p) && Accepts(u, Halves()[h].1, q)
  }

  lemma ChatHasNoBreak(u: Unicode, w: string)
    requires Sane(u) && u.space('\n') && Accepts(u, ChatMarker(), w)
    ensures '\n' !in w
  {
    WordSolid(u, "<|im_");
    WordSolid(u, "start");
    WordSolid(u, "end");
    WordSolid(u, "|>");
    hide Word, Accepts;
    EitherSolid(u, Word("start"), Word("end"));
    ThenSolid(u, Either(Word("start"), Word("end")), Word("|>"));
    ThenSolid(u, Word("<|im_"), Then(Either(Word("start"), Word("end")), Word("|>")));
  }

  lemma ThenSolid(u: Unicode, a: Regex, b: Regex)
    requires Solid(u, a) && Solid(u, b)
    ensures Solid(u, Then(a, b))
  {
    forall w | Accepts(u, Then(a, b), w) ensures '\n' !in w {
      var m := ThenSplits(u, a, b, w);
      assert w == w[..m] + w[m..];
    }
  }

  lemma EitherSolid(u: Unicode, a: Regex, b: Regex)
    requires Solid(u, a) && Solid(u, b)
    ensures Solid(u, Either(a, b))
  {
  }

  lemma HashHalves(u: Unicode, word: string, p: string, q: string)
    requires Sane(u) && u.space('\n') && word != "" && '\n' !in word
    ensures Accepts(u, HashMarker(word), p + "\n" + q) <==>
            Accepts(u, Then(Word("###"), Gap()), p) && Accepts(u, Then(Gap(), Word(word)), q)
  {
    WordSolid(u, "###");
    WordSolid(u, word);
    hide Word, Gap, Accepts;
    if Accepts(u, HashMarker(word), p + "\n" + q) {
      var k := BreakInGap(u, Word("###"), Word(word), p, q);
      if k <= |p| && Accepts(u, Word(word), p[k..] + "\n" + q) { assert '\n' in p[k..] + "\n" + q; }
    }
    if Accepts(u, Then(Word("###"), Gap()), p) && Accepts(u, Then(Gap(), Word(word)), q) {
      HalvesMeet(u, Word("###"), Word(word), p, q);
    }
  }

  lemma AngleHalves()
    ensures var open, word, close := Word("<<<"), Word("end"), Word(">>>");
            && Halves()[2] == (Then(open, Gap()), Then(Gap(), Then(word, Then(Gap(), close))))
            && Halves()[3] == (Then(open, Then(Gap(), Then(word, Gap()))), Then(Gap(), close))
  {
    hide Word, Gap;
  }

  lemma EndHalves(u: Unicode, p: string, q: string)
    requires Sane(u) && u.space('\n')
    ensures Accepts(u, EndMarker(), p + "\n" + q) <==>
            || (Accepts(u, Halves()[2].0, p) && Accepts(u, Halves()[2].1, q))
            || (Accepts(u, Halves()[3].0, p) && Accepts(u, Halves()[3].1, q))
  {
    AngleHalves();
    hide Word, Gap, Accepts, Halves;
    var open, word, close := Word("<<<"), Word("end"), Word(">>>");
    if Accepts(u, EndMarker(), p + "\n" + q) { EndParted(u, p, q); }
    if Accepts(u, Halves()[2].0, p) && Accepts(u, Halves()[2].1, q) {
      HalvesMeet(u, open, Then(word, Then(Gap(), close)), p, q);
    }
    if Accepts(u, Halves()[3].0, p) && Accepts(u, Halves()[3].1, q) { LateBreak(u, open, word, close, p, q); }
  }

  lemma EndParted(u: Unicode, p: string, q: string)
    requires Sane(u) && u.space('\n') && Accepts(u, EndMarker(), p + "\n" + q)
    ensures || (Accepts(u, Halves()[2].0, p) && Accepts(u, Halves()[2].1, q))
            || (Accepts(u, Halves()[3].0, p) && Accepts(u, Halves()[3].1, q))
  {
    WordSolid(u, "<<<");
    WordSolid(u, "end");
    WordSolid(u, ">>>");
    AngleHalves();
    EndParts();
    hide *;
    TwoGaps(u, Word("<<<"), Word("end"), Word(">>>"), p, q);
  }

  lemma EndParts()
    ensures EndMarker() == Then(Word("<<<"), Then(Gap(), Then(Word("end"), Then(Gap(), Word(">>>")))))
  {
    hide Word, Gap;
  }

  /** In open gap word gap close, with literals, a line break lies in one of the gaps. */
  lemma TwoGaps(u: Unicode, open: Regex, word: Regex, close: Regex, p: string, q: string)
    requires Solid(u, open) && Solid(u, word) && Solid(u, close)
    requires Accepts(u, Then(open, Then(Gap(), Then(word, Then(Gap(), close)))), p + "\n" + q)
    ensures || (Accepts(u, Then(open, Gap()), p) && Accepts(u, Then(Gap(), Then(word, Then(Gap(), close))), q))
            || (Accepts(u, Then(open, Then(Gap(), Then(word, Gap()))), p) && Accepts(u, Then(Gap(), close), q))
  {
    hide *;
    var k := BreakInGap(u, open, Then(word, Then(Gap(), close)), p, q);
    if !(Accepts(u, Then(open, Gap()), p) && Accepts(u, Then(Gap(), Then(word, Then(Gap(), close))), q)) {
      var l := BreakInGap(u, word, close, p[k..], q);
      CloseHasNoBreak(u, close, p[k..], l, q);
      OpenAgain(u, open, Then(word, Gap()), p, k);
    }
  }

  lemma CloseHasNoBreak(u: Unicode, close: Regex, p: string, l: nat, q: string)
    requires Solid(u, close)
    ensures !(l <= |p| && Accepts(u, close, p[l..] + "\n" + q))
  {
    if l <= |p| { assert '\n' in p[l..] + "\n" + q; }
  }

  lemma OpenAgain(u: Unicode, open: Regex, y: Regex, p: string, k: nat)
    requires k <= |p| && Accepts(u, Then(open, Gap()), p[..k]) && Accepts(u, y, p[k..])
    ensures Accepts(u, Then(open, Then(Gap(), y)), p)
  {
    hide Gap, Accepts;
    var m := ThenSplits(u, open, Gap(), p[..k]);
    AcceptsThen(u, Gap(), y, p[..k][m..], p[k..]);
    AcceptsThen(u, open, Then(Gap(), y), p[..k][..m], p[..k][m..] + p[k..]);
    assert p == p[..k][..m] + (p[..k][m..] + p[k..]);
  }

  lemma LateBreak(u: Unicode, open: Regex, word: Regex, close: Regex, p: string, q: string)
    requires u.space('\n')
    requires Accepts(u, Then(open, Then(Gap(), Then(word, Gap()))), p) && Accepts(u, Then(Gap(), close), q)
    ensures Accepts(u, Then(open, Then(Gap(), Then(word, Then(Gap(), close)))), p + "\n" + q)
  {
    hide Gap, Accepts;
    var m := ThenSplits(u, open, Then(Gap(), Then(word, Gap())), p);
    var n := ThenSplits(u, Gap(), Then(word, Gap()), p[m..]);
    var tail := p[m..][n..];
    HalvesMeet(u, word, close, tail, q);
    AcceptsThen(u, Gap(), Then(word, Then(Gap(), close)), p[m..][..n], tail + "\n" + q);
    AcceptsThen(u, open, Then(Gap(), Then(word, Then(Gap(), close))), p[..m], p[m..][..n] + (tail + "\n" + q));
    assert p + "\n" + q == p[..m] + (p[m..][..n] + (tail + "\n" + q));
  }

  /** A text with a line break is a marker exactly if the break parts it into two halves. */
  lemma MarkerHalves(u: Unicode, p: string, q: string)
    requires Sane(u) && u.space('\n')
    ensures Accepts(u, Markers().body, p + "\n" + q) <==> Halved(u, p, q)
  {
    hide Accepts, Halved, Halves, Markers, Word, Gap;
    var w := p + "\n" + q;
    assert w[|p|] == '\n';
    AnyMarker(u, w);
    if Accepts(u, ChatMarker(), w) { ChatHasNoBreak(u, w); }
    HashHalves(u, "system", p, q);
    HashHalves(u, "instructions", p, q);
    EndHalves(u, p, q);
    HalvedMeans(u, p, q);
  }

  lemma AnyMarker(u: Unicode, w: string)
    ensures Accepts(u, Markers().body, w) <==>
            || Accepts(u, ChatMarker(), w) || Accepts(u, HashMarker("system"), w)
            || Accepts(u, HashMarker("instructions"), w) || Accepts(u, EndMarker(), w)
  {
    hide ChatMarker, HashMarker, EndMarker;
    var three := Either(HashMarker("instructions"), EndMarker());
    assert Accepts(u, three, w) <==> Accepts(u, HashMarker("instructions"), w) || Accepts(u, EndMarker(), w);
    var two := Either(HashMarker("system"), three);
    assert Accepts(u, two, w) <==> Accepts(u, HashMarker("system"), w) || Accepts(u, three, w);
  }

  lemma HalvedMeans(u: Unicode, p: string, q: string)
    ensures Halved(u, p, q) <==>
            || (Accepts(u, Then(Word("###"), Gap()), p) && Accepts(u, Then(Gap(), Word("system")), q))
            || (Accepts(u, Then(Word("###"), Gap()), p) && Accepts(u, Then(Gap(), Word("instructions")), q))
            || (Accepts(u, Halves()[2].0, p) && Accepts(u, Halves()[2].1, q))
            || (Accepts(u, Halves()[3].0, p) && Accepts(u, Halves()[3].1, q))
  {
    hide Accepts, Word, Gap;
    var h := Halves();
    assert h[0] == (Then(Word("###"), Gap()), Then(Gap(), Word("system")));
    assert h[1] == (Then(Word("###"), Gap()), Then(Gap(), Word("instructions")));
  }

  // ----- Two lines -----

  /** Two marker-free lines are marker-free together exactly if they do not join. */
  lemma LinesFreeIff(u: Unicode, a: string, b: string)
    requires Sane(u) && u.space('\n') && Free(u, Markers(), a) && Free(u, Markers(), b)
    ensures Free(u, Markers(), a + "\n" + b) <==> !Joins(u, a, b)
  {
    hide Free, Joins, Markers;
    if Joins(u, a, b) { JoinedMatch(u, a, b); }
    if !Joins(u, a, b) { NotJoinedFree(u, a, b); }
  }

  lemma JoinedMatch(u: Unicode, a: string, b: string)
    requires Sane(u) && u.space('\n') && Joins(u, a, b)
    ensures !Free(u, Markers(), a + "\n" + b)
  {
    hide Accepts, Halves, Markers, Halved;
    var i, j := JoinedHalves(u, a, b);
    MarkerHalves(u, a[i..], b[..j]);
    MarkersHere(u, a, b, i, j);
  }

  lemma JoinedHalves(u: Unicode, a: string, b: string) returns (i: nat, j: nat)
    requires Joins(u, a, b)
    ensures i <= |a| && j <= |b| && Halved(u, a[i..], b[..j])
  {
    hide Accepts, Halves;
    var h :| 0 <= h < 4 && EndsLike(u, a, Halves()[h].0) && StartsLike(u, b, Halves()[h].1);
    i :| 0 <= i <= |a| && Accepts(u, Halves()[h].0, a[i..]);
    j :| 0 <= j <= |b| && Accepts(u, Halves()[h].1, b[..j]);
  }

  lemma MarkersHere(u: Unicode, a: string, b: string, i: nat, j: nat)
    requires i <= |a| && j <= |b| && Accepts(u, Markers().body, a[i..] + "\n" + b[..j])
    ensures Matches(u, Markers(), a + "\n" + b, i, |a| + 1 + j)
  {
    MarkersPlain();
    hide Accepts, Markers;
    var s := a + "\n" + b;
    assert s[i..|a| + 1 + j] == a[i..] + "\n" + b[..j];
  }

  lemma NotJoinedFree(u: Unicode, a: string, b: string)
    requires Sane(u) && u.space('\n') && Free(u, Markers(), a) && Free(u, Markers(), b) && !Joins(u, a, b)
    ensures Free(u, Markers(), a + "\n" + b)
  {
    hide Accepts, Halves, Markers, Matches, Halved, Joins;
    var s, n := a + "\n" + b, |a|;
    MarkersPlain();
    assert s[0..n] == a && s[n + 1..|s|] == b;
    forall i: nat, j: nat ensures !Matches(u, Markers(), s, i, j) {
      if Matches(u, Markers(), s, i, j) {
        MatchInside(u, s, i, j);
        if j <= n { MatchOfPiece(u, Markers(), s, 0, n, i, j); }
        else if i > n { MatchOfPiece(u, Markers(), s, n + 1, |s|, i, j); }
        else { MatchOverBreak(u, a, b, i, j); }
      }
    }
  }

  lemma MarkersPlain()
    ensures !Markers().edges
  {
  }

  lemma MatchInside(u: Unicode, s: string, i: nat, j: nat)
    requires Matches(u, Markers(), s, i, j)
    ensures i <= j <= |s|
  {
    hide Accepts, Markers;
  }

  lemma MatchOverBreak(u: Unicode, a: string, b: string, i: nat, j: nat)
    requires Sane(u) && u.space('\n') && i <= |a| < j && Matches(u, Markers(), a + "\n" + b, i, j)
    ensures Joins(u, a, b)
  {
    hide Accepts, Halves, Markers, Halved, Joins;
    var n := |a|;
    assert (a + "\n" + b)[i..j] == a[i..] + "\n" + b[..j - n - 1];
    MarkerHalves(u, a[i..], b[..j - n - 1]);
    HalvedJoins(u, a, b, i, j - n - 1);
  }

  lemma HalvedJoins(u: Unicode, a: string, b: string, i: nat, j: nat)
    requires i <= |a| && j <= |b| && Halved(u, a[i..], b[..j])
    ensures Joins(u, a, b)
  {
    hide Accepts, Halves;
    var h :| 0 <= h < 4 && Accepts(u, Halves()[h].0, a[i..]) && Accepts(u, Halves()[h].1, b[..j]);
    assert EndsLike(u, a, Halves()[h].0) && StartsLike(u, b, Halves()[h].1);
  }

  // ----- Runbook excerpts -----

  /** Before a text, one without the first characters of a marker completes none. */
  lemma LabelFree(u: Unicode, caption: string, s: string)
    requires Sane(u) && Free(u, Markers(), s) && '<' !in caption && '#' !in caption
    ensures Free(u, Markers(), caption + s)
  {
    hide Markers, Accepts, Matches;
    var all := caption + s;
    MarkersPlain();
    assert all[|caption|..|all|] == s;
    forall i: nat, j: nat ensures !Matches(u, Markers(), all, i, j) {
      if Matches(u, Markers(), all, i, j) {
        MatchInside(u, all, i, j);
        NotInCaption(u, caption, s, i, j);
        MatchOfPiece(u, Markers(), all, |caption|, |all|, i, j);
      }
    }
  }

  lemma MatchStart(u: Unicode, s: string, i: nat, j: nat)
    requires Sane(u) && Matches(u, Markers(), s, i, j)
    ensures i < |s| && (s[i] == '<' || s[i] == '#')
  {
    MarkersShape();
    hide Markers, Accepts;
    var w := s[i..j];
    NullableSound(u, Markers().body, w);
    FirstsSound(u, Markers().body, w);
    assert w[0] == s[i];
  }

  lemma NotInCaption(u: Unicode, caption: string, s: string, i: nat, j: nat)
    requires Sane(u) && '<' !in caption && '#' !in caption && Matches(u, Markers(), caption + s, i, j)
    ensures i >= |caption|
  {
    hide Matches, Markers;
    MatchStart(u, caption + s, i, j);
    assert forall k :: 0 <= k < |caption| ==> (caption + s)[k] == caption[k] && caption[k] in caption;
  }

  lemma SanitizedFree(u: Unicode, text: string)
    requires Sane(u)
    ensures Free(u, Markers(), Sanitize(u, text))
  {
    SanitizedIsHarmless(u, text);
    hide Sanitize, Free, Markers;
  }

  /** A runbook excerpt is marker-free exactly if its title and its content do not join over the line break. */
  lemma RunbookFreeIff(u: Unicode, r: Excerpt)
    requires Sane(u) && u.space('\n')
    ensures Free(u, Markers(), RunbookText(u, r)) <==>
            !Joins(u, "Runbook: " + Sanitize(u, r.title), Sanitize(u, Prefix(r.content, RUNBOOK_EXCERPT_CHARS)))
  {
    hide Sanitize, Free, Markers, Joins, Prefix;
    var title, content := Sanitize(u, r.title), Sanitize(u, Prefix(r.content, RUNBOOK_EXCERPT_CHARS));
    SanitizedFree(u, r.title);
    SanitizedFree(u, Prefix(r.content, RUNBOOK_EXCERPT_CHARS));
    LabelFree(u, "Runbook: ", title);
    LinesFreeIff(u, "Runbook: " + title, content);
  }

  // ----- A pair that joins -----

  lemma HashesEnd(u: Unicode)
    ensures EndsLike(u, "Runbook: ###", Then(Word("###"), Gap()))
  {
    AcceptsWord(u, "###", "###");
    assert Accepts(u, Gap(), "");
    hide Accepts, Word, Gap;
    AcceptsThen(u, Word("###"), Gap(), "###", "");
    assert "Runbook: ###"[9..] == "###" + "";
  }

  lemma WordStarts(u: Unicode)
    requires Sane(u)
    ensures StartsLike(u, "system", Then(Gap(), Word("system")))
  {
    AcceptsWord(u, "system", "system");
    assert Accepts(u, Gap(), "");
    hide Accepts, Word, Gap;
    AcceptsThen(u, Gap(), Word("system"), "", "system");
    assert "system"[..6] == "" + "system";
  }

  lemma HashWordJoin(u: Unicode)
    requires Sane(u)
    ensures Joins(u, "Runbook: ###", "system")
  {
    HashesEnd(u);
    WordStarts(u);
    hide EndsLike, StartsLike, Word, Gap;
    assert Halves()[0] == (Then(Word("###"), Gap()), Then(Gap(), Word("system")));
  }
}
