/**
 When the data block of a prompt holds no marker at all. Only three things can bring one in: an event level and
 a recommended action, which are inserted as given, and a runbook whose title and content join over a line break.
 */
module DataBlocks {
  import opened Regex
  import opened Substitution
  import opened Text
  import opened Sanitizer
  import opened Prompts
  import opened Breaks

  ghost predicate Unmarked(u: Unicode, s: string) {
    Free(u, Markers(), s)
  }

  /** A line break is white space, and the first letters of the captions are not taken for those of a marker. */
  ghost predicate Plain(u: Unicode) {
    Sane(u) && u.space('\n') && forall c, l :: c in "TPR" && l in "sie" ==> !u.folds(c, l)
  }

  // ----- Lines that cannot go on a marker -----

  /** No marker goes on after a line break with this character. */
  predicate Starter(u: Unicode, c: char) {
    u.folds(c, 's') || u.folds(c, 'i') || u.folds(c, 'e') || c == '>'
  }

  /** What follows the gap in a second half. */
  function Rest(h: nat): Regex
    requires h < 4
  {
    if h == 0 then Word("system") else if h == 1 then Word("instructions")
    else if h == 2 then Then(Word("end"), Then(Gap(), Word(">>>"))) else Word(">>>")
  }

  lemma SecondHalf(h: nat)
    requires h < 4
    ensures Halves()[h].1 == Then(Gap(), Rest(h))
  {
    hide Word, Gap;
  }

  ghost predicate RestShape(r: Regex) {
    !Nullable(r) && Firsts(r) <= {Letter('s'), Letter('i'), Letter('e'), Just('>')}
  }

  lemma RestFirsts(h: nat)
    requires h < 4
    ensures RestShape(Rest(h))
  {
    hide Word, Gap;
    WordClasses("system");
    WordClasses("instructions");
    WordClasses("end");
    WordClasses(">>>");
    EndFirsts();
  }

  lemma EndFirsts()
    ensures RestShape(Then(Word("end"), Then(Gap(), Word(">>>"))))
  {
    hide Word;
    WordClasses("end");
  }

  lemma RestStarts(u: Unicode, h: nat, w: string)
    requires Sane(u) && h < 4 && Accepts(u, Rest(h), w)
    ensures w != "" && Starter(u, w[0]) && !u.space(w[0])
  {
    hide Rest, Accepts, Starter;
    RestFirsts(h);
    NullableSound(u, Rest(h), w);
    FirstsSound(u, Rest(h), w);
    var k :| k in Firsts(Rest(h)) && In(u, k, w[0]);
    FirstIsStarter(u, k, w[0]);
  }

  lemma FirstIsStarter(u: Unicode, k: Class, c: char)
    requires Sane(u) && k in {Letter('s'), Letter('i'), Letter('e'), Just('>')} && In(u, k, c)
    ensures Starter(u, c) && !u.space(c)
  {
    assert Punctuation('>') && !Blank('>');
  }

  /** Nothing before a line break makes a marker with this text after it. */
  ghost predicate Quiet(u: Unicode, t: string) {
    forall h :: 0 <= h < 4 ==> !StartsLike(u, t, Halves()[h].1)
  }

  ghost predicate Blanks(u: Unicode, s: string) {
    forall i :: 0 <= i < |s| ==> u.space(s[i])
  }

  /** A text whose first character that is no white space starts no second half is quiet. */
  lemma QuietStart(u: Unicode, pre: string, c: char, rest: string)
    requires Sane(u) && Blanks(u, pre) && !u.space(c) && !Starter(u, c)
    ensures Quiet(u, pre + [c] + rest)
  {
    hide Accepts, Starter;
    var t := pre + [c] + rest;
    forall h | 0 <= h < 4 ensures !StartsLike(u, t, Halves()[h].1) {
      if StartsLike(u, t, Halves()[h].1) {
        var j :| 0 <= j <= |t| && Accepts(u, Halves()[h].1, t[..j]);
        SecondHalf(h);
        FirstAfterGap(u, h, t, j, |pre|);
      }
    }
  }

  lemma FirstAfterGap(u: Unicode, h: nat, t: string, j: nat, n: nat)
    requires Sane(u) && h < 4 && j <= |t| && Accepts(u, Then(Gap(), Rest(h)), t[..j])
    requires n < |t| && !u.space(t[n]) && forall i :: 0 <= i < n ==> u.space(t[i])
    ensures Starter(u, t[n])
  {
    hide Accepts, Starter, Gap, Rest;
    var m := ThenSplits(u, Gap(), Rest(h), t[..j]);
    var w := t[..j][m..];
    RestStarts(u, h, w);
    GapIsBlank(u, t[..j][..m]);
    assert w[0] == t[m];
    assert forall i :: 0 <= i < m ==> t[..j][..m][i] == t[i];
    assert m == n;
  }

  lemma GapIsBlank(u: Unicode, w: string)
    requires Accepts(u, Gap(), w)
    ensures Blanks(u, w)
  {
    assert forall i :: 0 <= i < |w| ==> In(u, Space, w[i]);
  }

  lemma FirstHalf(h: nat)
    requires h < 4
    ensures !Nullable(Halves()[h].0) && Firsts(Halves()[h].0) <= {Just('#'), Just('<')}
  {
    hide Word, Gap;
    WordClasses("###");
    WordClasses("<<<");
  }

  lemma HalfStarts(u: Unicode, h: nat, w: string)
    requires h < 4 && Accepts(u, Halves()[h].0, w)
    ensures w != "" && (w[0] == '#' || w[0] == '<')
  {
    hide Halves, Accepts;
    FirstHalf(h);
    NullableSound(u, Halves()[h].0, w);
    FirstsSound(u, Halves()[h].0, w);
  }

  /** A text without the first characters of a marker ends none. */
  lemma MuteEnds(u: Unicode, a: string, b: string)
    requires '<' !in a && '#' !in a
    ensures !Joins(u, a, b)
  {
    hide Halves, Accepts;
    if Joins(u, a, b) {
      var h :| 0 <= h < 4 && EndsLike(u, a, Halves()[h].0) && StartsLike(u, b, Halves()[h].1);
      var i :| 0 <= i <= |a| && Accepts(u, Halves()[h].0, a[i..]);
      assert forall k :: i <= k < |a| ==> a[i..][k - i] == a[k] && a[k] in a;
      HalfStarts(u, h, a[i..]);
    }
  }

  lemma QuietEnds(u: Unicode, a: string, b: string)
    requires Quiet(u, b)
    ensures !Joins(u, a, b)
  {
    hide Halves, StartsLike, EndsLike;
  }

  // ----- Pieces -----

  lemma PieceUnmarked(u: Unicode, a: string, b: string, c: string)
    requires Sane(u) && Unmarked(u, a + b + c)
    ensures Unmarked(u, a) && Unmarked(u, c)
  {
    MarkersPlain();
    hide Markers, Free;
    var s := a + b + c;
    FreePiece(u, Markers(), s, 0, |a|);
    FreePiece(u, Markers(), s, |a| + |b|, |s|);
    assert s[0..|a|] == a && s[|a| + |b|..|s|] == c;
  }

  /** Lines that do not join are unmarked together exactly if each is. */
  lemma LinesUnmarked(u: Unicode, a: string, b: string)
    requires Sane(u) && u.space('\n') && !Joins(u, a, b)
    ensures Unmarked(u, a + "\n" + b) <==> Unmarked(u, a) && Unmarked(u, b)
  {
    hide Markers, Free, Joins;
    if Unmarked(u, a + "\n" + b) { PieceUnmarked(u, a, "\n", b); }
    if Unmarked(u, a) && Unmarked(u, b) { LinesFreeIff(u, a, b); }
  }

  lemma NoFirstUnmarked(u: Unicode, s: string)
    requires Sane(u) && '<' !in s && '#' !in s
    ensures Unmarked(u, s)
  {
    hide Matches, Markers;
    forall i: nat, j: nat ensures !Matches(u, Markers(), s, i, j) {
      if Matches(u, Markers(), s, i, j) { MatchStart(u, s, i, j); }
    }
  }

  /** A caption brings no marker in. */
  lemma CaptionUnmarked(u: Unicode, caption: string, s: string)
    requires Sane(u) && '<' !in caption && '#' !in caption
    ensures Unmarked(u, caption + s) <==> Unmarked(u, s)
  {
    hide Markers, Free;
    if Unmarked(u, caption + s) {
      assert caption + s == caption + [] + s;
      PieceUnmarked(u, caption, [], s);
    }
    if Unmarked(u, s) { LabelFree(u, caption, s); }
  }

  lemma SeparatorStops(u: Unicode, c: char)
    requires Sane(u) && (c == ':' || c == '=')
    ensures Stops(u, Markers(), c) && !Nullable(Markers().body) && !Markers().edges
  {
    MarkersShape();
    hide Markers;
    assert Punctuation(c) && !Blank(c);
  }

  /** Colon and equals sign separate. */
  lemma SeparatorUnmarked(u: Unicode, a: string, c: char, b: string)
    requires Sane(u) && (c == ':' || c == '=')
    ensures Unmarked(u, a + [c] + b) <==> Unmarked(u, a) && Unmarked(u, b)
  {
    hide Markers, Free, Stops;
    NoFirstUnmarked(u, [c]);
    SeparatorStops(u, c);
    if Unmarked(u, a + [c] + b) { PieceUnmarked(u, a, [c], b); }
    if Unmarked(u, a) && Unmarked(u, b) { GlueFree(u, Markers(), a, [c], b); }
  }

  // ----- Fields -----

  /** A field whose next line is quiet, or that cannot end as a marker begins, is unmarked exactly if both parts are. */
  lemma FieldUnmarked(u: Unicode, caption: Line, value: string, rest: string)
    requires Sane(u) && u.space('\n') && NoHash(caption)
    requires Quiet(u, rest) || ('<' !in value && '#' !in value)
    ensures Unmarked(u, Field(caption, value, rest)) <==> Unmarked(u, value) && Unmarked(u, rest)
  {
    hide Unmarked, Quiet, Joins;
    if Quiet(u, rest) { QuietEnds(u, caption + value, rest); } else { MuteEnds(u, caption + value, rest); }
    CaptionUnmarked(u, caption, value);
    LinesUnmarked(u, caption + value, rest);
  }

  lemma SanitizedUnmarked(u: Unicode, text: string)
    requires Sane(u)
    ensures Unmarked(u, Sanitize(u, text))
  {
    hide Sanitize, Free, Markers;
    SanitizedFree(u, text);
  }

  lemma EmptyUnmarked(u: Unicode)
    requires Sane(u)
    ensures Unmarked(u, "")
  {
    NoFirstUnmarked(u, "");
  }

  lemma LetterIsNoSpace(u: Unicode, c: char)
    requires Sane(u) && AsciiLetter(c)
    ensures !u.space(c)
  {
  }

  lemma CapitalIsNone(u: Unicode, c: char)
    requires Plain(u) && c in "TPR"
    ensures Sane(u) && !u.space(c) && !Starter(u, c)
  {
    hide Sane;
    assert AsciiLetter(c);
    LetterIsNoSpace(u, c);
    assert 's' in "sie" && 'i' in "sie" && 'e' in "sie";
  }

  lemma BreakIsBlank(u: Unicode, pre: string)
    requires Plain(u) && (pre == "" || pre == "\n")
    ensures Blanks(u, pre)
  {
    hide Sane;
  }

  lemma DashIsNone(u: Unicode)
    requires Sane(u)
    ensures !u.space('-') && !Starter(u, '-')
  {
    assert Punctuation('-') && !Blank('-');
  }

  /** A captioned line that starts with this capital, after any blank lines, is quiet. */
  lemma CapitalQuiet(u: Unicode, pre: string, c: char, rest: string)
    requires Plain(u) && c in "TPR" && (pre == "" || pre == "\n")
    ensures Quiet(u, pre + [c] + rest)
  {
    hide *;
    CapitalIsNone(u, c);
    BreakIsBlank(u, pre);
    QuietStart(u, pre, c, rest);
  }

  /** Captions that start so. */
  predicate Capital(caption: string) {
    || (|caption| > 0 && caption[0] in "TPR")
    || (|caption| > 1 && caption[0] == '\n' && caption[1] in "TPR")
  }

  lemma Capitals()
    ensures Capital(TOP_EVENTS) && Capital(PROBABLE_CAUSE) && Capital(EXCERPTS) && Capital(ROOT_CAUSE) &&
            Capital(ACTIONS)
  {
    assert TOP_EVENTS[1] == 'T' && PROBABLE_CAUSE[0] == 'P' && EXCERPTS[1] == 'R';
    assert ROOT_CAUSE[0] == 'R' && ACTIONS[0] == 'R';
  }

  predicate NoHash(s: string) {
    '#' !in s
  }

  lemma HashFree()
    ensures NoHash(SUMMARY) && NoHash(CATEGORY) && NoHash(PROBABLE_CAUSE) && NoHash(ROOT_CAUSE)
    ensures NoHash(TOP_EVENTS) && NoHash(EXCERPTS) && NoHash(ACTIONS)
  {
    hide NoHash;
    HashFreeLines();
    HashFreeCauses();
    HashFreeLists();
  }

  lemma HashFreeLines()
    ensures NoHash(SUMMARY) && NoHash(CATEGORY)
  {
  }

  lemma HashFreeCauses()
    ensures NoHash(PROBABLE_CAUSE) && NoHash(ROOT_CAUSE)
  {
  }

  lemma HashFreeLists()
    ensures NoHash(TOP_EVENTS) && NoHash(EXCERPTS) && NoHash(ACTIONS)
  {
  }

  lemma FieldQuiet(u: Unicode, caption: Line, value: string, rest: string)
    requires Plain(u) && Capital(caption)
    ensures Quiet(u, Field(caption, value, rest))
  {
    hide Plain, Quiet;
    var f := Field(caption, value, rest);
    if caption[0] in "TPR" {
      CapitalQuiet(u, "", caption[0], f[1..]);
      assert f == "" + [caption[0]] + f[1..];
    } else {
      CapitalQuiet(u, "\n", caption[1], f[2..]);
      assert f == "\n" + [caption[1]] + f[2..];
    }
  }

  lemma DashQuiet(u: Unicode, rest: string)
    requires Plain(u)
    ensures Quiet(u, "- " + rest)
  {
    hide *;
    PlainIsSane(u);
    DashIsNone(u);
    BreakIsBlank(u, "");
    assert "- " + rest == "" + ['-'] + (" " + rest);
    QuietStart(u, "", '-', " " + rest);
  }

  // ----- Lists of lines -----

  /** Lines that each begin with a dash are unmarked together exactly if each is. */
  lemma {:induction false} DashLinesUnmarked(u: Unicode, lines: seq<string>)
    requires Plain(u) && forall i :: 0 <= i < |lines| ==> "- " <= lines[i]
    ensures Unmarked(u, Join(lines, "\n")) <==> forall i :: 0 <= i < |lines| ==> Unmarked(u, lines[i])
  {
    hide Unmarked, Plain;
    PlainIsSane(u);
    if lines == [] { EmptyUnmarked(u); }
    else if |lines| > 1 {
      var head, rest := lines[0], lines[1..];
      DashLinesUnmarked(u, rest);
      JoinStarts(rest, "\n", "- ");
      DashStep(u, head, Join(rest, "\n"));
      assert forall i :: 0 <= i < |rest| ==> rest[i] == lines[i + 1];
      assert forall i :: 1 <= i < |lines| ==> lines[i] == rest[i - 1];
    }
  }

  lemma DashStep(u: Unicode, head: string, tail: string)
    requires Plain(u) && "- " <= tail
    ensures Unmarked(u, head + "\n" + tail) <==> Unmarked(u, head) && Unmarked(u, tail)
  {
    hide Unmarked, Quiet, Joins, Plain;
    PlainIsSane(u);
    assert tail == "- " + tail[2..];
    DashQuiet(u, tail[2..]);
    QuietEnds(u, head, tail);
    LinesUnmarked(u, head, tail);
  }

  lemma JoinStarts(lines: seq<string>, sep: string, start: string)
    requires lines != [] && start <= lines[0]
    ensures start <= Join(lines, sep)
  {
  }

  lemma LineUnmarked(u: Unicode, e: TopEvent)
    requires Sane(u)
    ensures Unmarked(u, TopEventLine(u, e)) <==> Unmarked(u, e.level)
  {
    hide Sanitize, IntText, Unmarked;
    var left, middle := "- " + Sanitize(u, e.signature), " count=" + IntText(e.count) + ", level";
    SanitizedUnmarked(u, e.signature);
    CaptionUnmarked(u, "- ", Sanitize(u, e.signature));
    NoFirstUnmarked(u, middle);
    SeparatorUnmarked(u, left, ':', middle);
    SeparatorUnmarked(u, left + [':'] + middle, '=', e.level);
    assert TopEventLine(u, e) == (left + [':'] + middle) + ['='] + e.level;
  }

  ghost predicate LevelsUnmarked(u: Unicode, events: seq<TopEvent>) {
    forall i :: 0 <= i < |events| ==> Unmarked(u, events[i].level)
  }

  lemma EventsUnmarked(u: Unicode, events: seq<TopEvent>)
    requires Plain(u)
    ensures Unmarked(u, FormatTopEvents(u, events)) <==> LevelsUnmarked(u, events)
  {
    hide Unmarked, Plain, Sanitize;
    PlainIsSane(u);
    if events == [] { NoFirstUnmarked(u, "- (none)"); }
    else {
      var lines := seq(|events|, i requires 0 <= i < |events| => TopEventLine(u, events[i]));
      forall i | 0 <= i < |events| ensures Unmarked(u, lines[i]) <==> Unmarked(u, events[i].level) {
        LineUnmarked(u, events[i]);
      }
      DashLinesUnmarked(u, lines);
    }
  }

  lemma PlainIsSane(u: Unicode)
    requires Plain(u)
    ensures Sane(u) && u.space('\n')
  {
  }

  lemma ActionsUnmarked(u: Unicode, actions: seq<string>)
    requires Plain(u)
    ensures Unmarked(u, ActionsBlock(actions)) <==> forall i :: 0 <= i < |actions| ==> Unmarked(u, actions[i])
  {
    hide Unmarked, Plain;
    PlainIsSane(u);
    if actions == [] { NoFirstUnmarked(u, "- (none)"); }
    else {
      var lines := seq(|actions|, i requires 0 <= i < |actions| => "- " + actions[i]);
      forall i | 0 <= i < |actions| ensures Unmarked(u, lines[i]) <==> Unmarked(u, actions[i]) {
        CaptionUnmarked(u, "- ", actions[i]);
      }
      DashLinesUnmarked(u, lines);
    }
  }

  lemma JoinedExcerpts(texts: seq<string>)
    requires |texts| > 1
    ensures Join(texts, "\n\n") == texts[0] + "\n" + ("\n" + Join(texts[1..], "\n\n"))
  {
  }

  lemma {:induction false} ExcerptsUnmarked(u: Unicode, texts: seq<string>)
    requires Plain(u) && forall i :: 0 <= i < |texts| ==> "Runbook: " <= texts[i]
    ensures Unmarked(u, Join(texts, "\n\n")) <==> forall i :: 0 <= i < |texts| ==> Unmarked(u, texts[i])
  {
    hide Unmarked, Plain;
    PlainIsSane(u);
    if texts == [] { EmptyUnmarked(u); }
    else if |texts| > 1 {
      var head, rest := texts[0], texts[1..];
      ExcerptsUnmarked(u, rest);
      JoinStarts(rest, "\n\n", "Runbook: ");
      ExcerptStep(u, head, Join(rest, "\n\n"));
      JoinedExcerpts(texts);
      assert forall i :: 0 <= i < |rest| ==> rest[i] == texts[i + 1];
      assert forall i :: 1 <= i < |texts| ==> texts[i] == rest[i - 1];
    }
  }

  lemma ExcerptStep(u: Unicode, head: string, tail: string)
    requires Plain(u) && "Runbook: " <= tail
    ensures Unmarked(u, head + "\n" + ("\n" + tail)) <==> Unmarked(u, head) && Unmarked(u, tail)
  {
    hide Unmarked, Quiet, Joins, Plain;
    PlainIsSane(u);
    assert tail[0] == "Runbook: "[0];
    assert "\n" + tail == "\n" + ['R'] + tail[1..];
    CapitalQuiet(u, "\n", 'R', tail[1..]);
    QuietEnds(u, head, "\n" + tail);
    LinesUnmarked(u, head, "\n" + tail);
    CaptionUnmarked(u, "\n", tail);
  }

  /** A runbook's sanitised title and content form no marker together. */
  ghost predicate Apart(u: Unicode, r: Excerpt) {
    !Joins(u, "Runbook: " + Sanitize(u, r.title), Sanitize(u, Prefix(r.content, RUNBOOK_EXCERPT_CHARS)))
  }

  lemma RunbooksUnmarked(u: Unicode, retrieved: seq<Excerpt>)
    requires Plain(u)
    ensures Unmarked(u, RunbookBlock(u, retrieved)) <==> forall i :: 0 <= i < |retrieved| ==> Apart(u, retrieved[i])
  {
    hide Plain, Sanitize, Joins, Free, Prefix, Markers;
    PlainIsSane(u);
    if retrieved == [] { NoFirstUnmarked(u, "- (no runbooks matched)"); }
    else {
      var texts := seq(|retrieved|, i requires 0 <= i < |retrieved| => RunbookText(u, retrieved[i]));
      forall i | 0 <= i < |retrieved| ensures Unmarked(u, texts[i]) <==> Apart(u, retrieved[i]) {
        RunbookFreeIff(u, retrieved[i]);
      }
      ExcerptsUnmarked(u, texts);
    }
  }

  // ----- The data blocks -----

  function ClassificationData(u: Unicode, summary: string, events: seq<TopEvent>): string {
    Field(SUMMARY, Sanitize(u, summary), Field(TOP_EVENTS, "", FormatTopEvents(u, events)))
  }

  function RootCauseData(u: Unicode, category: Category, summary: string, events: seq<TopEvent>): string {
    Field(CATEGORY, CategoryText(category), ClassificationData(u, summary, events))
  }

  function RemediationData(u: Unicode, summary: string, rootCause: string, retrieved: seq<Excerpt>): string {
    Field(SUMMARY, Sanitize(u, summary),
      Field(PROBABLE_CAUSE, Sanitize(u, rootCause), Field(EXCERPTS, "", RunbookBlock(u, retrieved))))
  }

  function ExecutiveData(u: Unicode, category: Category, summary: string, rootCause: string,
                         actions: seq<string>): string {
    Field(CATEGORY, CategoryText(category),
      Field(SUMMARY, Sanitize(u, summary),
        Field(ROOT_CAUSE, Sanitize(u, rootCause), Field(ACTIONS, "", ActionsBlock(actions)))))
  }

  /** These are what the templates put between the delimiters. */
  lemma DataOfPrompts(u: Unicode, v: Wording, category: Category, summary: string, rootCause: string,
                      events: seq<TopEvent>,
                      retrieved: seq<Excerpt>, actions: seq<string>)
    ensures ClassificationPrompt(u, v, summary, events) == Framed(v.classification, ClassificationData(u, summary,
            events))
    ensures RootCausePrompt(u, v, category, summary, events) ==
            Framed(v.rootCause, RootCauseData(u, category, summary, events))
    ensures RemediationPrompt(u, v, summary, rootCause, retrieved) ==
            Framed(v.remediation, RemediationData(u, summary, rootCause, retrieved))
    ensures ExecutivePrompt(u, v, category, summary, rootCause, actions) ==
            Framed(v.executive, ExecutiveData(u, category, summary, rootCause, actions))
  {
    hide Framed, Field, Sanitize, FormatTopEvents, RunbookBlock, ActionsBlock;
  }

  lemma CategoryPlain(category: Category)
    ensures '<' !in CategoryText(category) && '#' !in CategoryText(category)
  {
  }

  /** A classification block is unmarked exactly if the event levels are. */
  lemma ClassificationUnmarkedIff(u: Unicode, summary: string, events: seq<TopEvent>)
    requires Plain(u)
    ensures Unmarked(u, ClassificationData(u, summary, events)) <==> LevelsUnmarked(u, events)
  {
    hide NoHash, Unmarked, Plain, Sanitize, Quiet, FormatTopEvents, LevelsUnmarked, Field, Capital;
    var block := FormatTopEvents(u, events);
    var rest := Field(TOP_EVENTS, "", block);
    PlainIsSane(u);
    Capitals();
    HashFree();
    FieldQuiet(u, TOP_EVENTS, "", block);
    SanitizedUnmarked(u, summary);
    EmptyUnmarked(u);
    EventsUnmarked(u, events);
    FieldUnmarked(u, TOP_EVENTS, "", block);
    FieldUnmarked(u, SUMMARY, Sanitize(u, summary), rest);
  }

  lemma RootCauseUnmarkedIff(u: Unicode, category: Category, summary: string, events: seq<TopEvent>)
    requires Plain(u)
    ensures Unmarked(u, RootCauseData(u, category, summary, events)) <==> LevelsUnmarked(u, events)
  {
    hide NoHash, Unmarked, Plain, Quiet, ClassificationData, LevelsUnmarked, Field, CategoryText;
    PlainIsSane(u);
    HashFree();
    CategoryPlain(category);
    NoFirstUnmarked(u, CategoryText(category));
    ClassificationUnmarkedIff(u, summary, events);
    FieldUnmarked(u, CATEGORY, CategoryText(category), ClassificationData(u, summary, events));
  }

  /** A remediation block is unmarked exactly if no runbook's title and content join. */
  lemma RemediationUnmarkedIff(u: Unicode, summary: string, rootCause: string, retrieved: seq<Excerpt>)
    requires Plain(u)
    ensures Unmarked(u, RemediationData(u, summary, rootCause, retrieved)) <==>
            forall i :: 0 <= i < |retrieved| ==> Apart(u, retrieved[i])
  {
    hide NoHash, Unmarked, Plain, Sanitize, Quiet, RunbookBlock, Field, Apart, Capital;
    var block := RunbookBlock(u, retrieved);
    var excerpts := Field(EXCERPTS, "", block);
    var cause := Field(PROBABLE_CAUSE, Sanitize(u, rootCause), excerpts);
    PlainIsSane(u);
    Capitals();
    HashFree();
    FieldQuiet(u, EXCERPTS, "", block);
    FieldQuiet(u, PROBABLE_CAUSE, Sanitize(u, rootCause), excerpts);
    SanitizedUnmarked(u, summary);
    SanitizedUnmarked(u, rootCause);
    EmptyUnmarked(u);
    RunbooksUnmarked(u, retrieved);
    FieldUnmarked(u, EXCERPTS, "", block);
    FieldUnmarked(u, PROBABLE_CAUSE, Sanitize(u, rootCause), excerpts);
    FieldUnmarked(u, SUMMARY, Sanitize(u, summary), cause);
  }

  /** An executive-summary block is unmarked exactly if the recommended actions are. */
  lemma ExecutiveUnmarkedIff(u: Unicode, category: Category, summary: string, rootCause: string, actions: seq<string>)
    requires Plain(u)
    ensures Unmarked(u, ExecutiveData(u, category, summary, rootCause, actions)) <==>
            forall i :: 0 <= i < |actions| ==> Unmarked(u, actions[i])
  {
    hide NoHash, Unmarked, Plain, Sanitize, Quiet, ActionsBlock, Field, CategoryText, Capital;
    var block := ActionsBlock(actions);
    var list := Field(ACTIONS, "", block);
    var cause := Field(ROOT_CAUSE, Sanitize(u, rootCause), list);
    var data := Field(SUMMARY, Sanitize(u, summary), cause);
    PlainIsSane(u);
    Capitals();
    HashFree();
    FieldQuiet(u, ACTIONS, "", block);
    FieldQuiet(u, ROOT_CAUSE, Sanitize(u, rootCause), list);
    CategoryPlain(category);
    NoFirstUnmarked(u, CategoryText(category));
    SanitizedUnmarked(u, summary);
    SanitizedUnmarked(u, rootCause);
    EmptyUnmarked(u);
    ActionsUnmarked(u, actions);
    FieldUnmarked(u, ACTIONS, "", block);
    FieldUnmarked(u, ROOT_CAUSE, Sanitize(u, rootCause), list);
    FieldUnmarked(u, SUMMARY, Sanitize(u, summary), cause);
    FieldUnmarked(u, CATEGORY, CategoryText(category), data);
  }

  // ----- A runbook that joins -----

  lemma AsciiIsPlain()
    ensures Plain(Ascii())
  {
    AsciiIsSane();
  }

  /** A literal of hash marks alone is harmless: a marker needs a letter after them, or an angle bracket before all. */
  lemma HashesUnmarked(u: Unicode)
    requires Sane(u)
    ensures Unmarked(u, "###")
  {
    hide Matches, Markers;
    var s := "###";
    assert forall k :: 0 <= k < |s| ==> s[k] == '#';
    forall i: nat, j: nat ensures !Matches(u, Markers(), s, i, j) {
      if Matches(u, Markers(), s, i, j) { MarkerHasOther(u, s, i, j); }
    }
  }

  /** Every marker contains a character that is not a hash mark. */
  lemma MarkerHasOther(u: Unicode, s: string, i: nat, j: nat)
    requires Sane(u) && Matches(u, Markers(), s, i, j)
    ensures exists k :: i <= k < j <= |s| && s[k] != '#'
  {
    hide Accepts, Markers, ChatMarker, HashMarker, EndMarker;
    var w := s[i..j];
    AnyMarker(u, w);
    if Accepts(u, HashMarker("system"), w) { HashEnds(u, "system", w); }
    else if Accepts(u, HashMarker("instructions"), w) { HashEnds(u, "instructions", w); }
    else { AngleStarts(u, w); }
    var k :| 0 <= k < |w| && w[k] != '#';
    assert s[i + k] == w[k];
  }

  lemma HashEnds(u: Unicode, word: string, w: string)
    requires Sane(u) && word != "" && AsciiLetter(word[0]) && Accepts(u, HashMarker(word), w)
    requires forall i :: 0 <= i < |word| ==> AsciiLetter(word[i])
    ensures exists k :: 0 <= k < |w| && w[k] != '#'
  {
    WordClasses(word);
    hide Accepts, Word, Gap;
    var m := ThenSplits(u, Word("###"), Then(Gap(), Word(word)), w);
    var n := ThenSplits(u, Gap(), Word(word), w[m..]);
    var last := w[m..][n..];
    NullableSound(u, Word(word), last);
    FirstsSound(u, Word(word), last);
    assert last[0] == w[m + n] && Punctuation('#');
  }

  lemma AngleStarts(u: Unicode, w: string)
    requires Sane(u) && (Accepts(u, ChatMarker(), w) || Accepts(u, EndMarker(), w))
    ensures exists k :: 0 <= k < |w| && w[k] != '#'
  {
    WordClasses("<|im_");
    WordClasses("<<<");
    hide Accepts, Word, Gap;
    if Accepts(u, ChatMarker(), w) {
      NullableSound(u, ChatMarker(), w);
      FirstsSound(u, ChatMarker(), w);
    } else {
      NullableSound(u, EndMarker(), w);
      FirstsSound(u, EndMarker(), w);
    }
    assert w[0] == '<';
  }

  lemma ShortAndFree(u: Unicode, s: string)
    requires Sane(u) && Unmarked(u, s) && |s| <= MAX_FIELD_LEN && forall c :: c in s ==> c >= ' '
    ensures Sanitize(u, s) == s
  {
    hide Sanitize, Markers, Free;
    assert forall i :: 0 <= i < |s| ==> s[i] in s;
    assert Harmless(u, s);
    SanitizeFixpoint(u, s);
  }

  /** Both fields of this runbook pass sanitising unchanged, and the remediation block holds a marker. */
  lemma RunbookLeak(u: Unicode, summary: string, rootCause: string)
    requires Plain(u)
    ensures Sanitize(u, "###") == "###" && Sanitize(u, "system") == "system"
    ensures !Unmarked(u, RemediationData(u, summary, rootCause, [Excerpt("x", "###", "system")]))
  {
    hide Sanitize, Unmarked, Plain, RemediationData, Joins;
    PlainIsSane(u);
    HashesUnmarked(u);
    NoFirstUnmarked(u, "system");
    ShortAndFree(u, "###");
    ShortAndFree(u, "system");
    HashWordJoin(u);
    var r := Excerpt("x", "###", "system");
    assert Prefix("system", RUNBOOK_EXCERPT_CHARS) == "system" && "Runbook: " + "###" == "Runbook: ###";
    RemediationUnmarkedIff(u, summary, rootCause, [r]);
    assert !Apart(u, r) && [r][0] == r;
  }
}
