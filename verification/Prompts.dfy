/**
 The prompts of the four triage agents (backend/app/triage/prompts.py and the agents) and their
 closing delimiter: untrusted data sits between two delimiters, so the closing one must occur
 exactly once.
 */
module Prompts {
  import opened Regex
  import opened Substitution
  import opened Text
  import opened Sanitizer

  const DELIMITER := "<<<END>>>"
  const RUNBOOK_EXCERPT_CHARS: nat := 800

  // ----- Assembly -----

  datatype Category = Database | Authentication | Network | Infrastructure | Application | Unknown

  function CategoryText(c: Category): string {
    match c
    case Database => "database"
    case Authentication => "authentication"
    case Network => "network"
    case Infrastructure => "infrastructure"
    case Application => "application"
    case Unknown => "unknown"
  }

  /** One row of the top-events block. */
  datatype TopEvent = TopEvent(signature: string, count: int, level: string)

  /** What retrieval hands to the remediation agent. */
  datatype Excerpt = Excerpt(slug: string, title: string, content: string)

  /** Text of a template: it brings no angle bracket of its own. */
  type Line = s: string | '<' !in s

  /** The instructions above the data block, one text per agent. */
  datatype Wording = Wording(classification: Line, rootCause: Line, remediation: Line, executive: Line)

  const SUMMARY: Line := "Incident summary: "
  const CATEGORY: Line := "Category: "
  const TOP_EVENTS: Line := "\nTop events (signature, count, level):"
  const PROBABLE_CAUSE: Line := "Probable root cause: "
  const ROOT_CAUSE: Line := "Root cause: "
  const EXCERPTS: Line := "\nRunbook excerpts:"
  const ACTIONS: Line := "Recommended actions:"

  /** One captioned line of the data, and the lines below it. */
  function Field(caption: Line, value: string, rest: string): string {
    caption + value + "\n" + rest
  }

  /** The template: instructions, then the data between the two delimiters. */
  function Framed(head: Line, data: string): string {
    head + "\n<<<INPUT>>>\n" + data + "\n" + DELIMITER + "\n"
  }

  function TopEventLine(u: Unicode, e: TopEvent): string {
    "- " + Sanitize(u, e.signature) + ": count=" + IntText(e.count) + ", level=" + e.level
  }

  function FormatTopEvents(u: Unicode, events: seq<TopEvent>): string {
    if events == [] then "- (none)"
    else Join(seq(|events|, i requires 0 <= i < |events| => TopEventLine(u, events[i])), "\n")
  }

  function RunbookText(u: Unicode, r: Excerpt): string {
    "Runbook: " + Sanitize(u, r.title) + "\n" + Sanitize(u, Prefix(r.content, RUNBOOK_EXCERPT_CHARS))
  }

  function RunbookBlock(u: Unicode, retrieved: seq<Excerpt>): string {
    if retrieved == [] then "- (no runbooks matched)"
    else Join(seq(|retrieved|, i requires 0 <= i < |retrieved| => RunbookText(u, retrieved[i])), "\n\n")
  }

  function ActionsBlock(actions: seq<string>): string {
    if actions == [] then "- (none)"
    else Join(seq(|actions|, i requires 0 <= i < |actions| => "- " + actions[i]), "\n")
  }

  function ClassificationPrompt(u: Unicode, v: Wording, summary: string, events: seq<TopEvent>): string {
    Framed(v.classification,
      Field(SUMMARY, Sanitize(u, summary),
        Field(TOP_EVENTS, "", FormatTopEvents(u, events))))
  }

  function RootCausePrompt(u: Unicode, v: Wording, category: Category, summary: string, events: seq<TopEvent>): string {
    Framed(v.rootCause,
      Field(CATEGORY, CategoryText(category),
        Field(SUMMARY, Sanitize(u, summary),
          Field(TOP_EVENTS, "", FormatTopEvents(u, events)))))
  }

  function RemediationPrompt(u: Unicode, v: Wording, summary: string, rootCause: string,
                             retrieved: seq<Excerpt>): string {
    Framed(v.remediation,
      Field(SUMMARY, Sanitize(u, summary),
        Field(PROBABLE_CAUSE, Sanitize(u, rootCause),
          Field(EXCERPTS, "", RunbookBlock(u, retrieved)))))
  }

  function ExecutivePrompt(u: Unicode, v: Wording, category: Category, summary: string, rootCause: string,
                           actions: seq<string>): string {
    Framed(v.executive,
      Field(CATEGORY, CategoryText(category),
        Field(SUMMARY, Sanitize(u, summary),
          Field(ROOT_CAUSE, Sanitize(u, rootCause),
            Field(ACTIONS, "", ActionsBlock(actions))))))
  }

  // ----- Occurrences of the delimiter -----

  predicate At(s: string, i: nat) {
    i + |DELIMITER| <= |s| && s[i..i + |DELIMITER|] == DELIMITER
  }

  ghost predicate Clean(s: string) {
    forall i: nat :: !At(s, i)
  }

  /** The delimiter occurs in s exactly once. */
  ghost predicate Once(s: string) {
    exists i: nat :: At(s, i) && forall j: nat :: At(s, j) ==> j == i
  }

  lemma AtChars(s: string, i: nat)
    requires At(s, i)
    ensures s[i] == '<' && s[i + 3] == 'E' && s[i + 8] == '>'
    ensures forall k :: i <= k < i + 9 ==> s[k] in DELIMITER
  {
    var w := s[i..i + 9];
    assert w[0] == s[i] && w[3] == s[i + 3] && w[8] == s[i + 8];
    forall k | i <= k < i + 9 ensures s[k] in DELIMITER {
      assert w[k - i] == s[k];
    }
  }

  /** A character outside the delimiter separates: no occurrence spans it. */
  lemma AtGlue(a: string, c: char, b: string, i: nat)
    requires c !in DELIMITER
    ensures At(a + [c] + b, i) <==> At(a, i) || (|a| < i && At(b, i - |a| - 1))
  {
    var s := a + [c] + b;
    assert s[|a|] == c;
    if i + 9 <= |a| { assert s[i..i + 9] == a[i..i + 9]; }
    else if |a| < i {
      if i + 9 <= |s| { assert s[i..i + 9] == b[i - |a| - 1..i - |a| - 1 + 9]; }
    } else if At(s, i) {
      AtChars(s, i);
    }
  }

  lemma GlueClean(a: string, c: char, b: string)
    requires c !in DELIMITER
    ensures Clean(a + [c] + b) <==> Clean(a) && Clean(b)
  {
    forall i: nat { AtGlue(a, c, b, i); }
    forall i: nat ensures At(b, i) ==> At(a + [c] + b, |a| + 1 + i) {
      AtGlue(a, c, b, |a| + 1 + i);
    }
  }

  lemma NoAngleClean(s: string)
    requires '<' !in s
    ensures Clean(s)
  {
    forall i: nat ensures !At(s, i) {
      if At(s, i) { AtChars(s, i); }
    }
  }

  /** A label without an angle bracket, ending in a separator, adds no occurrence. */
  lemma LabelClean(caption: Line, s: string)
    requires caption != "" && caption[|caption| - 1] !in DELIMITER
    ensures Clean(caption + s) <==> Clean(s)
  {
    var init, c := caption[..|caption| - 1], caption[|caption| - 1];
    assert caption + s == init + [c] + s;
    NoAngleClean(init);
    GlueClean(init, c, s);
  }

  /** The delimiter occurs in s more than once. */
  ghost predicate Repeated(s: string) {
    exists i: nat, j: nat :: i < j && At(s, i) && At(s, j)
  }

  /** A template holds the delimiter; if not once, then more often. */
  lemma FramedRepeats(head: Line, data: string)
    ensures Once(Framed(head, data)) || Repeated(Framed(head, data))
  {
    var body, close := head + "\n<<<INPUT>>>\n" + data, DELIMITER + "\n";
    var s, last := Framed(head, data), |body| + 1;
    assert s == body + ['\n'] + close;
    assert close[0..9] == DELIMITER && At(close, 0);
    hide Framed;
    AtGlue(body, '\n', close, last);
    OnceOrMore(s, last);
  }

  lemma OnceOrMore(s: string, last: nat)
    requires At(s, last)
    ensures Once(s) || Repeated(s)
  {
    hide At;
    if !Once(s) {
      var j: nat :| At(s, j) && j != last;
      assert if j < last then At(s, j) && At(s, last) else At(s, last) && At(s, j);
    }
  }

  /** The template closes the data once, provided the data does not. */
  lemma FramedOnce(head: Line, data: string)
    ensures Once(Framed(head, data)) <==> Clean(data)
  {
    var body, close := head + "\n<<<INPUT>>>\n" + data, DELIMITER + "\n";
    var s, last := Framed(head, data), |body| + 1;
    BodyClean(head, data);
    assert s == body + ['\n'] + close;
    assert close[0..9] == DELIMITER && At(close, 0);
    hide Framed;
    forall j: nat ensures At(s, j) <==> At(body, j) || j == last {
      AtGlue(body, '\n', close, j);
      if |body| < j && At(close, j - |body| - 1) { AtChars(close, j - |body| - 1); }
    }
    if Clean(body) {
      assert At(s, last) && forall j: nat :: At(s, j) ==> j == last;
    } else {
      var j: nat :| At(body, j);
      assert At(s, j) && At(s, last) && j != last;
    }
  }

  lemma BodyClean(head: Line, data: string)
    ensures Clean(head + "\n<<<INPUT>>>\n" + data) <==> Clean(data)
  {
    var open := "<<<INPUT>>>";
    NoAngleClean(head);
    forall i: nat ensures !At(open, i) {
      if At(open, i) { AtChars(open, i); }
    }
    GlueClean(head, '\n', open);
    GlueClean(head + ['\n'] + open, '\n', data);
    assert head + "\n<<<INPUT>>>\n" + data == (head + ['\n'] + open) + ['\n'] + data;
  }

  // ----- The blocks -----

  /** Sanitised text does not contain the delimiter. */
  lemma {:induction false} SanitizedClean(u: Unicode, text: string)
    requires Sane(u)
    ensures Clean(Sanitize(u, text))
  {
    var s := Sanitize(u, text);
    SanitizedIsHarmless(u, text);
    forall i: nat ensures !At(s, i) {
      if At(s, i) {
        DelimiterIsMarker(u);
        assert Matches(u, Markers(), s, i, i + 9);
      }
    }
  }

  /** w is the word s up to case. */
  ghost predicate Folds(u: Unicode, w: string, s: string) {
    |w| == |s| && forall i :: 0 <= i < |s| ==> if AsciiLetter(s[i]) then u.folds(w[i], s[i]) else w[i] == s[i]
  }

  lemma {:induction false} AcceptsWord(u: Unicode, w: string, s: string)
    requires s != "" && Folds(u, w, s)
    ensures Accepts(u, Word(s), w)
  {
    if |s| > 1 {
      AcceptsWord(u, w[1..], s[1..]);
      AcceptsThen(u, One(if AsciiLetter(s[0]) then Letter(s[0]) else Just(s[0])), Word(s[1..]), [w[0]], w[1..]);
      assert [w[0]] + w[1..] == w;
    }
  }

  lemma {:induction false} DelimiterIsMarker(u: Unicode)
    requires Sane(u)
    ensures Accepts(u, Markers().body, DELIMITER)
  {
    hide Word, ChatMarker, HashMarker, EndMarker;
    DelimiterIsEndMarker(u);
    var three := Either(HashMarker("instructions"), EndMarker());
    assert Accepts(u, three, DELIMITER);
    assert Accepts(u, Either(HashMarker("system"), three), DELIMITER);
  }

  lemma DelimiterIsEndMarker(u: Unicode)
    requires Sane(u)
    ensures Accepts(u, EndMarker(), DELIMITER)
  {
    hide Word, EndMarker, Accepts;
    AcceptsWord(u, "<<<", "<<<");
    AcceptsWord(u, "END", "end");
    AcceptsWord(u, ">>>", ">>>");
    EndMarkerAccepts(u, "<<<", "END", ">>>");
    assert DELIMITER == "<<<" + ("END" + ">>>");
  }

  lemma EndMarkerAccepts(u: Unicode, v: string, w: string, x: string)
    requires Accepts(u, Word("<<<"), v) && Accepts(u, Word("end"), w) && Accepts(u, Word(">>>"), x)
    ensures Accepts(u, EndMarker(), v + (w + x))
  {
    var gap := Gap();
    assert Accepts(u, gap, "");
    hide Word, Accepts, Gap;
    var close, word := Then(gap, Word(">>>")), Word("end");
    AcceptsThen(u, gap, Word(">>>"), "", x);
    assert "" + x == x;
    AcceptsThen(u, word, close, w, x);
    AcceptsThen(u, gap, Then(word, close), "", w + x);
    assert "" + (w + x) == w + x;
    AcceptsThen(u, Word("<<<"), Then(gap, Then(word, close)), v, w + x);
  }

  /** Lines joined by line breaks are clean exactly when each line is. */
  lemma {:induction false} JoinClean(lines: seq<string>, sep: string)
    requires sep == "\n" || sep == "\n\n"
    ensures Clean(Join(lines, sep)) <==> forall i :: 0 <= i < |lines| ==> Clean(lines[i])
  {
    if lines == [] { NoAngleClean(""); }
    else if |lines| > 1 {
      var head, tail := lines[0], Join(lines[1..], sep);
      JoinClean(lines[1..], sep);
      if sep == "\n" {
        assert Join(lines, sep) == head + ['\n'] + tail;
        GlueClean(head, '\n', tail);
      } else {
        assert Join(lines, sep) == (head + ['\n'] + "") + ['\n'] + tail;
        NoAngleClean("");
        GlueClean(head, '\n', "");
        GlueClean(head + ['\n'] + "", '\n', tail);
      }
      assert forall i :: 0 <= i < |lines| - 1 ==> lines[1..][i] == lines[i + 1];
      assert forall i :: 1 <= i < |lines| ==> lines[i] == lines[1..][i - 1];
    }
  }

  lemma TopEventLineClean(u: Unicode, e: TopEvent)
    requires Sane(u)
    ensures Clean(TopEventLine(u, e)) <==> Clean(e.level)
  {
    hide Sanitize, IntText;
    SanitizedClean(u, e.signature);
    LabelClean("- ", Sanitize(u, e.signature));
    var left := "- " + Sanitize(u, e.signature);
    var middle := " count=" + IntText(e.count) + ", level";
    NoAngleClean(middle);
    GlueClean(left, ':', middle);
    GlueClean(left + [':'] + middle, '=', e.level);
    assert TopEventLine(u, e) == (left + [':'] + middle) + ['='] + e.level;
  }

  /** The levels of the top events are inserted as given. */
  ghost predicate LevelsClean(events: seq<TopEvent>) {
    forall i :: 0 <= i < |events| ==> Clean(events[i].level)
  }

  lemma TopEventsClean(u: Unicode, events: seq<TopEvent>)
    requires Sane(u)
    ensures Clean(FormatTopEvents(u, events)) <==> LevelsClean(events)
  {
    if events == [] { NoAngleClean("- (none)"); }
    else {
      var lines := seq(|events|, i requires 0 <= i < |events| => TopEventLine(u, events[i]));
      forall i | 0 <= i < |events| ensures Clean(lines[i]) <==> Clean(events[i].level) {
        TopEventLineClean(u, events[i]);
      }
      JoinClean(lines, "\n");
    }
  }

  lemma RunbookTextClean(u: Unicode, r: Excerpt)
    requires Sane(u)
    ensures Clean(RunbookText(u, r))
  {
    hide Sanitize, Prefix;
    var title, content := Sanitize(u, r.title), Sanitize(u, Prefix(r.content, RUNBOOK_EXCERPT_CHARS));
    SanitizedClean(u, r.title);
    SanitizedClean(u, Prefix(r.content, RUNBOOK_EXCERPT_CHARS));
    LabelClean("Runbook: ", title);
    GlueClean("Runbook: " + title, '\n', content);
    assert RunbookText(u, r) == ("Runbook: " + title) + ['\n'] + content;
  }

  lemma RunbooksClean(u: Unicode, retrieved: seq<Excerpt>)
    requires Sane(u)
    ensures Clean(RunbookBlock(u, retrieved))
  {
    hide RunbookText, Clean;
    if retrieved == [] { NoAngleClean("- (no runbooks matched)"); }
    else {
      var texts := seq(|retrieved|, i requires 0 <= i < |retrieved| => RunbookText(u, retrieved[i]));
      forall i | 0 <= i < |retrieved| ensures Clean(texts[i]) {
        RunbookTextClean(u, retrieved[i]);
      }
      JoinClean(texts, "\n\n");
    }
  }

  lemma ActionsClean(actions: seq<string>)
    ensures Clean(ActionsBlock(actions)) <==> forall i :: 0 <= i < |actions| ==> Clean(actions[i])
  {
    if actions == [] { NoAngleClean("- (none)"); }
    else {
      var lines := seq(|actions|, i requires 0 <= i < |actions| => "- " + actions[i]);
      forall i | 0 <= i < |actions| ensures Clean(lines[i]) <==> Clean(actions[i]) {
        LabelClean("- ", actions[i]);
      }
      JoinClean(lines, "\n");
    }
  }

  // ----- The prompts -----

  lemma FieldClean(caption: Line, value: string, rest: string)
    requires value == "" || (caption != "" && caption[|caption| - 1] !in DELIMITER)
    ensures Clean(Field(caption, value, rest)) <==> Clean(value) && Clean(rest)
  {
    if value == "" {
      NoAngleClean(caption);
      NoAngleClean("");
      assert caption + value == caption;
    } else {
      LabelClean(caption, value);
    }
    GlueClean(caption + value, '\n', rest);
    assert Field(caption, value, rest) == (caption + value) + ['\n'] + rest;
  }

  /** A classification prompt closes its data once, iff no level brings the delimiter in. */
  lemma ClassificationPromptOnce(u: Unicode, v: Wording, summary: string, events: seq<TopEvent>)
    requires Sane(u)
    ensures Once(ClassificationPrompt(u, v, summary, events)) <==> LevelsClean(events)
  {
    hide Sanitize, Framed, FormatTopEvents, Field;
    var value, block := Sanitize(u, summary), FormatTopEvents(u, events);
    SanitizedClean(u, summary);
    TopEventsClean(u, events);
    var rest := Field(TOP_EVENTS, "", block);
    FieldClean(TOP_EVENTS, "", block);
    FieldClean(SUMMARY, value, rest);
    FramedOnce(v.classification, Field(SUMMARY, value, rest));
    NoAngleClean("");
  }

  lemma CategoryClean(category: Category)
    ensures Clean(CategoryText(category))
  {
    NoAngleClean(CategoryText(category));
  }

  /** A root-cause prompt closes its data once, iff no level brings the delimiter in. */
  lemma RootCausePromptOnce(u: Unicode, v: Wording, category: Category, summary: string, events: seq<TopEvent>)
    requires Sane(u)
    ensures Once(RootCausePrompt(u, v, category, summary, events)) <==> LevelsClean(events)
  {
    hide Sanitize, Framed, FormatTopEvents, Field, CategoryText;
    CategoryClean(category);
    var name, value, block := CategoryText(category), Sanitize(u, summary), FormatTopEvents(u, events);
    SanitizedClean(u, summary);
    TopEventsClean(u, events);
    NoAngleClean("");
    var rest := Field(TOP_EVENTS, "", block);
    FieldClean(TOP_EVENTS, "", block);
    FieldClean(SUMMARY, value, rest);
    var data := Field(SUMMARY, value, rest);
    FieldClean(CATEGORY, name, data);
    FramedOnce(v.rootCause, Field(CATEGORY, name, data));
  }

  /** A remediation prompt closes its data once, whatever the incident and the runbooks say. */
  lemma RemediationPromptOnce(u: Unicode, v: Wording, summary: string, rootCause: string, retrieved: seq<Excerpt>)
    requires Sane(u)
    ensures Once(RemediationPrompt(u, v, summary, rootCause, retrieved))
  {
    hide Sanitize, Framed, RunbookBlock, Field;
    var value, cause, block := Sanitize(u, summary), Sanitize(u, rootCause), RunbookBlock(u, retrieved);
    SanitizedClean(u, summary);
    SanitizedClean(u, rootCause);
    RunbooksClean(u, retrieved);
    NoAngleClean("");
    var rest := Field(EXCERPTS, "", block);
    FieldClean(EXCERPTS, "", block);
    FieldClean(PROBABLE_CAUSE, cause, rest);
    var data := Field(PROBABLE_CAUSE, cause, rest);
    FieldClean(SUMMARY, value, data);
    FramedOnce(v.remediation, Field(SUMMARY, value, data));
  }

  /** The executive summary inserts the model's actions as given, and closes its data once iff they are clean. */
  lemma ExecutivePromptOnce(u: Unicode, v: Wording, category: Category, summary: string, rootCause: string,
                            actions: seq<string>)
    requires Sane(u)
    ensures Once(ExecutivePrompt(u, v, category, summary, rootCause, actions)) <==>
            forall i :: 0 <= i < |actions| ==> Clean(actions[i])
  {
    hide Sanitize, Framed, ActionsBlock, Field, CategoryText;
    CategoryClean(category);
    var name, value, cause := CategoryText(category), Sanitize(u, summary), Sanitize(u, rootCause);
    var block := ActionsBlock(actions);
    SanitizedClean(u, summary);
    SanitizedClean(u, rootCause);
    ActionsClean(actions);
    NoAngleClean("");
    var list := Field(ACTIONS, "", block);
    FieldClean(ACTIONS, "", block);
    var rest := Field(ROOT_CAUSE, cause, list);
    FieldClean(ROOT_CAUSE, cause, list);
    var data := Field(SUMMARY, value, rest);
    FieldClean(SUMMARY, value, rest);
    FieldClean(CATEGORY, name, data);
    FramedOnce(v.executive, Field(CATEGORY, name, data));
  }

  /** An action that is the delimiter itself makes the executive prompt close its data twice. */
  lemma ExecutivePromptLeak(u: Unicode, v: Wording, category: Category, summary: string, rootCause: string)
    requires Sane(u)
    ensures Repeated(ExecutivePrompt(u, v, category, summary, rootCause, [DELIMITER]))
  {
    assert At([DELIMITER][0], 0);
    ExecutivePromptOnce(u, v, category, summary, rootCause, [DELIMITER]);
    hide Once, Repeated, Framed;
    FramedRepeats(v.executive, Field(CATEGORY, CategoryText(category), Field(SUMMARY, Sanitize(u, summary),
      Field(ROOT_CAUSE, Sanitize(u, rootCause), Field(ACTIONS, "", ActionsBlock([DELIMITER]))))));
  }
}
