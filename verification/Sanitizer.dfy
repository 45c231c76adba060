/**
 Untrusted text on its way into a prompt (backend/app/triage/sanitize.py): control characters
 are dropped, injection markers redacted, the rest cut at 1000 characters.
 */
module Sanitizer {
  import opened Wrappers
  import opened Regex
  import opened Substitution
  import opened Text

  const MAX_FIELD_LEN: nat := 1000
  const REDACTED := "[REDACTED]"

  function ControlChar(): Pattern { Pattern(One(Control), false) }

  /** A literal of a case-insensitive pattern. */
  function Word(s: string): Regex
    requires s != ""
  {
    var first := One(if AsciiLetter(s[0]) then Letter(s[0]) else Just(s[0]));
    if |s| == 1 then first else Then(first, Word(s[1..]))
  }

  function Gap(): Regex { Run(Space, 0, None) }

  function ChatMarker(): Regex {
    Then(Word("<|im_"), Then(Either(Word("start"), Word("end")), Word("|>")))
  }

  function HashMarker(word: string): Regex
    requires word != ""
  {
    Then(Word("###"), Then(Gap(), Word(word)))
  }

  function EndMarker(): Regex {
    Then(Word("<<<"), Then(Gap(), Then(Word("end"), Then(Gap(), Word(">>>")))))
  }

  function Markers(): Pattern {
    Pattern(Either(ChatMarker(), Either(HashMarker("system"), Either(HashMarker("instructions"), EndMarker()))), false)
  }

  function Sanitize(u: Unicode, text: string): string {
    Prefix(Sub(u, Markers(), REDACTED, Sub(u, ControlChar(), "", text)), MAX_FIELD_LEN)
  }

  /** Text that `Sanitize` has nothing to do on. */
  ghost predicate Harmless(u: Unicode, s: string) {
    && (forall i :: 0 <= i < |s| ==> !In(u, Control, s[i]))
    && Free(u, Markers(), s)
    && |s| <= MAX_FIELD_LEN
  }

  // ----- Control characters -----

  lemma ControlMatch(u: Unicode, s: string, i: nat)
    requires i < |s|
    ensures FirstMatch(u, ControlChar(), s, i) == if In(u, Control, s[i]) then Some(i + 1) else None
  {
    assert RunLength(u, Control, s, i, Some(1)) == if In(u, Control, s[i]) then 1 else 0;
  }

  lemma {:induction false} ControlsDropped(u: Unicode, s: string, i: nat, x: nat)
    requires i <= |s|
    requires x < |SubFrom(u, ControlChar(), "", s, i)|
    ensures !In(u, Control, SubFrom(u, ControlChar(), "", s, i)[x])
    decreases |s| - i
  {
    if i < |s| {
      ControlMatch(u, s, i);
      if In(u, Control, s[i]) { ControlsDropped(u, s, i + 1, x); }
      else if x > 0 { ControlsDropped(u, s, i + 1, x - 1); }
    }
  }

  lemma {:induction false} NoControlNoChange(u: Unicode, s: string, i: nat)
    requires i <= |s| && forall x :: i <= x < |s| ==> !In(u, Control, s[x])
    ensures SubFrom(u, ControlChar(), "", s, i) == s[i..]
    decreases |s| - i
  {
    if i < |s| {
      ControlMatch(u, s, i);
      NoControlNoChange(u, s, i + 1);
    }
  }

  /** Every character of the result comes from the text or from the replacement. */
  lemma {:induction false} SubCharacters(u: Unicode, p: Pattern, rep: string, s: string, i: nat, c: char)
    requires i <= |s| && c in SubFrom(u, p, rep, s, i)
    ensures c in s || c in rep
    decreases |s| - i
  {
    hide FirstMatch;
    if i < |s| {
      var end := FirstMatch(u, p, s, i);
      if end.Some? && i < end.value {
        if c !in rep { SubCharacters(u, p, rep, s, end.value, c); }
      } else if c != s[i] {
        SubCharacters(u, p, rep, s, i + 1, c);
      }
    }
  }

  // ----- Markers -----

  predicate MarkerClass(k: Class) {
    match k
    case Letter(_) => true
    case Space => true
    case Just(c) => c in "<|>#_"
    case _ => false
  }

  lemma {:induction false} WordClasses(s: string)
    requires s != "" && forall i :: 0 <= i < |s| ==> AsciiLetter(s[i]) || s[i] in "<|>#_"
    ensures !Nullable(Word(s)) && forall k :: k in Classes(Word(s)) ==> MarkerClass(k)
    ensures Firsts(Word(s)) == {if AsciiLetter(s[0]) then Letter(s[0]) else Just(s[0])}
  {
    if |s| > 1 { WordClasses(s[1..]); }
  }

  /** Shape of one alternative, or of all of them. */
  ghost predicate MarkerShape(r: Regex) {
    && !Nullable(r)
    && (forall k :: k in Classes(r) ==> MarkerClass(k))
    && Firsts(r) <= {Just('<'), Just('#')}
  }

  lemma ChatMarkerShape()
    ensures MarkerShape(ChatMarker())
  {
    hide Word;
    WordClasses("<|im_");
    WordClasses("start");
    WordClasses("end");
    WordClasses("|>");
  }

  lemma HashMarkerShape(word: string)
    requires word != "" && forall i :: 0 <= i < |word| ==> AsciiLetter(word[i])
    ensures MarkerShape(HashMarker(word))
  {
    hide Word;
    WordClasses("###");
    WordClasses(word);
    var rest := Then(Gap(), Word(word));
    assert HashMarker(word) == Then(Word("###"), rest);
    assert !Nullable(rest) && Classes(rest) == {Space} + Classes(Word(word));
    assert "###"[0] == '#';
  }

  lemma EndMarkerShape()
    ensures MarkerShape(EndMarker())
  {
    hide Word;
    WordClasses("<<<");
    WordClasses("end");
    WordClasses(">>>");
  }

  lemma MarkersShape()
    ensures !Markers().edges && MarkerShape(Markers().body)
  {
    hide ChatMarker, HashMarker, EndMarker;
    ChatMarkerShape();
    HashMarkerShape("system");
    HashMarkerShape("instructions");
    EndMarkerShape();
  }

  lemma RedactedInert(u: Unicode)
    requires Sane(u)
    ensures Inert(u, Markers(), REDACTED)
  {
    MarkersShape();
    hide Markers;
    assert Punctuation('[') && Punctuation(']') && !Blank('[') && !Blank(']');
    assert REDACTED[0] == '[' && REDACTED[|REDACTED| - 1] == ']';
    assert '<' !in REDACTED && '#' !in REDACTED;
    forall i: nat, j: nat ensures !Matches(u, Markers(), REDACTED, i, j) {
      if Matches(u, Markers(), REDACTED, i, j) {
        NullableSound(u, Markers().body, REDACTED[i..j]);
        FirstsSound(u, Markers().body, REDACTED[i..j]);
      }
    }
  }

  /** Sanitised text has no control character and no marker, and is at most 1000 long. */
  lemma SanitizedIsHarmless(u: Unicode, text: string)
    requires Sane(u)
    ensures Harmless(u, Sanitize(u, text))
  {
    var t := Sub(u, ControlChar(), "", text);
    var m := Sub(u, Markers(), REDACTED, t);
    hide FirstMatch;
    MarkersShape();
    hide Markers;
    RedactedInert(u);
    SubKeepsFree(u, Markers(), Markers(), REDACTED, t);
    forall i | 0 <= i < |m| ensures !In(u, Control, m[i]) {
      SubCharacters(u, Markers(), REDACTED, t, 0, m[i]);
      if m[i] in t {
        var x :| 0 <= x < |t| && t[x] == m[i];
        ControlsDropped(u, text, 0, x);
      }
    }
    if MAX_FIELD_LEN < |m| {
      FreePiece(u, Markers(), m, 0, MAX_FIELD_LEN);
      assert m[0..MAX_FIELD_LEN] == m[..MAX_FIELD_LEN];
    }
  }

  /** Exactly the harmless texts pass unchanged. */
  lemma SanitizeFixpoint(u: Unicode, s: string)
    requires Sane(u)
    ensures Sanitize(u, s) == s <==> Harmless(u, s)
  {
    hide Markers;
    if Harmless(u, s) {
      NoControlNoChange(u, s, 0);
      SubOfFree(u, Markers(), REDACTED, s, 0);
    }
    if Sanitize(u, s) == s { SanitizedIsHarmless(u, s); }
  }

  lemma SanitizeIdempotent(u: Unicode, text: string)
    requires Sane(u)
    ensures Sanitize(u, Sanitize(u, text)) == Sanitize(u, text)
  {
    SanitizedIsHarmless(u, text);
    SanitizeFixpoint(u, Sanitize(u, text));
  }
}
