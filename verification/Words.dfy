/**
 White space in signatures: collapsing and stripping leaves the words of the text with single blanks between,
 as `" ".join(text.split())` does (backend/app/ingestion/normalizer.py:60).
 */
module Words {
  import opened Wrappers
  import opened Regex
  import opened Substitution
  import opened Normalizer
  import opened Text

  /** The maximal pieces of s without white space. */
  function WordsOf(u: Unicode, s: string): (words: seq<string>)
    ensures s != "" && !u.space(s[0]) ==> words != []
    ensures forall k :: 0 <= k < |words| ==> words[k] != ""
  {
    if s == "" then []
    else
      var rest := WordsOf(u, s[1..]);
      if u.space(s[0]) then rest
      else if |s| > 1 && !u.space(s[1]) then [[s[0]] + rest[0]] + rest[1..]
      else [[s[0]]] + rest
  }

  lemma {:induction false} StripRightCons(u: Unicode, c: char, t: string)
    ensures StripRight(u, [c] + t) ==
            if StripRight(u, t) == "" && u.space(c) then "" else [c] + StripRight(u, t)
  {
    var all := [c] + t;
    if t == "" {
      assert all[..0] == "";
    } else {
      assert all[|all| - 1] == t[|t| - 1] && all[..|all| - 1] == [c] + t[..|t| - 1];
      if u.space(t[|t| - 1]) { StripRightCons(u, c, t[..|t| - 1]); }
    }
  }

  lemma StripCons(u: Unicode, c: char, t: string)
    ensures u.space(c) ==> Strip(u, [c] + t) == Strip(u, t)
    ensures !u.space(c) ==> Strip(u, [c] + t) == [c] + StripRight(u, t)
  {
    assert ([c] + t)[1..] == t;
    hide StripRight;
    if !u.space(c) { StripRightCons(u, c, t); }
  }

  lemma {:induction false} SpacesAreNoWords(u: Unicode, s: string, n: nat)
    requires n <= |s| && forall x :: 0 <= x < n ==> u.space(s[x])
    ensures WordsOf(u, s) == WordsOf(u, s[n..])
  {
    if n == 0 { assert s[0..] == s; }
    else {
      SpacesAreNoWords(u, s[1..], n - 1);
      assert s[1..][n - 1..] == s[n..];
    }
  }

  lemma JoinGrows(c: char, words: seq<string>)
    requires words != []
    ensures Join([[c] + words[0]] + words[1..], " ") == [c] + Join(words, " ")
  {
    var more := [[c] + words[0]] + words[1..];
    if |words| > 1 {
      assert more[1..] == words[1..];
      assert [c] + words[0] + " " + Join(words[1..], " ") == [c] + (words[0] + " " + Join(words[1..], " "));
    }
  }

  lemma JoinFirst(w: string, words: seq<string>)
    ensures Join([w] + words, " ") == if words == [] then w else w + " " + Join(words, " ")
  {
    assert ([w] + words)[1..] == words;
  }

  lemma JoinNotEmpty(words: seq<string>)
    requires words != [] && words[0] != ""
    ensures Join(words, " ") != ""
  {
  }

  /** Collapsing and stripping joins the words with single blanks. */
  lemma {:induction false} CollapsedWords(u: Unicode, s: string, i: nat)
    requires Sane(u) && i <= |s|
    ensures Strip(u, SubFrom(u, Spaces(), " ", s, i)) == Join(WordsOf(u, s[i..]), " ")
    decreases |s| - i
  {
    hide RunLength, SubFrom, Sane, Strip, Join, StripRight, WordsOf;
    if i == |s| { NoWords(u, s); }
    else {
      var len := RunLength(u, Space, s, i, None);
      CollapseStep(u, s, i, len);
      if len == 0 { CollapsedWords(u, s, i + 1); LetterFirst(u, s, i); }
      else {
        SpaceRun(u, s, i, len);
        CollapsedWords(u, s, i + len);
        SpaceFirst(u, s, i, len);
      }
    }
  }

  lemma NoWords(u: Unicode, s: string)
    ensures Strip(u, SubFrom(u, Spaces(), " ", s, |s|)) == Join(WordsOf(u, s[|s|..]), " ")
  {
    CollapseAtEnd(u, s);
  }

  lemma RunIsSpace(u: Unicode, s: string, i: nat, len: nat)
    requires i < |s| && len == RunLength(u, Space, s, i, None)
    ensures i + len <= |s| && forall x :: 0 <= x < len ==> u.space(s[i..][x])
  {
    RunLengthMaximal(u, Space, s, i, None);
    hide RunLength;
    forall x | 0 <= x < len ensures u.space(s[i..][x]) {
      assert In(u, Space, s[i + x]);
    }
  }

  lemma SpaceFirst(u: Unicode, s: string, i: nat, len: nat)
    requires Sane(u) && i < |s| && len == RunLength(u, Space, s, i, None)
    ensures i + len <= |s| && WordsOf(u, s[i..]) == WordsOf(u, s[i + len..])
    ensures Strip(u, " " + SubFrom(u, Spaces(), " ", s, i + len)) == Strip(u, SubFrom(u, Spaces(), " ", s, i + len))
  {
    assert u.space(' ');
    hide RunLength, SubFrom, Sane, Strip, WordsOf;
    RunIsSpace(u, s, i, len);
    SpacesAreNoWords(u, s[i..], len);
    assert s[i..][len..] == s[i + len..];
    StripCons(u, ' ', SubFrom(u, Spaces(), " ", s, i + len));
  }

  lemma LetterFirst(u: Unicode, s: string, i: nat)
    requires Sane(u) && i < |s| && !u.space(s[i])
    requires Strip(u, SubFrom(u, Spaces(), " ", s, i + 1)) == Join(WordsOf(u, s[i + 1..]), " ")
    ensures Strip(u, [s[i]] + SubFrom(u, Spaces(), " ", s, i + 1)) == Join(WordsOf(u, s[i..]), " ")
  {
    hide Strip, Join, SubFrom, StripRight;
    var c, t, rest := s[i], SubFrom(u, Spaces(), " ", s, i + 1), s[i + 1..];
    var words := WordsOf(u, rest);
    assert s[i..][0] == c && s[i..][1..] == rest;
    StripCons(u, c, t);
    if rest == "" {
      CollapseAtEnd(u, s);
      NothingToStrip(u);
      JoinFirst([c], []);
    } else if !u.space(rest[0]) {
      WordStart(u, s, i + 1);
      StripCons(u, t[0], t[1..]);
      assert t == [t[0]] + t[1..];
      StripRightCons(u, t[0], t[1..]);
      JoinGrows(c, words);
    } else {
      SpaceStart(u, s, i + 1);
      StripCons(u, ' ', t[1..]);
      assert t == " " + t[1..];
      StripRightCons(u, ' ', t[1..]);
      JoinFirst([c], words);
      StripOfStart(u, t[1..]);
      if words != [] { JoinNotEmpty(words); } else { NoJoin(); }
    }
  }

  lemma NoJoin()
    ensures Join([], " ") == ""
  {
  }

  lemma NothingToStrip(u: Unicode)
    ensures StripRight(u, "") == ""
  {
  }

  lemma StripOfStart(u: Unicode, t: string)
    requires t == "" || !u.space(t[0])
    ensures Strip(u, t) == StripRight(u, t)
  {
  }

  lemma WordStart(u: Unicode, s: string, i: nat)
    requires i < |s| && !u.space(s[i])
    ensures var t := SubFrom(u, Spaces(), " ", s, i); t != "" && t[0] == s[i]
  {
    hide SubFrom, RunLength;
    CollapseStep(u, s, i, RunLength(u, Space, s, i, None));
  }

  lemma SpaceStart(u: Unicode, s: string, i: nat)
    requires Sane(u) && i < |s| && u.space(s[i])
    ensures var t := SubFrom(u, Spaces(), " ", s, i); t != "" && t[0] == ' ' && (|t| > 1 ==> !u.space(t[1]))
    ensures u.space(' ')
  {
    hide SubFrom, RunLength;
    var len := RunLength(u, Space, s, i, None);
    CollapseStep(u, s, i, len);
    SpaceRun(u, s, i, len);
    if i + len < |s| { WordStart(u, s, i + len); } else { CollapseAtEnd(u, s); }
  }

  /** A signature is the words that the seven passes leave, joined by single blanks. */
  lemma SignatureIsJoinedWords(u: Unicode, message: string)
    requires Sane(u)
    ensures Signature(u, message) == Join(WordsOf(u, Passes(u, message, 7)), " ")
  {
    hide Passes, SubFrom, Strip, WordsOf, Join;
    var s := Passes(u, message, 7);
    CollapsedWords(u, s, 0);
    assert s[0..] == s;
  }
}
