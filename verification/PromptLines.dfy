/**
 The four prompts line by line (backend/app/triage/prompts.py and backend/app/triage/agents), and the sentence
 that sums an incident up in them (backend/app/triage/triage_service.py).
 */
module PromptLines {
  import opened Wrappers
  import opened Regex
  import opened Text
  import opened Sanitizer
  import opened Prompts
  import opened Records
  import opened Triage
  import opened Reports

  // ----- Lines -----

  /** Lines with line breaks between them. */
  function Lines(lines: seq<string>): string {
    Join(lines, "\n")
  }

  lemma {:induction false} LinesAppend(a: seq<string>, b: seq<string>)
    requires a != [] && b != []
    ensures Lines(a + b) == Lines(a) + "\n" + Lines(b)
  {
    assert (a + b)[0] == a[0] && (a + b)[1..] == a[1..] + b;
    if |a| > 1 {
      LinesAppend(a[1..], b);
      assert a[0] + "\n" + (Lines(a[1..]) + "\n" + Lines(b)) == (a[0] + "\n" + Lines(a[1..])) + "\n" + Lines(b);
    } else {
      assert a[1..] + b == b;
    }
  }

  lemma OneLine(line: string)
    ensures Lines([line]) == line
  {
  }

  lemma FieldLine(caption: Line, value: string, rest: seq<string>)
    requires rest != []
    ensures Field(caption, value, Lines(rest)) == Lines([caption + value] + rest)
  {
    hide Lines;
    LinesAppend([caption + value], rest);
    OneLine(caption + value);
  }

  /** A caption that begins with a line break stands below an empty line. */
  lemma FieldBelow(caption: Line, rest: seq<string>)
    requires rest != [] && |caption| > 0 && caption[0] == '\n'
    ensures Field(caption, "", Lines(rest)) == Lines(["", caption[1..]] + rest)
  {
    hide Lines;
    FieldLine(caption, "", rest);
    LinesAppend([caption], rest);
    LinesAppend(["", caption[1..]], rest);
    LinesAppend([""], [caption[1..]]);
    OneLine("");
    OneLine(caption);
    OneLine(caption[1..]);
    assert ["", caption[1..]] == [""] + [caption[1..]];
    assert caption == "" + "\n" + caption[1..] && caption + "" == caption;
  }

  lemma FramedLines(head: Line, data: seq<string>)
    requires data != []
    ensures Framed(head, Lines(data)) == Lines([head, "<<<INPUT>>>"] + data + ["<<<END>>>", ""])
  {
    hide Lines;
    LinesAppend([head, "<<<INPUT>>>"] + data, ["<<<END>>>", ""]);
    LinesAppend([head, "<<<INPUT>>>"], data);
    LinesAppend([head], ["<<<INPUT>>>"]);
    LinesAppend(["<<<END>>>"], [""]);
    assert [head, "<<<INPUT>>>"] == [head] + ["<<<INPUT>>>"] && ["<<<END>>>", ""] == ["<<<END>>>"] + [""];
    OneLine(head);
    OneLine("<<<INPUT>>>");
    OneLine("<<<END>>>");
    OneLine("");
    var x := Lines(data);
    assert head + "\n<<<INPUT>>>\n" + x + "\n" + DELIMITER + "\n" ==
           head + "\n" + "<<<INPUT>>>" + "\n" + x + "\n" + ("<<<END>>>" + "\n" + "");
  }

  // ----- Blocks -----

  function EventLines(u: Unicode, events: seq<TopEvent>): (lines: seq<string>)
    ensures lines != []
  {
    if events == [] then ["- (none)"]
    else
      seq(|events|, k requires 0 <= k < |events| =>
        "- " + Sanitize(u, events[k].signature) + ": count=" + IntText(events[k].count) + ", level=" + events[k].level)
  }

  function ActionLines(actions: seq<string>): (lines: seq<string>)
    ensures lines != []
  {
    if actions == [] then ["- (none)"] else seq(|actions|, k requires 0 <= k < |actions| => "- " + actions[k])
  }

  /** Title and the first 800 characters of the content, an empty line between two runbooks. */
  function RunbookLines(u: Unicode, retrieved: seq<Excerpt>): (lines: seq<string>)
    ensures lines != []
  {
    if retrieved == [] then ["- (no runbooks matched)"]
    else
      var r := retrieved[0];
      ["Runbook: " + Sanitize(u, r.title),
       Sanitize(u, if |r.content| > 800 then r.content[..800] else r.content)]
      + (if |retrieved| == 1 then [] else [""] + RunbookLines(u, retrieved[1..]))
  }

  lemma EventsAreLines(u: Unicode, events: seq<TopEvent>)
    ensures FormatTopEvents(u, events) == Lines(EventLines(u, events))
  {
    hide Sanitize, IntText, Join;
    if events == [] { OneLine("- (none)"); }
    else {
      assert seq(|events|, i requires 0 <= i < |events| => TopEventLine(u, events[i])) == EventLines(u, events);
    }
  }

  lemma ActionsAreLines(actions: seq<string>)
    ensures ActionsBlock(actions) == Lines(ActionLines(actions))
  {
    hide Join;
    if actions == [] { OneLine("- (none)"); }
    else { assert seq(|actions|, i requires 0 <= i < |actions| => "- " + actions[i]) == ActionLines(actions); }
  }

  lemma OneRunbook(u: Unicode, r: Excerpt)
    ensures RunbookText(u, r) == Lines(["Runbook: " + Sanitize(u, r.title),
              Sanitize(u, if |r.content| > 800 then r.content[..800] else r.content)])
  {
    hide Sanitize, Lines;
    var a, b := "Runbook: " + Sanitize(u, r.title), Sanitize(u, Prefix(r.content, 800));
    assert [a, b] == [a] + [b];
    LinesAppend([a], [b]);
    OneLine(a);
    OneLine(b);
  }

  function Texts(u: Unicode, retrieved: seq<Excerpt>): (texts: seq<string>)
    ensures |texts| == |retrieved|
  {
    seq(|retrieved|, i requires 0 <= i < |retrieved| => RunbookText(u, retrieved[i]))
  }

  lemma {:induction false} TextsAreLines(u: Unicode, retrieved: seq<Excerpt>)
    requires retrieved != []
    ensures Join(Texts(u, retrieved), "\n\n") == Lines(RunbookLines(u, retrieved))
  {
    hide Sanitize, RunbookText, Lines;
    var r := retrieved[0];
    var pair := ["Runbook: " + Sanitize(u, r.title),
                 Sanitize(u, if |r.content| > 800 then r.content[..800] else r.content)];
    OneRunbook(u, r);
    if |retrieved| == 1 {
      assert RunbookLines(u, retrieved) == pair;
    } else {
      var rest := RunbookLines(u, retrieved[1..]);
      TextsAreLines(u, retrieved[1..]);
      assert Texts(u, retrieved)[1..] == Texts(u, retrieved[1..]);
      assert RunbookLines(u, retrieved) == pair + ([""] + rest);
      LinesAppend(pair, [""] + rest);
      LinesAppend([""], rest);
      OneLine("");
      assert Lines(pair) + "\n\n" + Lines(rest) == Lines(pair) + "\n" + ("" + "\n" + Lines(rest));
    }
  }

  lemma RunbooksAreLines(u: Unicode, retrieved: seq<Excerpt>)
    ensures RunbookBlock(u, retrieved) == Lines(RunbookLines(u, retrieved))
  {
    hide Sanitize, RunbookText, Join;
    if retrieved == [] { OneLine("- (no runbooks matched)"); }
    else {
      TextsAreLines(u, retrieved);
      assert seq(|retrieved|, i requires 0 <= i < |retrieved| => RunbookText(u, retrieved[i])) == Texts(u, retrieved);
    }
  }

  // ----- The prompts -----

  lemma ClassificationLines(u: Unicode, v: Wording, summary: string, events: seq<TopEvent>)
    ensures ClassificationPrompt(u, v, summary, events) == Lines(
              [v.classification, "<<<INPUT>>>", "Incident summary: " + Sanitize(u, summary), "",
               "Top events (signature, count, level):"] + EventLines(u, events) + ["<<<END>>>", ""])
  {
    hide Lines, Sanitize, Framed, Field, FormatTopEvents, EventLines;
    var s, es := Sanitize(u, summary), EventLines(u, events);
    EventsAreLines(u, events);
    var below := ["", TOP_EVENTS[1..]] + es;
    FieldBelow(TOP_EVENTS, es);
    FieldLine(SUMMARY, s, below);
    FramedLines(v.classification, [SUMMARY + s] + below);
    assert [v.classification, "<<<INPUT>>>"] + ([SUMMARY + s] + below) + ["<<<END>>>", ""] ==
           [v.classification, "<<<INPUT>>>", "Incident summary: " + s, "", TOP_EVENTS[1..]] + es + ["<<<END>>>", ""];
    assert TOP_EVENTS[1..] == "Top events (signature, count, level):";
  }

  lemma RootCauseLines(u: Unicode, v: Wording, category: Category, summary: string, events: seq<TopEvent>)
    ensures RootCausePrompt(u, v, category, summary, events) == Lines(
              [v.rootCause, "<<<INPUT>>>", "Category: " + CategoryText(category),
               "Incident summary: " + Sanitize(u, summary), "", "Top events (signature, count, level):"]
              + EventLines(u, events) + ["<<<END>>>", ""])
  {
    hide Lines, Sanitize, Framed, Field, FormatTopEvents, EventLines, CategoryText;
    var s, es, c := Sanitize(u, summary), EventLines(u, events), CategoryText(category);
    EventsAreLines(u, events);
    var below := ["", TOP_EVENTS[1..]] + es;
    FieldBelow(TOP_EVENTS, es);
    FieldLine(SUMMARY, s, below);
    FieldLine(CATEGORY, c, [SUMMARY + s] + below);
    FramedLines(v.rootCause, [CATEGORY + c] + ([SUMMARY + s] + below));
    assert [v.rootCause, "<<<INPUT>>>"] + ([CATEGORY + c] + ([SUMMARY + s] + below)) + ["<<<END>>>", ""] ==
           [v.rootCause, "<<<INPUT>>>", "Category: " + c, "Incident summary: " + s, "", TOP_EVENTS[1..]] + es
           + ["<<<END>>>", ""];
    assert TOP_EVENTS[1..] == "Top events (signature, count, level):";
  }

  lemma RemediationLines(u: Unicode, v: Wording, summary: string, rootCause: string, retrieved: seq<Excerpt>)
    ensures RemediationPrompt(u, v, summary, rootCause, retrieved) == Lines(
              [v.remediation, "<<<INPUT>>>", "Incident summary: " + Sanitize(u, summary),
               "Probable root cause: " + Sanitize(u, rootCause), "", "Runbook excerpts:"]
              + RunbookLines(u, retrieved) + ["<<<END>>>", ""])
  {
    hide Lines, Sanitize, Framed, Field, RunbookBlock, RunbookLines;
    var s, c, rs := Sanitize(u, summary), Sanitize(u, rootCause), RunbookLines(u, retrieved);
    RunbooksAreLines(u, retrieved);
    var below := ["", EXCERPTS[1..]] + rs;
    FieldBelow(EXCERPTS, rs);
    FieldLine(PROBABLE_CAUSE, c, below);
    FieldLine(SUMMARY, s, [PROBABLE_CAUSE + c] + below);
    FramedLines(v.remediation, [SUMMARY + s] + ([PROBABLE_CAUSE + c] + below));
    assert [v.remediation, "<<<INPUT>>>"] + ([SUMMARY + s] + ([PROBABLE_CAUSE + c] + below)) + ["<<<END>>>", ""] ==
           [v.remediation, "<<<INPUT>>>", "Incident summary: " + s, "Probable root cause: " + c, "", EXCERPTS[1..]] + rs
           + ["<<<END>>>", ""];
    assert EXCERPTS[1..] == "Runbook excerpts:";
  }

  lemma ExecutiveLines(u: Unicode, v: Wording, category: Category, summary: string, rootCause: string,
                       actions: seq<string>)
    ensures ExecutivePrompt(u, v, category, summary, rootCause, actions) == Lines(
              [v.executive, "<<<INPUT>>>", "Category: " + CategoryText(category),
               "Incident summary: " + Sanitize(u, summary), "Root cause: " + Sanitize(u, rootCause),
               "Recommended actions:"] + ActionLines(actions) + ["<<<END>>>", ""])
  {
    hide Lines, Sanitize, Framed, Field, ActionsBlock, ActionLines, CategoryText;
    var s, c, r, al := Sanitize(u, summary), CategoryText(category), Sanitize(u, rootCause), ActionLines(actions);
    ActionsAreLines(actions);
    FieldLine(ACTIONS, "", al);
    FieldLine(ROOT_CAUSE, r, [ACTIONS + ""] + al);
    FieldLine(SUMMARY, s, [ROOT_CAUSE + r] + ([ACTIONS + ""] + al));
    FieldLine(CATEGORY, c, [SUMMARY + s] + ([ROOT_CAUSE + r] + ([ACTIONS + ""] + al)));
    FramedLines(v.executive, [CATEGORY + c] + ([SUMMARY + s] + ([ROOT_CAUSE + r] + ([ACTIONS + ""] + al))));
    assert [v.executive, "<<<INPUT>>>"] + ([CATEGORY + c] + ([SUMMARY + s] + ([ROOT_CAUSE + r] + ([ACTIONS + ""]
      + al))))
           + ["<<<END>>>", ""] ==
           [v.executive, "<<<INPUT>>>", "Category: " + c, "Incident summary: " + s, "Root cause: " + r,
             ACTIONS + ""] + al
           + ["<<<END>>>", ""];
    assert ACTIONS + "" == "Recommended actions:";
  }

  // ----- The incident in a sentence -----

  /** Runbooks are looked up by the category, the cause and the signatures. */
  lemma QueryReads(category: Category, cause: string, events: seq<TopEvent>, names: seq<string>)
    requires |events| == |names| && forall k :: 0 <= k < |names| ==> events[k].signature == names[k]
    ensures Query(category, cause, events) == Join([CategoryText(category), cause, Join(names, " ")], " ")
  {
    assert seq(|events|, i requires 0 <= i < |events| => events[i].signature) == names;
    var c, rest := CategoryText(category), Join(names, " ");
    hide CategoryText;
    assert [c, cause, rest][1..] == [cause, rest] && [cause, rest][1..] == [rest];
    assert Join([rest], " ") == rest && Join([cause, rest], " ") == cause + " " + rest;
    assert Join([c, cause, rest], " ") == c + " " + Join([cause, rest], " ");
    assert c + " " + (cause + " " + rest) == c + " " + cause + " " + rest;
  }

  /** The summary names the service, the severity, the number of anomalies and their signatures. */
  lemma SummaryReads(i: Incident, anomalies: seq<Anomaly>, names: seq<string>)
    requires |anomalies| == |names|
    requires forall k :: 0 <= k < |names| ==> Named(anomalies[k]) && anomalies[k].signature.value == names[k]
    ensures IncidentSummary(i, anomalies) ==
            "Degradation in " + i.service + " on service " + (if i.service == "" then "unknown" else i.service) +
            " (severity " +
            (match i.severity case Low => "LOW" case Medium => "MEDIUM" case High => "HIGH" case Severe => "CRITICAL") +
            "); " + IntText(|names|) + " anomalies with signatures: " +
            (if names == [] then "no distinct signatures" else Join(names, ", ")) + "."
  {
    hide IntText;
    NamedTexts(anomalies, names);
    if names != [] { JoinOfNames(names); }
  }

  lemma JoinOfNames(names: seq<string>)
    requires names != [] && names[0] != ""
    ensures Join(names, ", ") != ""
  {
  }
}
