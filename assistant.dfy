/**
 * The hint text the assistant loop feeds back to the model after each turn
 * (smartgpt/main.py, class Assistant): the previous plan as a bullet list, the
 * report of the action just executed, the notebook rendering, and the
 * turn-level bookkeeping of `process_action` and `make_hints`.
 */
module AssistantLoop {
  import opened Wrappers
  import opened PyStr
  import ResponseParser

  /** A notebook value as the loop tests it: `None`, a string, or anything else (kept with its `str`). */
  datatype NotebookValue = Null | Str(s: string) | Other(rendered: string)

  /**
   * The metadata fields the loop reads after a turn: the plan, the current task id
   * and the notebook (a dict, kept in its insertion order; `None` when absent).
   */
  datatype IterationMetadata = IterationMetadata(
    plan: seq<string>,
    currentTaskId: string,
    notebook: Option<seq<(string, NotebookValue)>>)

  // ---------------------------------------------------------------------------
  // The previous plan
  // ---------------------------------------------------------------------------

  const PlanHeader: string := "\n\n## The previous plan:\n"
  const BulletPrefix: string := "  - "

  /** One "  - task" bullet per plan entry. */
  function Bullets(plan: seq<string>): (r: seq<string>)
    ensures |r| == |plan|
    ensures forall i :: 0 <= i < |plan| ==> r[i] == BulletPrefix + plan[i]
  {
    if plan == [] then [] else [BulletPrefix + plan[0]] + Bullets(plan[1..])
  }

  /** `get_plan_hints`: nothing for an empty plan, else the header and the bullets joined by newlines. */
  function PlanHints(m: IterationMetadata): string
  {
    if m.plan == [] then "" else PlanHeader + Join(Bullets(m.plan), "\n") + "\n"
  }

  /** The same bullets written as whole lines, each ended by its own newline. */
  function BulletLines(plan: seq<string>): string
  {
    if plan == [] then "" else BulletPrefix + plan[0] + "\n" + BulletLines(plan[1..])
  }

  /** The joined bullets plus the trailing newline are exactly one line per task. */
  lemma {:induction false} JoinedBulletsAreLines(plan: seq<string>)
    requires plan != []
    ensures Join(Bullets(plan), "\n") + "\n" == BulletLines(plan)
  {
    var b := Bullets(plan);
    if |plan| == 1 {
      assert plan[1..] == [];
    } else {
      assert b[1..] == Bullets(plan[1..]);
      JoinedBulletsAreLines(plan[1..]);
      calc {
        Join(b, "\n") + "\n";
        b[0] + "\n" + Join(b[1..], "\n") + "\n";
        b[0] + "\n" + (Join(Bullets(plan[1..]), "\n") + "\n");
        b[0] + "\n" + BulletLines(plan[1..]);
      }
    }
  }

  /** The plan hints are the header followed by one bullet line per entry, in plan order. */
  lemma PlanHintsAreBulletLines(m: IterationMetadata)
    requires m.plan != []
    ensures PlanHints(m) == PlanHeader + BulletLines(m.plan)
  {
    JoinedBulletsAreLines(m.plan);
  }

  /** An empty plan contributes no text at all. */
  lemma EmptyPlanNoHints(m: IterationMetadata)
    requires m.plan == []
    ensures PlanHints(m) == ""
  {
  }

  /** A text occurring in `s` also occurs in any text `s` starts with or ends with. */
  lemma OccursInConcat(a: string, b: string, pat: string, j: nat)
    ensures OccursAt(a, pat, j) ==> OccursAt(a + b, pat, j)
    ensures OccursAt(b, pat, j) ==> OccursAt(a + b, pat, |a| + j)
  {
    if OccursAt(a, pat, j) {
      assert (a + b)[j..j + |pat|] == a[j..j + |pat|];
    }
    if OccursAt(b, pat, j) {
      assert (a + b)[|a| + j..|a| + j + |pat|] == b[j..j + |pat|];
    }
  }

  /** Every plan entry appears as its own bullet line. */
  lemma {:induction false} BulletLineListed(plan: seq<string>, i: nat)
    requires i < |plan|
    ensures exists j :: OccursAt(BulletLines(plan), BulletPrefix + plan[i] + "\n", j)
  {
    var line := BulletPrefix + plan[0] + "\n";
    var rest := BulletLines(plan[1..]);
    assert BulletLines(plan) == line + rest;
    if i == 0 {
      OccursInConcat(line, rest, line, 0);
      assert OccursAt(line, line, 0);
    } else {
      BulletLineListed(plan[1..], i - 1);
      assert plan[1..][i - 1] == plan[i];
      var j :| OccursAt(rest, BulletPrefix + plan[i] + "\n", j);
      OccursInConcat(line, rest, BulletPrefix + plan[i] + "\n", j);
    }
  }

  // ---------------------------------------------------------------------------
  // The action report
  // ---------------------------------------------------------------------------

  const ActionHeader: string := "## I executed the action you required, bellow are the results :"
  const ActionEnd: string := "##end of action results\n"
  const TaskIdLabel: string := "- Task ID: "
  const ResultsLabel: string := "- Action Results:\n"
  const ActionLabel: string := "- Action: ***"
  const ActionLabelEnd: string := "***"

  /** `get_action_hints`: five lines joined by newlines. */
  function ActionHints(m: IterationMetadata, shortString: string, output: string): string
  {
    Join([ActionHeader,
          TaskIdLabel + m.currentTaskId,
          ActionLabel + shortString + ActionLabelEnd,
          ResultsLabel + output,
          ActionEnd], "\n")
  }

  /** Joining five parts puts the separator between each neighbouring pair. */
  lemma JoinFive(a: string, b: string, c: string, d: string, e: string, sep: string)
    ensures Join([a, b, c, d, e], sep) == a + sep + b + sep + c + sep + d + sep + e
  {
    assert [d, e][1..] == [e];
    assert Join([d, e], sep) == d + sep + e;
    assert [c, d, e][1..] == [d, e];
    assert Join([c, d, e], sep) == c + sep + (d + sep + e);
    assert [b, c, d, e][1..] == [c, d, e];
    assert Join([b, c, d, e], sep) == b + sep + (c + sep + (d + sep + e));
    assert [a, b, c, d, e][1..] == [b, c, d, e];
  }

  /** An occurrence inside an occurrence. */
  lemma OccursWithin(s: string, t: string, pat: string, i: nat, j: nat)
    requires OccursAt(s, t, i) && OccursAt(t, pat, j)
    ensures OccursAt(s, pat, i + j)
  {
    forall k | 0 <= k < |pat|
      ensures s[i + j + k] == pat[k]
    {
      assert s[i..i + |t|][j + k] == t[j + k];
      assert t[j..j + |pat|][k] == pat[k];
    }
  }

  /** Where part `i` of a joined list starts: the parts before it, each followed by `sep`. */
  function PartOffset(parts: seq<string>, sep: string, i: nat): nat
    requires i < |parts|
  {
    if i == 0 then 0 else |parts[0]| + |sep| + PartOffset(parts[1..], sep, i - 1)
  }

  /** Every part of a joined list occurs in the joined text at its offset. */
  lemma {:induction false} JoinPartAt(parts: seq<string>, sep: string, i: nat)
    requires i < |parts|
    ensures OccursAt(Join(parts, sep), parts[i], PartOffset(parts, sep, i))
  {
    if |parts| == 1 {
      assert parts[0][0..|parts[0]|] == parts[0];
    } else {
      var rest := Join(parts[1..], sep);
      if i == 0 {
        assert Join(parts, sep) == parts[0] + (sep + rest);
        assert parts[0][0..|parts[0]|] == parts[0];
        OccursInConcat(parts[0], sep + rest, parts[0], 0);
      } else {
        assert Join(parts, sep) == (parts[0] + sep) + rest;
        JoinPartAt(parts[1..], sep, i - 1);
        assert parts[1..][i - 1] == parts[i];
        OccursInConcat(parts[0] + sep, rest, parts[i], PartOffset(parts[1..], sep, i - 1));
      }
    }
  }

  /** A joined list ends with its last part. */
  lemma {:induction false} JoinEndsWithLast(parts: seq<string>, sep: string)
    requires parts != []
    ensures var h, e := Join(parts, sep), parts[|parts| - 1];
      |h| >= |e| && h[|h| - |e|..] == e
  {
    if |parts| > 1 {
      var rest := Join(parts[1..], sep);
      JoinEndsWithLast(parts[1..], sep);
      assert parts[1..][|parts| - 2] == parts[|parts| - 1];
      assert Join(parts, sep) == (parts[0] + sep) + rest;
    }
  }

  /**
   * Where the parts of a five-part report joined with `sep` sit, for any parts and
   * separator: the parts in order with one separator between neighbours, the first at the
   * start, the second and fourth at their offsets, the output right after the results tag
   * and the last part at the end.
   */
  lemma JoinedReport(a: string, b: string, c: string, tag: string, output: string, e: string, sep: string)
    ensures var h := Join([a, b, c, tag + output, e], sep);
            h == a + sep + b + sep + c + sep + (tag + output) + sep + e
            && StartsWith(h, a)
            && OccursAt(h, b, |a| + |sep|)
            && OccursAt(h, tag + output, |a| + |b| + |c| + 3 * |sep|)
            && OccursAt(h, output, |a| + |b| + |c| + 3 * |sep| + |tag|)
            && |h| >= |e| && h[|h| - |e|..] == e
  {
    JoinFive(a, b, c, tag + output, e, sep);
    ReportEnds(a, b, c, tag + output, e, sep);
    ReportOutputAt([a, b, c, tag + output, e], tag, output, sep);
  }

  /** The first part opens a five-part join, the second follows it and the last closes it. */
  lemma ReportEnds(a: string, b: string, c: string, d: string, e: string, sep: string)
    ensures var h := Join([a, b, c, d, e], sep);
            StartsWith(h, a) && OccursAt(h, b, |a| + |sep|) && |h| >= |e| && h[|h| - |e|..] == e
  {
    var parts := [a, b, c, d, e];
    JoinPartAt(parts, sep, 0);
    JoinPartAt(parts, sep, 1);
    assert parts[1..][0] == b;
    JoinEndsWithLast(parts, sep);
  }

  /** In a five-part join, a fourth part `tag + output` and the output inside it sit at their offsets. */
  lemma ReportOutputAt(parts: seq<string>, tag: string, output: string, sep: string)
    requires |parts| == 5 && parts[3] == tag + output
    ensures OccursAt(Join(parts, sep), tag + output, |parts[0]| + |parts[1]| + |parts[2]| + 3 * |sep|)
    ensures OccursAt(Join(parts, sep), output, |parts[0]| + |parts[1]| + |parts[2]| + 3 * |sep| + |tag|)
  {
    var k := |parts[0]| + |parts[1]| + |parts[2]| + 3 * |sep|;
    JoinPartAt(parts, sep, 3);
    FourthPartOffset(parts, sep);
    assert OccursAt(tag + output, output, |tag|) by {
      assert (tag + output)[|tag|..|tag| + |output|] == output;
    }
    OccursWithin(Join(parts, sep), tag + output, output, k, |tag|);
  }

  /** The fourth of five parts starts after the first three, each followed by `sep`. */
  lemma FourthPartOffset(parts: seq<string>, sep: string)
    requires |parts| == 5
    ensures PartOffset(parts, sep, 3) == |parts[0]| + |parts[1]| + |parts[2]| + 3 * |sep|
  {
    assert parts[1..][1..][1..][0] == parts[3];
    assert PartOffset(parts[1..][1..], sep, 1) == |parts[2]| + |sep|;
  }

  /**
   * The report is the header, the task id line, the action line, the results and the end
   * marker, in that order, separated by single newlines.
   */
  lemma ActionHintsLayout(m: IterationMetadata, shortString: string, output: string)
    ensures ActionHints(m, shortString, output)
      == ActionHeader + "\n" + (TaskIdLabel + m.currentTaskId) + "\n" + (ActionLabel + shortString + ActionLabelEnd)
         + "\n" + (ResultsLabel + output) + "\n" + ActionEnd
  {
    JoinFive(ActionHeader, TaskIdLabel + m.currentTaskId, ActionLabel + shortString + ActionLabelEnd,
             ResultsLabel + output, ActionEnd, "\n");
  }

  /**
   * So the report opens with the header, carries the task id line and the action output
   * verbatim, the output right after the results label, and closes with the end marker.
   */
  lemma ActionHintsPlaces(m: IterationMetadata, shortString: string, output: string)
    ensures StartsWith(ActionHints(m, shortString, output), ActionHeader)
    ensures exists k :: OccursAt(ActionHints(m, shortString, output), TaskIdLabel + m.currentTaskId, k)
    ensures exists k :: OccursAt(ActionHints(m, shortString, output), ResultsLabel + output, k)
    ensures exists k :: OccursAt(ActionHints(m, shortString, output), output, k)
    ensures var h := ActionHints(m, shortString, output);
            |h| >= |ActionEnd| && h[|h| - |ActionEnd|..] == ActionEnd
  {
    var id, action := TaskIdLabel + m.currentTaskId, ActionLabel + shortString + ActionLabelEnd;
    JoinedReport(ActionHeader, id, action, ResultsLabel, output, ActionEnd, "\n");
  }

  /** The exception Python raises when a record has no field of the given name. */
  datatype AttributeError = AttributeError(name: string)

  /** Reading a field of the parser's `Metadata` record by name: it declares `reason`, `plan` and `speak` only. */
  function MetadataField(m: ResponseParser.Metadata, name: string): Option<ResponseParser.Json>
  {
    if name == "reason" then Some(m.reason)
    else if name == "plan" then Some(m.plan)
    else if name == "speak" then Some(if m.speak.Some? then m.speak.value else ResponseParser.JNull)
    else None
  }

  /**
   * `get_action_hints` as written, applied to the record `parse` returns: its second line
   * reads `metadata.current_task_id` (rendered by `str`), a field that record lacks.
   */
  function ActionHintsAsWritten(m: ResponseParser.Metadata, str: ResponseParser.Json -> string,
                                shortString: string, output: string): Result<string, AttributeError>
  {
    match MetadataField(m, "current_task_id")
    case None => Failure(AttributeError("current_task_id"))
    case Some(id) =>
      Success(Join([ActionHeader, TaskIdLabel + str(id), ActionLabel + shortString + ActionLabelEnd,
                    ResultsLabel + output, ActionEnd], "\n"))
  }

  /**
   * Whatever reply `parse` accepts, the as-written report over its metadata raises
   * `AttributeError`: so `make_hints` raises for every parsed action that is run.
   */
  lemma ParsedReplyBreaksActionHints(text: string, decode: ResponseParser.JsonDecoder,
                                     str: ResponseParser.Json -> string, shortString: string, output: string)
    ensures ResponseParser.Parse(text, decode).Success? ==>
      ActionHintsAsWritten(ResponseParser.Parse(text, decode).value.1, str, shortString, output)
        == Failure(AttributeError("current_task_id"))
  {
    if ResponseParser.Parse(text, decode).Success? {
      var m := ResponseParser.Parse(text, decode).value.1;
      assert MetadataField(m, "current_task_id").None? by {
        assert "current_task_id" != "reason" && "current_task_id" != "plan" && "current_task_id" != "speak";
      }
    }
  }

  // ---------------------------------------------------------------------------
  // The notebook
  // ---------------------------------------------------------------------------

  const ReviewKey: string := "review_of_previous_action_result"

  /** `extract_notebook` lists an entry when its value is neither `None` nor "" and it is not the review field. */
  predicate Kept(e: (string, NotebookValue)) {
    e.1 != Null && e.1 != Str("") && e.0 != ReviewKey
  }

  /** The `str` of a notebook value inside an f-string. */
  function Render(v: NotebookValue): string {
    match v
    case Null => "None"
    case Str(s) => s
    case Other(r) => r
  }

  /** One listed entry: two spaces, the quoted key, a colon, the value, a comma. */
  function EntryLine(e: (string, NotebookValue)): string {
    "  \"" + e.0 + "\": " + Render(e.1) + ",\n"
  }

  /** The lines the loop of `extract_notebook` has appended after visiting `items`. */
  function EntriesText(items: seq<(string, NotebookValue)>): string
  {
    if items == [] then ""
    else EntriesText(items[..|items| - 1])
         + (if Kept(items[|items| - 1]) then EntryLine(items[|items| - 1]) else "")
  }

  /** The whole rendering: braces around the listed entries; an absent notebook lists none. */
  function NotebookText(m: IterationMetadata): string
  {
    "{\n" + (if m.notebook.Some? then EntriesText(m.notebook.value) else "") + "}\n"
  }

  /** `extract_notebook`. */
  method ExtractNotebook(m: IterationMetadata) returns (result: string)
    ensures result == NotebookText(m)
  {
    result := "{\n";
    if m.notebook.Some? {
      var items := m.notebook.value;
      for i := 0 to |items|
        invariant result == "{\n" + EntriesText(items[..i])
      {
        assert items[..i + 1][..i] == items[..i];
        var (k, v) := items[i];
        if v != Null && v != Str("") {
          if k == ReviewKey {
            continue;
          }
          result := result + EntryLine(items[i]);
        }
      }
      assert items[..|items|] == items;
    }
    result := result + "}\n";
  }

  /** The entries the notebook lists, in notebook order. */
  function KeptEntries(items: seq<(string, NotebookValue)>): seq<(string, NotebookValue)>
  {
    if items == [] then []
    else (if Kept(items[0]) then [items[0]] else []) + KeptEntries(items[1..])
  }

  /** The listed entries are exactly the notebook's entries that pass the filter. */
  lemma {:induction false} KeptEntriesMembers(items: seq<(string, NotebookValue)>, e: (string, NotebookValue))
    ensures e in KeptEntries(items) <==> e in items && Kept(e)
  {
    if items != [] {
      KeptEntriesMembers(items[1..], e);
      assert items == [items[0]] + items[1..];
    }
  }

  /** The lines of a list of entries. */
  function LinesOf(entries: seq<(string, NotebookValue)>): string
  {
    if entries == [] then "" else EntryLine(entries[0]) + LinesOf(entries[1..])
  }

  lemma {:induction false} KeptEntriesAppend(items: seq<(string, NotebookValue)>, e: (string, NotebookValue))
    ensures KeptEntries(items + [e]) == KeptEntries(items) + (if Kept(e) then [e] else [])
  {
    if items == [] {
      assert [e][1..] == [];
    } else {
      var rest := items[1..];
      assert (items + [e])[0] == items[0];
      assert (items + [e])[1..] == rest + [e];
      KeptEntriesAppend(rest, e);
      var head := if Kept(items[0]) then [items[0]] else [];
      assert KeptEntries(items + [e]) == head + KeptEntries(rest + [e]);
      assert KeptEntries(items) == head + KeptEntries(rest);
    }
  }

  lemma {:induction false} LinesOfAppend(a: seq<(string, NotebookValue)>, b: seq<(string, NotebookValue)>)
    ensures LinesOf(a + b) == LinesOf(a) + LinesOf(b)
  {
    if a == [] {
      assert a + b == b;
    } else {
      assert (a + b)[1..] == a[1..] + b;
      LinesOfAppend(a[1..], b);
    }
  }

  /** The loop's text is one line per kept entry, in notebook order, and nothing else. */
  lemma {:induction false} EntriesTextListsKeptEntries(items: seq<(string, NotebookValue)>)
    ensures EntriesText(items) == LinesOf(KeptEntries(items))
  {
    if items != [] {
      var init := items[..|items| - 1];
      var last := items[|items| - 1];
      assert items == init + [last];
      EntriesTextListsKeptEntries(init);
      KeptEntriesAppend(init, last);
      LinesOfAppend(KeptEntries(init), if Kept(last) then [last] else []);
      if Kept(last) {
        assert LinesOf([last]) == EntryLine(last) + LinesOf([last][1..]);
      }
    }
  }

  /** An absent or empty notebook renders as the two braces alone. */
  lemma EmptyNotebookText(m: IterationMetadata)
    requires m.notebook.None? || m.notebook == Some([])
    ensures NotebookText(m) == "{\n}\n"
  {
  }

  /** The notebook rendering, stated against the reference filter. */
  lemma NotebookListsKeptEntries(m: IterationMetadata)
    ensures NotebookText(m)
         == "{\n" + LinesOf(if m.notebook.Some? then KeptEntries(m.notebook.value) else []) + "}\n"
  {
    if m.notebook.Some? {
      EntriesTextListsKeptEntries(m.notebook.value);
    }
  }

  // ---------------------------------------------------------------------------
  // The hints and the turn
  // ---------------------------------------------------------------------------

  /** `make_hints`: the plan hints, then, when there was an action, its report; nothing without metadata. */
  function Hints(shortString: ResponseParser.Action -> string, action: Option<ResponseParser.Action>,
                 metadata: Option<IterationMetadata>, output: string): string
  {
    if metadata.None? then ""
    else if action.None? then PlanHints(metadata.value)
    else PlanHints(metadata.value) + ActionHints(metadata.value, shortString(action.value), output)
  }

  /** With metadata and an action, the hints carry the action output verbatim after the plan. */
  lemma HintsCarryActionOutput(shortString: ResponseParser.Action -> string, action: Option<ResponseParser.Action>,
                               metadata: Option<IterationMetadata>, output: string)
    requires metadata.Some? && action.Some?
    ensures exists j :: OccursAt(Hints(shortString, action, metadata, output), output, j)
  {
    var m := metadata.value;
    var s := shortString(action.value);
    ActionHintsPlaces(m, s, output);
    var k :| OccursAt(ActionHints(m, s, output), output, k);
    OccursInConcat(PlanHints(m), ActionHints(m, s, output), output, k);
    assert OccursAt(Hints(shortString, action, metadata, output), output, |PlanHints(m)| + k);
  }

  /** With metadata, every plan entry appears in the hints as its own bullet line. */
  lemma HintsListPlanEntries(shortString: ResponseParser.Action -> string, action: Option<ResponseParser.Action>,
                             metadata: Option<IterationMetadata>, output: string, i: nat)
    requires metadata.Some? && i < |metadata.value.plan|
    ensures exists j :: OccursAt(Hints(shortString, action, metadata, output),
                                 BulletPrefix + metadata.value.plan[i] + "\n", j)
  {
    var m := metadata.value;
    var line := BulletPrefix + m.plan[i] + "\n";
    BulletLineListed(m.plan, i);
    var j :| OccursAt(BulletLines(m.plan), line, j);
    var k := |PlanHeader| + j;
    assert OccursAt(PlanHints(m), line, k) by {
      PlanHintsAreBulletLines(m);
      OccursInConcat(PlanHeader, BulletLines(m.plan), line, j);
    }
    if action.Some? {
      var report := ActionHints(m, shortString(action.value), output);
      assert Hints(shortString, action, metadata, output) == PlanHints(m) + report;
      OccursInConcat(PlanHints(m), report, line, k);
    } else {
      assert Hints(shortString, action, metadata, output) == PlanHints(m);
    }
  }

  /** Without metadata the hints are empty, whatever the action. */
  lemma NoMetadataNoHints(shortString: ResponseParser.Action -> string, action: Option<ResponseParser.Action>,
                          output: string)
    ensures Hints(shortString, action, None, output) == ""
  {
  }

  /** What `input_with_timeout` gives back: the typed line, or the `InputTimeoutError` its alarm raises. */
  datatype PromptReply = Typed(text: string) | TimedOut

  /** The typed answer that stops the loop in interactive mode: neither "y", "Y" nor empty. */
  predicate Declined(answer: string) {
    answer != "y" && answer != "Y" && answer != ""
  }

  /** How a call of `process_action` ends: it returns True or False, or the prompt's time-out escapes it. */
  datatype TurnEnd = Continue | Stop | PromptTimeout

  /** The loop's state between turns: the notebook text and the hints for the next prompt. */
  class Assistant {
    const shortString: ResponseParser.Action -> string
    var notebook: string
    var tasksDesc: string

    /** `__init__`: both texts start empty. */
    constructor (shortString: ResponseParser.Action -> string)
      ensures this.shortString == shortString
      ensures notebook == "" && tasksDesc == ""
    {
      this.shortString := shortString;
      notebook := "";
      tasksDesc := "";
    }

    /** `make_hints`: replaces the hints; the notebook is left alone. */
    method MakeHints(action: Option<ResponseParser.Action>, metadata: Option<IterationMetadata>, output: string)
      modifies this
      ensures tasksDesc == Hints(shortString, action, metadata, output)
      ensures notebook == old(notebook)
    {
      var hints := "";
      if metadata.Some? {
        var plan := PlanHints(metadata.value);
        hints := hints + plan;
        assert hints == plan;
        if action.Some? {
          hints := hints + ActionHints(metadata.value, shortString(action.value), output);
        }
      }
      tasksDesc := hints;
    }

    /**
     * `process_action`: a shutdown action, or a declined prompt in interactive mode,
     * ends the loop with the state untouched; a prompt that times out raises before
     * the action runs, leaving the state untouched too. Otherwise the action runs (its
     * output is `runOutput`) and the hints are rebuilt. The failure message written for
     * a missing action is overwritten by `make_hints` in the same call.
     */
    method ProcessAction(action: Option<ResponseParser.Action>, metadata: Option<IterationMetadata>,
                         continuous: bool, reply: PromptReply, runOutput: string, response: string)
      returns (end: TurnEnd)
      modifies this
      ensures end == PromptTimeout <==> !(action.Some? && action.value.Shutdown?) && !continuous && reply.TimedOut?
      ensures end == Stop <==> (action.Some? && action.value.Shutdown?)
                               || (!continuous && reply.Typed? && Declined(reply.text))
      ensures end != Continue ==> tasksDesc == old(tasksDesc)
      ensures end == Continue ==> tasksDesc == Hints(shortString, action, metadata, if action.Some? then runOutput else "")
      ensures notebook == old(notebook)
    {
      var output := "";
      if action.Some? && action.value.Shutdown? {
        return Stop;
      }
      if !continuous {
        match reply
        case TimedOut =>
          return PromptTimeout;
        case Typed(text) =>
          if Declined(text) {
            return Stop;
          }
      }
      if action.Some? {
        output := runOutput;
      } else {
        tasksDesc := "failed to parse response, is it valid json or missing fields? please review: " + response;
      }
      MakeHints(action, metadata, output);
      return Continue;
    }
  }

  /** A turn without an action leaves only the plan hints (or nothing), never the failure message. */
  lemma MissingActionKeepsPlanHints(shortString: ResponseParser.Action -> string,
                                    metadata: Option<IterationMetadata>, output: string)
    ensures Hints(shortString, None, metadata, output)
         == (if metadata.Some? then PlanHints(metadata.value) else "")
  {
  }
}
