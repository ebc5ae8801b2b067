/**
 * The response decoder of smartgpt/response_parser.py: it turns the text of one model
 * reply into an action and a metadata record. The first line picks the action through an
 * ordered table of prefixes; some actions take a payload from the following lines; what is
 * left over is decoded as a JSON metadata block.
 */
module ResponseParser {
  import opened Wrappers
  import opened PyStr

  const TellUserPrefix := "TELL_USER:"
  const ReadFilePrefix := "READ_FILE:"
  const WriteFilePrefix := "WRITE_FILE:"
  const AppendFilePrefix := "APPEND_FILE:"
  const SearchOnlinePrefix := "SEARCH_ONLINE:"
  const ExtractInfoPrefix := "EXTRACT_INFO:"
  /** No colon: the reason of "SHUTDOWN: done" keeps its ": ". */
  const ShutdownPrefix := "SHUTDOWN"
  const FindAndReplacePrefix := "FIND_AND_REPLACE:"
  const ListDirectoryPrefix := "LIST_DIRECTORY:"
  const CreateDirectoryPrefix := "CREATE_DIRECTORY:"
  const MemoryGetPrefix := "MEMORY_GET:"
  const MemorySetPrefix := "MEMORY_SET:"
  /** The value the module-level name holds when the table is built: it ends in a space. */
  const RunPythonPrefix := "RUN_PYTHON: "
  const Fence := "```"

  /** A decoded JSON value; numbers are kept as their literal text. */
  datatype Json =
    | JNull
    | JBool(b: bool)
    | JNumber(literal: string)
    | JString(s: string)
    | JArray(items: seq<Json>)
    | JObject(fields: map<string, Json>)

  /** `json.loads`: a partial function from text to a JSON value (None: it raises). */
  type JsonDecoder = string -> Option<Json>

  /** The `Metadata` record; `speak` is None when the key is absent or null. */
  datatype Metadata = Metadata(reason: Json, plan: Json, speak: Option<Json>)

  /** `Metadata(reason="", plan=[])`. */
  const DefaultMetadata := Metadata(JString(""), JArray([]), None)

  /** One constructor per row of the action table, with the fields the parser fills in. */
  datatype Action =
    | TellUser(message: string)
    | ReadFile(path: string)
    | WriteFile(path: string, content: string)
    | AppendFile(path: string, content: string)
    | RunPython(path: string, timeout: nat)
    | SearchOnline(query: string)
    | ExtractInfo(url: string, instruction: string)
    | FindAndReplace(path: string, find: string, replace: string)
    | ListDirectory(path: string)
    | Shutdown(reason: string)
    | CreateDirectory(path: string)
    | MemoryGet(key: string)
    | MemorySet(key: string, value: string)

  /** The exceptions `parse` lets escape, one per place the source raises. */
  datatype ParseError =
    | EmptyInput
    | UnknownAction(line: string)
    | InvalidRunPython(line: string)
    | MissingComma(text: string)
    | MissingPathSeparator(line: string)
    | MissingFence
    | MissingMetadata
    | BadMetadata(text: string)

  /** An action and the lines left over for the metadata block. */
  type Parsed = (Action, seq<string>)

  // ---------------------------------------------------------------- the metadata block

  /** `parse_metadata`: decode the joined, stripped lines; `reason` and `plan` must exist. */
  function ParseMetadata(lines: seq<string>, decode: JsonDecoder): (r: Result<Metadata, ParseError>)
    ensures lines == [] ==> r == Failure(MissingMetadata)
    ensures r.Success? <==> lines != [] && match decode(Strip(Join(lines, "\n")))
      case Some(JObject(fields)) => "reason" in fields && "plan" in fields
      case _ => false
    ensures r.Success? ==> exists fields ::
      decode(Strip(Join(lines, "\n"))) == Some(JObject(fields))
      && r.value.reason == fields["reason"] && r.value.plan == fields["plan"]
      && (r.value.speak.Some? <==> "speak" in fields && fields["speak"] != JNull)
      && (r.value.speak.Some? ==> r.value.speak.value == fields["speak"])
    ensures r.Failure? && lines != [] ==> r.error == BadMetadata(Strip(Join(lines, "\n")))
  {
    if lines == [] then Failure(MissingMetadata)
    else
      var text := Strip(Join(lines, "\n"));
      match decode(text)
      case Some(JObject(fields)) =>
        if "reason" in fields && "plan" in fields then
          var speak := if "speak" in fields && fields["speak"] != JNull then Some(fields["speak"]) else None;
          Success(Metadata(fields["reason"], fields["plan"], speak))
        else Failure(BadMetadata(text))
      case _ => Failure(BadMetadata(text))
  }

  /** The line is a fence opener or closer as the backward scan sees it. */
  predicate IsFenceLine(line: string) {
    StartsWith(line, Fence)
  }

  /** The last index in (contentStart, hi) holding a fence line, if any. */
  function LastFenceBefore(lines: seq<string>, contentStart: nat, hi: nat): (r: Option<nat>)
    requires hi <= |lines|
    ensures r.Some? ==> contentStart < r.value < hi && IsFenceLine(lines[r.value])
    ensures r.Some? ==> forall j :: r.value < j < hi ==> !IsFenceLine(lines[j])
    ensures r.None? ==> forall j :: contentStart < j < hi ==> !IsFenceLine(lines[j])
  {
    if hi <= contentStart + 1 then None
    else if IsFenceLine(lines[hi - 1]) then Some(hi - 1)
    else LastFenceBefore(lines, contentStart, hi - 1)
  }

  /**
   * What `find_metadata_lines` returns: the payload lines from `contentStart` up to the last
   * fence after it, and the lines after that fence. Without such a fence the payload stops
   * one line short of the end and there is no metadata.
   */
  function MetadataSplit(lines: seq<string>, contentStart: nat): (r: (seq<string>, seq<string>))
    ensures match LastFenceBefore(lines, contentStart, |lines|)
      case Some(i) =>
        r.0 + [lines[i]] + r.1 == lines[contentStart..]
        && forall k :: 0 <= k < |r.1| ==> !IsFenceLine(r.1[k])
      case None =>
        r.1 == [] && r.0 == Slice(lines, contentStart, |lines| - 1)
  {
    var endOfContent := match LastFenceBefore(lines, contentStart, |lines|)
      case Some(i) => i
      case None => |lines| - 1;
    var content := Slice(lines, contentStart, endOfContent);
    var metadata := Slice(lines, endOfContent + 1, |lines|);
    if LastFenceBefore(lines, contentStart, |lines|).Some? then
      assert lines[contentStart..] == content + [lines[endOfContent]] + metadata;
      assert forall k :: 0 <= k < |metadata| ==> metadata[k] == lines[endOfContent + 1 + k];
      (content, metadata)
    else
      (content, metadata)
  }

  /** `find_metadata_lines`: the backward `for` loop with its early `break`. */
  method FindMetadataLines(lines: seq<string>, contentStart: nat)
    returns (content: seq<string>, metadata: seq<string>)
    ensures (content, metadata) == MetadataSplit(lines, contentStart)
  {
    var endOfContent := |lines| - 1;
    var i := |lines| - 1;
    while i > contentStart
      invariant -1 <= i < |lines|
      invariant LastFenceBefore(lines, contentStart, |lines|) == LastFenceBefore(lines, contentStart, i + 1)
      decreases i
    {
      if StartsWith(lines[i], Fence) {
        endOfContent := i;
        break;
      }
      i := i - 1;
    }
    content := Slice(lines, contentStart, endOfContent);
    metadata := Slice(lines, endOfContent + 1, |lines|);
  }

  // ---------------------------------------------------------------- the action parsers

  /** `parse_memory_set_action`: key and value split at the first comma, both stripped. */
  function ParseMemorySet(line: string): (r: Result<Parsed, ParseError>)
    ensures var rest := Strip(Drop(line, |MemorySetPrefix|));
      && (r.Success? <==> ',' in rest)
      && (r.Failure? ==> r.error == MissingComma(rest))
      && (r.Success? ==>
            var (key, value) := SplitAtFirst(rest, ',').value;
            r.value == (MemorySet(Strip(key), Strip(value)), []))
  {
    var rest := Strip(Drop(line, |MemorySetPrefix|));
    match SplitAtFirst(rest, ',')
    case None => Failure(MissingComma(rest))
    case Some((key, value)) => Success((MemorySet(Strip(key), Strip(value)), []))
  }

  /** `parse_extract_info_action`: url and instruction split at the first comma, unstripped. */
  function ParseExtractInfo(line: string): (r: Result<Parsed, ParseError>)
    ensures var rest := Strip(Drop(line, |ExtractInfoPrefix|));
      && (r.Success? <==> ',' in rest)
      && (r.Failure? ==> r.error == MissingComma(rest))
      && (r.Success? ==>
            r.value.1 == [] && r.value.0.ExtractInfo?
            && rest == r.value.0.url + "," + r.value.0.instruction && ',' !in r.value.0.url)
  {
    var rest := Strip(Drop(line, |ExtractInfoPrefix|));
    match SplitAtFirst(rest, ',')
    case None => Failure(MissingComma(rest))
    case Some((url, instruction)) => Success((ExtractInfo(url, instruction), []))
  }

  /** `parse_write_file_action` and `parse_append_file_action`: a fenced payload from line 2. */
  function ParseFilePayload(line: string, prefix: string, lines: seq<string>): (string, string, seq<string>)
  {
    var path := Strip(Drop(line, |prefix|));
    var split := MetadataSplit(lines, 2);
    (path, Join(split.0, "\n"), split.1)
  }

  /** The first four lines exactly equal to the fence, found by four `lines.index` calls. */
  function FourFences(lines: seq<string>): (r: Option<(nat, nat, nat, nat)>)
    ensures r.Some? ==> var (a, b, c, d) := r.value;
      && a < b < c < d < |lines|
      && lines[a] == Fence && lines[b] == Fence && lines[c] == Fence && lines[d] == Fence
      && forall k :: 0 <= k < d && lines[k] == Fence ==> k == a || k == b || k == c
  {
    match IndexOf(lines, Fence, 0)
    case None => None
    case Some(a) =>
      match IndexOf(lines, Fence, a + 1)
      case None => None
      case Some(b) =>
        match IndexOf(lines, Fence, b + 1)
        case None => None
        case Some(c) =>
          match IndexOf(lines, Fence, c + 1)
          case None => None
          case Some(d) => Some((a, b, c, d))
  }

  /** The four searches all succeed exactly when at least four lines are the fence. */
  lemma FourFencesCount(lines: seq<string>)
    ensures FourFences(lines).Some? <==> Count(lines, Fence) >= 4
  {
    FencesFrom(lines, 0, 4);
    assert lines[0..] == lines;
  }

  /** `n` chained `lines.index(fence, ...)` calls from `from` all succeed iff `n` fences remain. */
  lemma {:induction false} FencesFrom(lines: seq<string>, from: nat, n: nat)
    requires from <= |lines|
    ensures Chain(lines, from, n) <==> Count(lines[from..], Fence) >= n
    decreases n
  {
    IndexOfCount(lines, Fence, from);
    if n > 0 {
      match IndexOf(lines, Fence, from)
      case None =>
      case Some(i) => FencesFrom(lines, i + 1, n - 1);
    }
  }

  /** `n` chained `lines.index(fence, previous + 1)` calls starting at `from` all succeed. */
  predicate Chain(lines: seq<string>, from: nat, n: nat)
    decreases n
  {
    n == 0 || match IndexOf(lines, Fence, from)
      case None => false
      case Some(i) => Chain(lines, i + 1, n - 1)
  }

  /** How many elements of `xs` equal `x`. */
  function Count<T(==)>(xs: seq<T>, x: T): nat
  {
    if xs == [] then 0 else (if xs[0] == x then 1 else 0) + Count(xs[1..], x)
  }

  lemma {:induction false} IndexOfCount<T>(xs: seq<T>, x: T, from: nat)
    requires from <= |xs|
    ensures IndexOf(xs, x, from).None? ==> Count(xs[from..], x) == 0
    ensures IndexOf(xs, x, from).Some? ==>
      Count(xs[from..], x) == 1 + Count(xs[IndexOf(xs, x, from).value + 1..], x)
    decreases |xs| - from
  {
    if from < |xs| {
      assert xs[from..][1..] == xs[from + 1..];
      if xs[from] != x {
        IndexOfCount(xs, x, from + 1);
      }
    }
  }

  /**
   * `parse_find_and_replace_action`: the path is the text between the first and second
   * ": " of the first line; the find and replace texts sit between the first four lines
   * that are exactly the fence; the lines after the fourth are the metadata.
   */
  function ParseFindAndReplace(line: string, lines: seq<string>): (r: Result<Parsed, ParseError>)
    ensures SecondPiece(line, ": ").None? ==> r == Failure(MissingPathSeparator(line))
    ensures SecondPiece(line, ": ").Some? ==> (r.Success? <==> FourFences(lines).Some?)
    ensures SecondPiece(line, ": ").Some? && r.Failure? ==> r.error == MissingFence
    ensures r.Success? ==> SecondPiece(line, ": ").Some? && FourFences(lines).Some?
    ensures r.Success? ==> var f := FourFences(lines).value;
      && r.value.0 == FindAndReplace(Strip(SecondPiece(line, ": ").value),
                                     Join(lines[f.0 + 1..f.1], "\n"), Join(lines[f.2 + 1..f.3], "\n"))
      && r.value.1 == lines[f.3 + 1..]
  {
    match SecondPiece(line, ": ")
    case None => Failure(MissingPathSeparator(line))
    case Some(piece) =>
      match FourFences(lines)
      case None => Failure(MissingFence)
      case Some((a, b, c, d)) =>
        Success((FindAndReplace(Strip(piece), Join(lines[a + 1..b], "\n"), Join(lines[c + 1..d], "\n")),
                 lines[d + 1..]))
  }

  /** FIND_AND_REPLACE with a path fails exactly when fewer than four lines are the fence. */
  lemma FindAndReplaceNeedsFourFences(line: string, lines: seq<string>)
    requires SecondPiece(line, ": ").Some?
    ensures ParseFindAndReplace(line, lines).Success? <==> Count(lines, Fence) >= 4
    ensures ParseFindAndReplace(line, lines).Failure? ==> ParseFindAndReplace(line, lines).error == MissingFence
  {
    FourFencesCount(lines);
  }

  /** A RUN_PYTHON separator at `p`: ", " followed by a digit, as `, (\d+)` needs. */
  predicate SeparatorAt(seg: string, p: nat) {
    p + 2 < |seg| && seg[p] == ',' && seg[p + 1] == ' ' && IsDigit(seg[p + 2])
  }

  /** The largest separator position below `hi`: where the greedy `(.*)` stops. */
  function LastSeparator(seg: string, hi: nat): (r: Option<nat>)
    ensures r.Some? ==> r.value < hi && SeparatorAt(seg, r.value)
    ensures r.Some? ==> forall q :: r.value < q < hi ==> !SeparatorAt(seg, q)
    ensures r.None? ==> forall q :: 0 <= q < hi ==> !SeparatorAt(seg, q)
  {
    if hi == 0 then None
    else if SeparatorAt(seg, hi - 1) then Some(hi - 1)
    else LastSeparator(seg, hi - 1)
  }

  /** The longest run of digits that starts `s`: what the greedy `\d+` takes. */
  function DigitRun(s: string): (r: string)
    ensures AllDigits(r) && StartsWith(s, r)
    ensures |r| == |s| || !IsDigit(s[|r|])
  {
    if s != [] && IsDigit(s[0]) then [s[0]] + DigitRun(s[1..]) else []
  }

  /** What `.*` can range over after the prefix: the text up to the first "\n". */
  function RunPythonSegment(line: string): (seg: string)
    requires StartsWith(line, RunPythonPrefix)
    ensures StartsWith(line[|RunPythonPrefix|..], seg) && '\n' !in seg
    ensures |RunPythonPrefix| + |seg| == |line| || line[|RunPythonPrefix| + |seg|] == '\n'
  {
    var rest := line[|RunPythonPrefix|..];
    match IndexOf(rest, '\n', 0)
    case None => rest
    case Some(i) => rest[..i]
  }

  /**
   * `RUN_PYTHON_PATTERN.match(line)`: groups 1 and 2 of `RUN_PYTHON: (.*), (\d+)` matched
   * from the start of the line. Group 1 runs up to the LAST ", <digit>" of the segment.
   */
  function RunPythonMatch(line: string): (r: Option<(string, string)>)
    ensures r.None? <==>
      (!StartsWith(line, RunPythonPrefix)
       || forall q :: 0 <= q < |RunPythonSegment(line)| ==> !SeparatorAt(RunPythonSegment(line), q))
    ensures r.Some? ==> var seg := RunPythonSegment(line); var (g1, g2) := r.value;
      && StartsWith(seg, g1 + ", " + g2)
      && g2 != [] && AllDigits(g2)
      && (|g1| + 2 + |g2| == |seg| || !IsDigit(seg[|g1| + 2 + |g2|]))
      && forall q :: |g1| < q < |seg| ==> !SeparatorAt(seg, q)
  {
    if !StartsWith(line, RunPythonPrefix) then None else SegmentGroups(RunPythonSegment(line))
  }

  /** The two groups of `(.*), (\d+)` matched at the start of the segment, if any. */
  function SegmentGroups(seg: string): (r: Option<(string, string)>)
    ensures r.None? <==> forall q :: 0 <= q < |seg| ==> !SeparatorAt(seg, q)
    ensures r.Some? ==> var (g1, g2) := r.value;
      && StartsWith(seg, g1 + ", " + g2)
      && g2 != [] && AllDigits(g2)
      && (|g1| + 2 + |g2| == |seg| || !IsDigit(seg[|g1| + 2 + |g2|]))
      && forall q :: |g1| < q < |seg| ==> !SeparatorAt(seg, q)
  {
    match LastSeparator(seg, |seg|)
    case None => None
    case Some(p) =>
      GroupsAtSeparator(seg, p);
      Some((seg[..p], DigitRun(seg[p + 2..])))
  }

  /** Cutting at the last separator gives the text before it and the digits after it. */
  lemma GroupsAtSeparator(seg: string, p: nat)
    requires SeparatorAt(seg, p)
    ensures var g1, g2 := seg[..p], DigitRun(seg[p + 2..]);
      && |g1| == p
      && StartsWith(seg, g1 + ", " + g2)
      && g2 != [] && AllDigits(g2)
      && (|g1| + 2 + |g2| == |seg| || !IsDigit(seg[|g1| + 2 + |g2|]))
  {
    var g2 := DigitRun(seg[p + 2..]);
    assert seg[..p + 2 + |g2|] == seg[..p] + ", " + g2;
  }

  /** `parse_run_python_action`: path is group 1 stripped, timeout is `int(group 2)`. */
  function ParseRunPython(line: string, lines: seq<string>): (r: Result<Parsed, ParseError>)
    ensures r.Success? <==> RunPythonMatch(line).Some?
    ensures r.Failure? ==> r.error == InvalidRunPython(line)
    ensures r.Success? ==> var (g1, g2) := RunPythonMatch(line).value;
      r.value == (RunPython(Strip(g1), DigitsValue(g2)), Slice(lines, 1, |lines|))
  {
    match RunPythonMatch(line)
    case None => Failure(InvalidRunPython(line))
    case Some((g1, g2)) => Success((RunPython(Strip(g1), DigitsValue(g2)), Slice(lines, 1, |lines|)))
  }

  // ---------------------------------------------------------------- the action table

  /** The rows of `action_parsers`, one per action. */
  datatype Row =
    | TellUserRow | ReadFileRow | WriteFileRow | AppendFileRow | RunPythonRow
    | SearchOnlineRow | ExtractInfoRow | FindAndReplaceRow | ListDirectoryRow
    | ShutdownRow | CreateDirectoryRow | MemoryGetRow | MemorySetRow

  /** `action_parsers`, in the order the source lists them. */
  const ActionParsers: seq<(string, Row)> := [
    (TellUserPrefix, TellUserRow),
    (ReadFilePrefix, ReadFileRow),
    (WriteFilePrefix, WriteFileRow),
    (AppendFilePrefix, AppendFileRow),
    (RunPythonPrefix, RunPythonRow),
    (SearchOnlinePrefix, SearchOnlineRow),
    (ExtractInfoPrefix, ExtractInfoRow),
    (FindAndReplacePrefix, FindAndReplaceRow),
    (ListDirectoryPrefix, ListDirectoryRow),
    (ShutdownPrefix, ShutdownRow),
    (CreateDirectoryPrefix, CreateDirectoryRow),
    (MemoryGetPrefix, MemoryGetRow),
    (MemorySetPrefix, MemorySetRow)
  ]

  /** The parser each row calls, applied to the first line and all the lines. */
  function RunRow(row: Row, line: string, lines: seq<string>): Result<Parsed, ParseError>
  {
    match row
    case TellUserRow => Success((TellUser(Strip(Drop(line, |TellUserPrefix|))), []))
    case ReadFileRow => Success((ReadFile(Strip(Drop(line, |ReadFilePrefix|))), []))
    case WriteFileRow =>
      var (path, content, meta) := ParseFilePayload(line, WriteFilePrefix, lines);
      Success((WriteFile(path, content), meta))
    case AppendFileRow =>
      var (path, content, meta) := ParseFilePayload(line, AppendFilePrefix, lines);
      Success((AppendFile(path, content), meta))
    case RunPythonRow => ParseRunPython(line, lines)
    case SearchOnlineRow => Success((SearchOnline(Strip(Drop(line, |SearchOnlinePrefix|))), []))
    case ExtractInfoRow => ParseExtractInfo(line)
    case FindAndReplaceRow => ParseFindAndReplace(line, lines)
    case ListDirectoryRow => Success((ListDirectory(Strip(Drop(line, |ListDirectoryPrefix|))), []))
    case ShutdownRow => Success((Shutdown(Strip(Drop(line, |ShutdownPrefix|))), []))
    case CreateDirectoryRow => Success((CreateDirectory(Strip(Drop(line, |CreateDirectoryPrefix|))), []))
    case MemoryGetRow => Success((MemoryGet(Strip(Drop(line, |MemoryGetPrefix|))), []))
    case MemorySetRow => ParseMemorySet(line)
  }

  /** The first table index at or after `from` whose prefix starts `line`. */
  function MatchFrom(line: string, from: nat): (r: Option<nat>)
    ensures r.Some? ==> from <= r.value < |ActionParsers| && StartsWith(line, ActionParsers[r.value].0)
    ensures r.Some? ==> forall j :: from <= j < r.value ==> !StartsWith(line, ActionParsers[j].0)
    ensures r.None? ==> forall j :: from <= j < |ActionParsers| ==> !StartsWith(line, ActionParsers[j].0)
    decreases |ActionParsers| - from
  {
    if from >= |ActionParsers| then None
    else if StartsWith(line, ActionParsers[from].0) then Some(from)
    else MatchFrom(line, from + 1)
  }

  /** What `parse_action` returns: the first matching row's parser, or "Unknown action type". */
  function Dispatch(line: string, lines: seq<string>): Result<Parsed, ParseError>
  {
    match MatchFrom(line, 0)
    case Some(k) => RunRow(ActionParsers[k].1, line, lines)
    case None => Failure(UnknownAction(line))
  }

  /** A row that matches after none matched before it is the row `MatchFrom` finds. */
  lemma FirstMatchIs(line: string, i: nat)
    requires i < |ActionParsers| && StartsWith(line, ActionParsers[i].0)
    requires forall j :: 0 <= j < i ==> !StartsWith(line, ActionParsers[j].0)
    ensures MatchFrom(line, 0) == Some(i)
  {
  }

  /** `parse_action`: the loop over the table with its early return. */
  method ParseAction(line: string, lines: seq<string>) returns (r: Result<Parsed, ParseError>)
    ensures r == Dispatch(line, lines)
  {
    for i := 0 to |ActionParsers|
      invariant forall j :: 0 <= j < i ==> !StartsWith(line, ActionParsers[j].0)
    {
      if StartsWith(line, ActionParsers[i].0) {
        FirstMatchIs(line, i);
        return RunRow(ActionParsers[i].1, line, lines);
      }
    }
    return Failure(UnknownAction(line));
  }

  // ---------------------------------------------------------------- parse

  /** The second half of `parse`: decode the metadata lines, if there are any. */
  function AttachMetadata(parsed: Result<Parsed, ParseError>, decode: JsonDecoder): Result<(Action, Metadata), ParseError>
  {
    match parsed
    case Failure(e) => Failure(e)
    case Success((action, metadataLines)) =>
      if metadataLines == [] then Success((action, DefaultMetadata))
      else
        match ParseMetadata(metadataLines, decode)
        case Failure(e) => Failure(e)
        case Success(metadata) => Success((action, metadata))
  }

  /** `parse`: reject empty text, dispatch on the first line, decode what is left over. */
  function Parse(text: string, decode: JsonDecoder): (r: Result<(Action, Metadata), ParseError>)
    ensures text == [] ==> r == Failure(EmptyInput)
  {
    if text == [] then Failure(EmptyInput)
    else
      var lines := SplitLines(text);
      AttachMetadata(Dispatch(lines[0], lines), decode)
  }

  // ---------------------------------------------------------------- properties

  /** A position where two rows' prefixes differ, below the length of both. */
  function Distinguisher(j: nat, k: nat): nat
  {
    if j == 1 && k == 4 then 1        // READ_FILE: / RUN_PYTHON:
    else if j == 5 && k == 9 then 1   // SEARCH_ONLINE: / SHUTDOWN
    else if j == 11 && k == 12 then 7 // MEMORY_GET: / MEMORY_SET:
    else 0
  }

  lemma DistinguisherWorks(j: nat, k: nat)
    requires j < k < |ActionParsers|
    ensures var d := Distinguisher(j, k); var p, q := ActionParsers[j].0, ActionParsers[k].0;
      d < |p| && d < |q| && p[d] != q[d]
  {
  }

  /** No prefix in the table is a prefix of another, so at most one row matches a line. */
  lemma AtMostOneRowMatches(line: string)
    ensures forall j, k :: 0 <= j < k < |ActionParsers| ==>
      (StartsWith(line, ActionParsers[j].0) ==> !StartsWith(line, ActionParsers[k].0))
  {
    forall j, k | 0 <= j < k < |ActionParsers| && StartsWith(line, ActionParsers[j].0)
      ensures !StartsWith(line, ActionParsers[k].0)
    {
      DistinguisherWorks(j, k);
      var d := Distinguisher(j, k);
      assert line[d] == ActionParsers[j].0[d];
    }
  }

  /**
   * `parse_action` runs the parser of the row whose prefix starts the line, and fails with
   * "Unknown action type" exactly when no prefix does.
   */
  lemma DispatchUsesMatchingRow(line: string, lines: seq<string>, k: nat)
    requires k < |ActionParsers| && StartsWith(line, ActionParsers[k].0)
    ensures Dispatch(line, lines) == RunRow(ActionParsers[k].1, line, lines)
  {
    AtMostOneRowMatches(line);
    var m := MatchFrom(line, 0);
    assert m.Some?;
    assert m.value == k;
  }

  /** The rows whose parser reads only the first line and returns no metadata lines. */
  predicate SingleLineRow(row: Row) {
    row in {TellUserRow, ReadFileRow, SearchOnlineRow, ExtractInfoRow, ListDirectoryRow,
            ShutdownRow, CreateDirectoryRow, MemoryGetRow, MemorySetRow}
  }

  /**
   * For a single-line action whatever follows the first line is ignored: the reply parses
   * as the first line alone would, and a successful parse carries the empty metadata.
   */
  lemma SingleLineRowIgnoresLines(row: Row, line: string, lines: seq<string>, others: seq<string>)
    requires SingleLineRow(row)
    ensures RunRow(row, line, lines) == RunRow(row, line, others)
    ensures RunRow(row, line, lines).Success? ==> RunRow(row, line, lines).value.1 == []
  {
  }

  lemma {:induction false} SingleLineActionIgnoresRest(text: string, first: string, k: nat, decode: JsonDecoder)
    requires k < |ActionParsers| && SingleLineRow(ActionParsers[k].1)
    requires text != [] && SplitLines(text)[0] == first && StartsWith(first, ActionParsers[k].0)
    ensures Parse(text, decode) == Parse(first, decode)
    ensures Parse(first, decode).Success? ==> Parse(first, decode).value.1 == DefaultMetadata
  {
    var lines := SplitLines(text);
    assert first != [] && NoLineBreak(first);
    SplitLinesSingle(first);
    DispatchUsesMatchingRow(first, lines, k);
    DispatchUsesMatchingRow(first, [first], k);
    SingleLineRowIgnoresLines(ActionParsers[k].1, first, lines, [first]);
  }

  // The reply "SHUTDOWN: done" followed by anything: the reason keeps its ": ", because the
  // prefix has no colon, and the text after the first line is never read. The two lemmas on
  // that reply take its first line as a parameter pinned by `requires`, so that the verifier
  // reasons about a variable instead of evaluating every function on the literal.

  /** "SHUTDOWN: done" is one SHUTDOWN line whose stripped rest is ": done". */
  lemma ShutdownLineFacts(first: string)
    requires first == "SHUTDOWN: done"
    ensures first != [] && NoLineBreak(first)
    ensures StartsWith(first, ActionParsers[9].0) && SingleLineRow(ActionParsers[9].1)
    ensures Strip(Drop(first, |ShutdownPrefix|)) == ": done"
  {
    assert first[..|ShutdownPrefix|] == ShutdownPrefix;
    var reason := Drop(first, |ShutdownPrefix|);
    assert reason == ": done";
    assert TrimLeft(reason) == reason;
    assert TrimRight(reason) == reason;
  }

  /** A reply made of one SHUTDOWN line stops with the rest of the line, stripped, as its reason. */
  lemma ShutdownLineParses(first: string, decode: JsonDecoder)
    requires first != [] && NoLineBreak(first) && StartsWith(first, ShutdownPrefix)
    ensures Parse(first, decode) == Success((Shutdown(Strip(Drop(first, |ShutdownPrefix|))), DefaultMetadata))
  {
    var reason := Strip(Drop(first, |ShutdownPrefix|));
    SplitLinesSingle(first);
    assert Dispatch(first, [first]) == Success((Shutdown(reason), [])) by {
      ShutdownDispatch(first, [first]);
    }
    NoMetadataLinesDefault(Shutdown(reason), decode);
  }

  /** A line starting with the SHUTDOWN prefix dispatches to a shutdown with no metadata lines. */
  lemma ShutdownDispatch(line: string, lines: seq<string>)
    requires StartsWith(line, ShutdownPrefix)
    ensures Dispatch(line, lines) == Success((Shutdown(Strip(Drop(line, |ShutdownPrefix|))), []))
  {
    assert ActionParsers[9] == (ShutdownPrefix, ShutdownRow);
    DispatchUsesMatchingRow(line, lines, 9);
    ShutdownRowParses(line, lines);
  }

  /** The SHUTDOWN row's parser: the rest of the line, stripped, and no metadata lines. */
  lemma ShutdownRowParses(line: string, lines: seq<string>)
    ensures RunRow(ShutdownRow, line, lines) == Success((Shutdown(Strip(Drop(line, |ShutdownPrefix|))), []))
  {
  }

  /** An action parsed with no metadata lines gets the default metadata. */
  lemma NoMetadataLinesDefault(action: Action, decode: JsonDecoder)
    ensures AttachMetadata(Success((action, [])), decode) == Success((action, DefaultMetadata))
  {
  }

  /** The reason of "SHUTDOWN: done" keeps its colon, whatever follows the first line. */
  lemma ShutdownKeepsColon(first: string, rest: string, decode: JsonDecoder)
    requires first == "SHUTDOWN: done"
    ensures Parse(first + "\n" + rest, decode) == Success((Shutdown(": done"), DefaultMetadata))
  {
    ShutdownLineFacts(first);
    SplitLinesCons(first, rest);
    SingleLineActionIgnoresRest(first + "\n" + rest, first, 9, decode);
    ShutdownLineParses(first, decode);
  }

  /** Every way `parse` can fail with "Unknown action type" is a first line no prefix starts. */
  lemma ParseUnknownIffNoPrefix(text: string, decode: JsonDecoder)
    ensures (Parse(text, decode).Failure? && Parse(text, decode).error.UnknownAction?)
      <==> (text != [] && MatchFrom(SplitLines(text)[0], 0).None?)
  {
    if text != [] {
      var lines := SplitLines(text);
      MetadataNeverUnknown(Dispatch(lines[0], lines), decode);
      match MatchFrom(lines[0], 0)
      case None =>
      case Some(k) => RowNeverUnknown(ActionParsers[k].1, lines[0], lines);
    }
  }

  /** An action parser that ran may fail, but never with "Unknown action type". */
  lemma RowNeverUnknown(row: Row, line: string, lines: seq<string>)
    ensures RunRow(row, line, lines).Failure? ==> !RunRow(row, line, lines).error.UnknownAction?
  {
  }

  /** Decoding the metadata lines never reports an unknown action of its own. */
  lemma MetadataNeverUnknown(parsed: Result<Parsed, ParseError>, decode: JsonDecoder)
    ensures AttachMetadata(parsed, decode).Failure? && AttachMetadata(parsed, decode).error.UnknownAction?
      ==> parsed.Failure? && parsed.error == AttachMetadata(parsed, decode).error
  {
  }

  /**
   * WRITE_FILE and APPEND_FILE take their content from line 2 up to the last fence line
   * (see `MetadataSplit`), joined with newlines, and leave the lines after it for the metadata.
   */
  lemma FileActionTakesPayload(line: string, lines: seq<string>)
    requires StartsWith(line, WriteFilePrefix) || StartsWith(line, AppendFilePrefix)
    ensures Dispatch(line, lines).Success?
    ensures var (a, meta) := Dispatch(line, lines).value; var split := MetadataSplit(lines, 2);
      && (a.WriteFile? || a.AppendFile?)
      && (a.WriteFile? <==> StartsWith(line, WriteFilePrefix))
      && a.content == Join(split.0, "\n") && meta == split.1
  {
    AtMostOneRowMatches(line);
    if StartsWith(line, WriteFilePrefix) {
      DispatchUsesMatchingRow(line, lines, 2);
    } else {
      DispatchUsesMatchingRow(line, lines, 3);
    }
  }

  /**
   * A metadata block that does not decode fails the whole parse; it is not replaced by
   * default metadata.
   */
  lemma BadMetadataFailsParse(text: string, decode: JsonDecoder)
    ensures text != [] ==>
      var d := Dispatch(SplitLines(text)[0], SplitLines(text));
      d.Success? && d.value.1 != [] && ParseMetadata(d.value.1, decode).Failure? ==>
        Parse(text, decode) == Failure(BadMetadata(Strip(Join(d.value.1, "\n"))))
  {
  }
}
