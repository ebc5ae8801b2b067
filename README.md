# smartgpt core: response parser, plan compiler, assistant hints

This project is a Dafny model of the core of the smartgpt autonomous-agent loop. It covers three parts:

- **The response parser** (`smartgpt/response_parser.py`). It turns one model reply into an action and a metadata record.
  - The first line picks the action through an ordered table of thirteen prefixes.
  - WRITE_FILE, APPEND_FILE and FIND_AND_REPLACE take a fenced payload from the lines that follow.
  - Whatever lines remain are decoded as a JSON metadata block.
- **The plan compiler** (`smartgpt/compiler.py`). It walks the task list of `plan.yaml` in declaration order. Each task gets a task info:
  - its number, its hints and its start sequence `((num - 1) << 4) + 1`;
  - the summaries of the tasks it depends on.

  The translator turns that info into an instruction document, stored as `<num>.yaml`. `compile_task_in_plan` reuses stored documents:
  - a task before the target is reused when its file exists;
  - the target is always translated again;
  - a later task is translated again only when the target's overall outcome changed or the target had no file.
- **The assistant loop's bookkeeping** (`smartgpt/main.py`, class `Assistant`). This is the hint text fed back to the model after each turn:
  - the previous plan as bullets;
  - the report of the action just executed;
  - the notebook rendering;
  - `process_action`'s control flow.

Files:

- `wrappers.dfy` holds `Option`, `Result` and `dict.get`.
- `pystr.dfy` holds the Python `str`/`list` semantics the source relies on:
  - `strip`, `splitlines`, `join`, slicing, `list.index`;
  - `split(",", 1)`, `split(": ")[1]`, `str(int)`.
- `response_parser.dfy`, `compiler.dfy` and `assistant.dfy` follow the three source files.

How each kind of code is modelled:

- **Pure code** becomes functions plus lemmas.
- **Loops** become methods proved equal to the specification functions:
  - `find_metadata_lines` and `parse_action` in the parser;
  - the two compile loops;
  - `extract_notebook`.
- **Objects that update their fields** become classes:
  - the compiler's task directory is a `map<int, Outcome>` field of `Compiler.Compiler`;
  - `notebook` and `tasks_desc` are fields of `AssistantLoop.Assistant`.

Behaviour of the code worth knowing, which the model keeps:

- **A bad metadata block fails the whole parse.** When lines are left over after the action and they do not decode, `parse` raises (`ResponseParser.BadMetadataFailsParse`); only a reply with no leftover lines gets the default metadata.
- **A SHUTDOWN reason keeps its colon.** The SHUTDOWN prefix has no colon, so `SHUTDOWN: done` carries the reason `: done` (`ResponseParser.ShutdownKeepsColon`).
- **The RUN_PYTHON prefix ends in a space.** It is `"RUN_PYTHON: "` because the module rebinds the name before the table is built.
- **`task_dependency` is keyed by the decimal text of the task number**, as the code looks it up with `str(num)`.
- **A dependency must be declared earlier.** One that is not yet compiled raises, so declaration order must be a topological order (`Compiler.RunSucceedsIffDeclaredInOrder`).
- **main.py reads fields the parser never produces.** It reads `metadata.current_task_id` and `metadata.notebook`, which the parser's `Metadata` record does not declare. As written, the action report raises for every parsed reply (see "## Findings"). The hints are modelled over their own record `AssistantLoop.IterationMetadata`, which carries those fields as the reply format in `main.py` asks.

The environment is modelled as parameters:

- JSON decoding is an abstract partial function `string -> Option<Json>`.
- The translator, together with the YAML decoding of its output, is an abstract function `TaskInfo -> Outcome`.
- The decoded `plan.yaml` and the existing `<num>.yaml` files are inputs.
- An action's run output, the interactive prompt's answer and `short_string` are parameters of the assistant.

## Model

| member | source | states |
|---|---|---|
| ResponseParser.ParseMetadata | smartgpt/response_parser.py:28-40 | no lines raise "missing metadata"; otherwise the joined, stripped text must decode to an object with `reason` and `plan`, which are taken from it, and `speak` is that field's value when present and not null, else None; any other decode result raises with that text |
| ResponseParser.LastFenceBefore | smartgpt/response_parser.py:44-47 | the backward scan finds the last fence line strictly after the content start, or reports that there is none |
| ResponseParser.MetadataSplit | smartgpt/response_parser.py:42-50 | with a closing fence, content + fence + metadata is exactly the lines from the content start, and the metadata holds no fence line; without one, the content stops one line short of the end and there is no metadata |
| ResponseParser.FindMetadataLines | smartgpt/response_parser.py:42-50 | the backward loop with early break returns exactly `MetadataSplit` |
| ResponseParser.ParseMemorySet | smartgpt/response_parser.py:56-60 | succeeds iff the stripped rest holds a comma; key and value are the stripped halves around the first comma; otherwise the unpacking error |
| ResponseParser.ParseExtractInfo | smartgpt/response_parser.py:77-79 | succeeds iff the stripped rest holds a comma; url and instruction are the unstripped halves around the first comma, the url has no comma |
| ResponseParser.FourFences | smartgpt/response_parser.py:92-97 | four chained `index` calls find the first four lines equal to the fence, in increasing order, and no other fence line comes before the fourth |
| ResponseParser.FourFencesCount | smartgpt/response_parser.py:92-97 | the four searches all succeed iff at least four lines equal the fence |
| ResponseParser.FencesFrom | smartgpt/response_parser.py:92-97 | `n` chained searches from a position succeed iff `n` fence lines remain after it |
| ResponseParser.IndexOfCount | smartgpt/response_parser.py:92-93 | a failed search means no occurrence remains; a found one accounts for exactly one occurrence |
| ResponseParser.ParseFindAndReplace | smartgpt/response_parser.py:89-102 | no second ": " piece raises; otherwise succeeds iff four fences exist; the path is the stripped second piece, find and replace are the lines between fences 1-2 and 3-4, metadata is what follows fence 4 |
| ResponseParser.FindAndReplaceNeedsFourFences | smartgpt/response_parser.py:89-102 | with a path, the action parses iff at least four lines are the fence, and fails with the missing-fence error otherwise |
| ResponseParser.LastSeparator | smartgpt/response_parser.py:111 | finds the last ", digit" position below a bound, or none exists |
| ResponseParser.DigitRun | smartgpt/response_parser.py:111 | the greedy `\d+`: the longest digit prefix |
| ResponseParser.RunPythonSegment | smartgpt/response_parser.py:111 | the text `.*` can range over: the rest of the line after the prefix, up to its first line break or to its end |
| ResponseParser.RunPythonMatch | smartgpt/response_parser.py:111-116 | the match fails iff the prefix is missing or no ", digit" follows it; group 1 runs to the last separator of the segment and group 2 is the maximal, non-empty digit run after it |
| ResponseParser.ParseRunPython | smartgpt/response_parser.py:113-120 | succeeds iff the pattern matches; path is group 1 stripped, timeout is the value of group 2, and all lines but the first are left for the metadata |
| ResponseParser.MatchFrom | smartgpt/response_parser.py:139-141 | finds the first table row at or after an index whose prefix starts the line, or none does |
| ResponseParser.FirstMatchIs | smartgpt/response_parser.py:122-141 | a row that matches with no earlier row matching is the one chosen |
| ResponseParser.ParseAction | smartgpt/response_parser.py:138-142 | the table loop with early return equals `Dispatch` |
| ResponseParser.Parse | smartgpt/response_parser.py:144-146 | empty text raises "Empty input" |
| ResponseParser.DistinguisherWorks | smartgpt/response_parser.py:122-136 | any two table prefixes differ at a position inside both |
| ResponseParser.AtMostOneRowMatches | smartgpt/response_parser.py:122-136 | no line starts with two different table prefixes |
| ResponseParser.DispatchUsesMatchingRow | smartgpt/response_parser.py:138-142 | a line that starts with a row's prefix is parsed by that row |
| ResponseParser.SingleLineRowIgnoresLines | smartgpt/response_parser.py:123-124 | the single-line parsers ignore the other lines and return no metadata lines |
| ResponseParser.SingleLineActionIgnoresRest | smartgpt/response_parser.py:144-157 | for any reply whose first line, as `splitlines` cuts it at any line break, starts a single-line action, the reply parses as that line alone, and a success carries the default metadata |
| ResponseParser.ShutdownLineFacts | smartgpt/response_parser.py:14 | "SHUTDOWN: done" is one line, starts with the colon-less SHUTDOWN prefix, and its stripped rest is ": done" |
| ResponseParser.ShutdownLineParses | smartgpt/response_parser.py:81-83 | a reply of one SHUTDOWN line parses to a shutdown whose reason is the rest of the line stripped, with default metadata |
| ResponseParser.ShutdownKeepsColon | smartgpt/response_parser.py:81-83 | "SHUTDOWN: done" followed by anything parses to the reason ": done" with default metadata |
| ResponseParser.ParseUnknownIffNoPrefix | smartgpt/response_parser.py:142 | the parse fails with "Unknown action type" iff the text is non-empty and no prefix starts its first line |
| ResponseParser.FileActionTakesPayload | smartgpt/response_parser.py:63-75 | WRITE_FILE/APPEND_FILE always parse; the action kind follows the prefix, the content is the joined payload lines of `MetadataSplit` from line 2, and its metadata lines are left over |
| ResponseParser.BadMetadataFailsParse | smartgpt/response_parser.py:152-155 | leftover lines that do not decode make the whole parse fail with the metadata error |
| Compiler.ShiftLeftMultiplies | smartgpt/compiler.py:38 | `x << k` is `x * 2^k` for every integer, negative included |
| Compiler.TaskInfoFields | smartgpt/compiler.py:32-40 | the start sequence is `16 * (num - 1) + 1`, `first_task` holds iff num is 1, and the other fields are the arguments |
| Compiler.SeqRangeOwner | smartgpt/compiler.py:38 | a sequence number lies in a task's 16-wide range iff that task owns it |
| Compiler.SeqRangesDisjoint | smartgpt/compiler.py:38 | distinct task numbers get disjoint instruction ranges |
| Compiler.ResolveDeps | smartgpt/compiler.py:57 | succeeds iff every dependency is known; then one summary per dependency, in order; otherwise it reports the first dependency in list order that is missing, as the comprehension raises on it |
| Compiler.AdvanceSucceedsIff | smartgpt/compiler.py:54-57 | one loop turn succeeds iff no lookup failed earlier and all the task's dependencies are known |
| Compiler.AdvanceGrows | smartgpt/compiler.py:65-70 | a successful turn records exactly the task's number and appends one result |
| Compiler.AdvanceFrame | smartgpt/compiler.py:58-62 | a turn touches no file but its own task's |
| Compiler.AdvanceKnownFrame | smartgpt/compiler.py:66-70 | a turn touches no summary but its own task's |
| Compiler.AdvanceKeepsFlag | smartgpt/compiler.py:104-105 | only the target task's turn can change the recompile flag |
| Compiler.AdvanceKeepsFile | smartgpt/compiler.py:94-97 | outside the target, an existing file whose task is reused (earlier, or later with the flag off) is kept |
| Compiler.RunShape | smartgpt/compiler.py:54-72 | until a lookup fails, there is one result per task and the summaries are keyed by exactly the task numbers seen |
| Compiler.RunStopsAtFailure | smartgpt/compiler.py:57 | after a missing dependency raises, nothing further happens |
| Compiler.DeclaredInOrderEveryTask | smartgpt/compiler.py:54-57 | the order condition holds for a prefix iff every task in it depends only on earlier-declared tasks |
| Compiler.KnownIsDeclared | smartgpt/compiler.py:56-57 | before task i, its dependencies are all known iff they are all declared earlier |
| Compiler.RunSucceedsIffDeclaredInOrder | smartgpt/compiler.py:54-57 | compilation raises iff some task depends on one not declared before it, in both compile modes |
| Compiler.StepRecordsOutcome | smartgpt/compiler.py:65-70 | a successful turn appends one outcome and records its summary under the task number |
| Compiler.WholePlanTranslatesEachTask | smartgpt/compiler.py:60-65 | `compile_plan` appends each task's translation and writes it to that task's file |
| Compiler.TargetAlwaysRetranslated | smartgpt/compiler.py:99-105 | the target is always translated and rewritten; the flag becomes "no file before, or overall outcome changed" |
| Compiler.EarlierTaskReused | smartgpt/compiler.py:94-95 | a task before the target with a file is loaded, and the directory is unchanged |
| Compiler.MissingFileCompiled | smartgpt/compiler.py:99-102 | a task without a file is translated and written, in both modes |
| Compiler.ChangedTargetRetranslatesLater | smartgpt/compiler.py:96-102 | with the flag set, a later task is translated and rewritten |
| Compiler.UnchangedTargetReusesLater | smartgpt/compiler.py:96-97 | with the flag off, a later task with a file is loaded, and the directory is unchanged |
| Compiler.NoRecompileBeforeTarget | smartgpt/compiler.py:82 | the flag is false until the target task comes up |
| Compiler.RecompileChangesOnlyAtTarget | smartgpt/compiler.py:104-105 | between occurrences of the target, the flag keeps its value |
| Compiler.FilesUntouchedBetween | smartgpt/compiler.py:58-62 | a file whose number no task in a stretch carries is unchanged over it |
| Compiler.NumsBeforeMembers | smartgpt/compiler.py:55 | the numbers seen are exactly the numbers some processed task carries |
| Compiler.FilesOutsidePlanUntouched | smartgpt/compiler.py:54-72 | files of numbers outside the plan are left as they were |
| Compiler.RunSuccessPrefix | smartgpt/compiler.py:65 | results only ever grow by appending |
| Compiler.WholePlanFileHoldsResult | smartgpt/compiler.py:58-65 | after `compile_plan`, a task's file holds its result when no later task reuses its number |
| Compiler.WholePlanResultIsTranslation | smartgpt/compiler.py:60-65 | each returned outcome is the translation of the task info built for that task |
| Compiler.PreviousOutcomesFollowDependencies | smartgpt/compiler.py:57-60 | the previous outcomes handed to a task are its dependencies' summaries, in dependency order |
| Compiler.KnownUntouchedBetween | smartgpt/compiler.py:66-70 | a summary whose number no task in a stretch carries is unchanged over it |
| Compiler.KnownHoldsLastSummary | smartgpt/compiler.py:66-70 | the summary under a number is that of the last earlier task carrying it: number, task and overall outcome |
| Compiler.WholePlanFilesHoldResults | smartgpt/compiler.py:45-72 | with distinct task numbers, every task's file holds its own result |
| Compiler.EarlierFilesKept | smartgpt/compiler.py:94-95 | in `compile_task_in_plan`, an existing file numbered below the target survives unchanged |
| Compiler.LaterFilesKeptWhileUnchanged | smartgpt/compiler.py:96-97 | an existing file numbered above the target survives while the flag is off at each of its tasks |
| Compiler.ReturnedIffDeclaredInOrder | smartgpt/compiler.py:45-114 | a compile loop returns its outcome list exactly when every task depends only on tasks declared before it, and raises the KeyError otherwise |
| Compiler.Compiler.CompilePlan | smartgpt/compiler.py:45-72 | the imperative loop leaves the directory and the return value exactly as the whole-plan fold does |
| Compiler.Compiler.CompilePlanIteration | smartgpt/compiler.py:55-70 | one loop body is one step of the fold |
| Compiler.Compiler.CompileTaskInPlan | smartgpt/compiler.py:74-114 | the imperative loop leaves the directory and the return value exactly as the from-target fold does |
| Compiler.Compiler.CompileInPlanIteration | smartgpt/compiler.py:85-112 | one loop body, with its if/elif reuse test and the flag update, is one step of the fold |
| Compiler.Compiler.CompileTask | smartgpt/compiler.py:116-124 | translates the given task info and writes exactly that task's file |
| Compiler.Compiler.constructor | smartgpt/compiler.py:12-14 | the compiler starts over the given translator and task directory |
| AssistantLoop.JoinedBulletsAreLines | smartgpt/main.py:164 | the newline-joined bullets plus the final newline are one line per plan entry |
| AssistantLoop.PlanHintsAreBulletLines | smartgpt/main.py:162-164 | a non-empty plan gives the header followed by one bullet line per entry, in order |
| AssistantLoop.EmptyPlanNoHints | smartgpt/main.py:164 | an empty plan gives no text |
| AssistantLoop.BulletLineListed | smartgpt/main.py:164 | every plan entry appears as its own bullet line |
| AssistantLoop.ActionHintsLayout | smartgpt/main.py:166-174 | the report is exactly five lines joined by "\n", in order: the header, the current task id after its label, `- Action: ***` around the action's short string, the results label followed by the output verbatim, and the end marker |
| AssistantLoop.ActionHintsPlaces | smartgpt/main.py:166-174 | the report starts with its header, contains the task-id line and the output after the results label, and ends with the end marker |
| AssistantLoop.ExtractNotebook | smartgpt/main.py:148-160 | the loop with its skip and `continue` yields the braces around the lines of the listed entries |
| AssistantLoop.KeptEntriesMembers | smartgpt/main.py:152-157 | exactly the entries whose value is neither None nor "" and whose key is not the review field are listed |
| AssistantLoop.EntriesTextListsKeptEntries | smartgpt/main.py:152-158 | the loop's text is one line per listed entry, in notebook order |
| AssistantLoop.EmptyNotebookText | smartgpt/main.py:148-160 | an absent or empty notebook renders as the two braces alone |
| AssistantLoop.NotebookListsKeptEntries | smartgpt/main.py:148-160 | the rendering is "{", the listed entries' lines, then "}"; an absent notebook lists none |
| AssistantLoop.HintsCarryActionOutput | smartgpt/main.py:135-146 | with metadata and an action, the hints contain the action output |
| AssistantLoop.HintsListPlanEntries | smartgpt/main.py:135-146 | with metadata, every plan entry appears in the hints as a bullet line |
| AssistantLoop.NoMetadataNoHints | smartgpt/main.py:138 | without metadata the hints are empty |
| AssistantLoop.MissingActionKeepsPlanHints | smartgpt/main.py:138-140 | without an action only the plan hints remain |
| AssistantLoop.Assistant.constructor | smartgpt/main.py:117-119 | the notebook and the hints start empty |
| AssistantLoop.Assistant.MakeHints | smartgpt/main.py:135-146 | replaces the hints with the plan hints, then the action report when there is an action; the notebook is untouched |
| AssistantLoop.ParsedReplyBreaksActionHints | smartgpt/main.py:166-174 | for every reply `parse` accepts, the action report as written raises `AttributeError` on `current_task_id` |
| AssistantLoop.Assistant.ProcessAction | smartgpt/main.py:121-218 | a shutdown, or a declined answer in interactive mode, returns False; in interactive mode a prompt time-out raises before the action runs; otherwise it returns True; the hints are unchanged unless it returns True, and then they are rebuilt from the action's output, or from "" without an action, so the failure message is overwritten |

## Left out

- `smartgpt/reviewer.py` and `extentions/smart_agent.py` are not part of this model: they belong to the translation and extension layers, not the core.
- The prompt-driven loop in `main.py` is not modelled, because it is I/O, model calls and process control:
  - `run`, `initialize`, `get_new_plan`, `input_with_timeout` and the signal handler;
  - checkpoints, `.env` loading and directory changes.
- `load_yaml`/`write_yaml` and the file system: the directory of `<num>.yaml` files is a map from task number to its decoded document.
- `Compiler.Compiler.CompileTask`, `CompilePlan` and `CompileTaskInPlan` do not model:
  - a translator that raises;
  - an unreadable file;
  - a task entry missing `task_num`/`task`.
- `Compiler.Compiler.CompilePlan` and `Compiler.Compiler.CompileTaskInPlan` assume that every translated or loaded document carries both the `task` and `overall_outcome` keys. A document without one raises `KeyError` in the source (smartgpt/compiler.py:66-70 and 109-112); the model does not represent that failure.
- `Compiler.Compiler.CompileTaskInPlan` assumes a loaded document is truthy. An empty stored document (falsy, so translated again in the source) is not distinguished.
- `Compiler.Compiler.CompileTaskInPlan` decides reuse from whether the file exists, and `origin` is the file's content at the start of that task's turn. With a repeated task number this is what the source reads. What `os.path.exists` sees in a concurrent directory is out of scope.
- JSON and YAML parsing are abstract functions. Numbers are kept as their literal text, and a `plan` of any JSON type is accepted, as in the source.
- `ResponseParser.RunPythonMatch` reads `\d` as ASCII digits. Python's `re` also accepts other Unicode decimal digits.
- The `print` of the raw text in `parse` and the logging calls are output only.
- `AssistantLoop.Assistant.ProcessAction` takes the action's run output as a parameter. The side effects of `action.run()` are not modelled.
- `AssistantLoop.Assistant.ProcessAction` models the interactive prompt as its reply: a typed line, or the `InputTimeoutError` raised when the alarm fires, which escapes `process_action` before the action runs. "Declined" is a typed line other than "y", "Y" or "". Other exceptions of `input` (end of input) are not modelled. What the handler in `run` does after the exception is part of `run`, which is not modelled.
- `AssistantLoop.ActionHints` and `AssistantLoop.Assistant.ProcessAction` use `AssistantLoop.IterationMetadata`, which holds the current task id and a plan of strings. The parser's record lacks the task id and its plan is any JSON value. Over that record, `get_action_hints` raises, and so does `process_action` for every action it runs (see "## Findings").
- `AssistantLoop.Render` renders a non-string notebook value as a given text standing for its Python `str`.
- `extract_notebook`'s call site in `make_hints` is commented out in the source. The rendering is modelled and proved, but `MakeHints` does not use it, as in the source.

## Findings

| source | as written | input that shows it | evidently intended | confidence | as-written member | corrected member |
|---|---|---|---|---|---|---|
| smartgpt/main.py:170 | `get_action_hints` reads `metadata.current_task_id`, but the `Metadata` record that `parse` returns (smartgpt/response_parser.py:22-26) has only `reason`, `plan` and `speak`, so it raises `AttributeError`; `process_action` then raises after running the action, and the `make_hints` call in `run`'s handler raises again | any reply that parses to an action other than SHUTDOWN, such as `TELL_USER: hi` | the metadata record carries the `current_task_id` the reply format asks for (smartgpt/main.py:78), and the report shows it | high; not executed | AssistantLoop.ActionHintsAsWritten, AssistantLoop.ParsedReplyBreaksActionHints | AssistantLoop.ActionHintsLayout |
