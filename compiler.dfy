/**
 * The plan compiler: it walks the plan's task list in declaration order, translates each task
 * into an instruction document and persists it as `<num>.yaml`.
 *
 * The task directory is a map from task number to the decoded document stored under that
 * number; the translator, together with the YAML decoding of its output, is a function of
 * the task info it is given.
 */
module Compiler {
  import opened Wrappers
  import opened PyStr

  // ------------------------------------------------------------------ data model

  /** One entry of `task_list`: its `task_num` and its `task` description. */
  datatype Task = Task(num: int, task: string)

  /** The decoded `plan.yaml`; each field is absent when the key is missing. */
  datatype Plan = Plan(
    hintsFromUser: Option<seq<string>>,
    taskList: Option<seq<Task>>,
    taskDependency: Option<map<string, seq<int>>>)

  /** The decoded instruction document of one task, as stored in `<num>.yaml`. */
  datatype Outcome = Outcome(task: string, overallOutcome: string, instructions: seq<string>)

  /** What later tasks see of a compiled task: its number, task text and overall outcome. */
  datatype Summary = Summary(taskNum: int, task: string, outcome: string)

  /** The dictionary handed to the translator. */
  datatype TaskInfo = TaskInfo(
    firstTask: bool,
    taskNum: int,
    hints: seq<string>,
    task: string,
    startSeq: int,
    previousOutcomes: seq<Summary>)

  /** The KeyError raised when a dependency has not been compiled yet. */
  datatype CompileError = MissingDependency(id: int)

  type Translator = TaskInfo -> Outcome

  // ------------------------------------------------------------------ plan access

  /** `plan.get("hints_from_user", [])`. */
  function HintsOf(plan: Plan): seq<string> {
    if plan.hintsFromUser.Some? then plan.hintsFromUser.value else []
  }

  /** `plan.get("task_list", [])`. */
  function Tasks(plan: Plan): seq<Task> {
    if plan.taskList.Some? then plan.taskList.value else []
  }

  /** `task_dependency.get(str(num), [])`: the dependency map is keyed by the decimal text. */
  function DepsOf(plan: Plan, num: int): seq<int> {
    if plan.taskDependency.None? then []
    else match Get(plan.taskDependency.value, IntToString(num))
      case Some(deps) => deps
      case None => []
  }

  // ------------------------------------------------------------------ task info

  /** Python's `x << k` on an arbitrary integer (negative ones included). */
  function ShiftLeft(x: int, k: nat): int {
    if k == 0 then x else 2 * ShiftLeft(x, k - 1)
  }

  function Pow2(k: nat): nat {
    if k == 0 then 1 else 2 * Pow2(k - 1)
  }

  /** Shifting left by `k` multiplies by 2^k, for negative numbers too. */
  lemma {:induction false} ShiftLeftMultiplies(x: int, k: nat)
    ensures ShiftLeft(x, k) == x * Pow2(k)
  {
    if k > 0 {
      ShiftLeftMultiplies(x, k - 1);
      assert x * Pow2(k) == 2 * (x * Pow2(k - 1));
    }
  }

  /** `create_task_info`: `-` binds tighter than `<<`, so the start is `((num - 1) << 4) + 1`. */
  function CreateTaskInfo(task: string, num: int, hints: seq<string>, previous: seq<Summary>): TaskInfo {
    TaskInfo(num == 1, num, hints, task, ShiftLeft(num - 1, 4) + 1, previous)
  }

  /** Task `num` starts its instructions at 16 * (num - 1) + 1; only task 1 is the first task. */
  lemma TaskInfoFields(task: string, num: int, hints: seq<string>, previous: seq<Summary>)
    ensures var info := CreateTaskInfo(task, num, hints, previous);
      info.startSeq == 16 * (num - 1) + 1
      && (info.firstTask <==> num == 1)
      && info.taskNum == num && info.task == task && info.hints == hints && info.previousOutcomes == previous
  {
    ShiftLeftMultiplies(num - 1, 4);
  }

  /** The task whose 16-wide instruction range holds sequence number `s`. */
  function OwnerOfSeq(s: int): int {
    (s - 1) / 16 + 1
  }

  /** Sequence number `s` lies in task `num`'s range exactly when `num` owns `s`. */
  lemma SeqRangeOwner(task: string, num: int, hints: seq<string>, previous: seq<Summary>, s: int)
    ensures var start := CreateTaskInfo(task, num, hints, previous).startSeq;
      start <= s < start + 16 <==> OwnerOfSeq(s) == num
  {
    TaskInfoFields(task, num, hints, previous);
    var q, r := (s - 1) / 16, (s - 1) % 16;
    assert s - 1 == 16 * q + r && 0 <= r < 16;
    if 16 * (num - 1) + 1 <= s < 16 * (num - 1) + 17 {
      assert 16 * (num - 1) <= 16 * q + r < 16 * (num - 1) + 16;
      assert q == num - 1;
    }
  }

  /** Distinct task numbers get disjoint instruction ranges. */
  lemma SeqRangesDisjoint(a: int, b: int, s: int)
    requires a != b
    ensures var sa, sb := CreateTaskInfo("", a, [], []).startSeq, CreateTaskInfo("", b, [], []).startSeq;
      !(sa <= s < sa + 16 && sb <= s < sb + 16)
  {
    SeqRangeOwner("", a, [], [], s);
    SeqRangeOwner("", b, [], [], s);
  }

  /** `check_diff`: the overall outcome changed. */
  function CheckDiff(outcome: Outcome, origin: Outcome): bool {
    outcome.overallOutcome != origin.overallOutcome
  }

  /** The entry stored in `task_outcomes` for a compiled task. */
  function SummaryOf(num: int, outcome: Outcome): Summary {
    Summary(num, outcome.task, outcome.overallOutcome)
  }

  /**
   * `[task_outcomes[i] for i in deps]`: the summaries in dependency order, or the first
   * dependency that has none.
   */
  function ResolveDeps(deps: seq<int>, known: map<int, Summary>): (r: Result<seq<Summary>, int>)
    ensures r.Success? <==> forall j :: 0 <= j < |deps| ==> deps[j] in known
    ensures r.Success? ==> |r.value| == |deps| && forall j :: 0 <= j < |deps| ==> r.value[j] == known[deps[j]]
    ensures r.Failure? ==> r.error !in known
    ensures r.Failure? ==> exists i :: 0 <= i < |deps| && deps[i] == r.error && forall j :: 0 <= j < i ==> deps[j] in known
  {
    if deps == [] then Success([])
    else if deps[0] !in known then Failure(deps[0])
    else match ResolveDeps(deps[1..], known)
      case Failure(missing) =>
        var i :| 0 <= i < |deps[1..]| && deps[1..][i] == missing && forall j :: 0 <= j < i ==> deps[1..][j] in known;
        assert deps[i + 1] == missing && forall j :: 0 <= j < i + 1 ==> deps[j] in known;
        Failure(missing)
      case Success(rest) => Success([known[deps[0]]] + rest)
  }

  // ------------------------------------------------------------------ the compilation fold

  /** `compile_plan` (WholePlan) or `compile_task_in_plan(target)` (FromTask). */
  datatype Mode = WholePlan | FromTask(target: int)

  /** One call of a compilation loop: its translator, plan, mode and the directory it starts on. */
  datatype Job = Job(translate: Translator, plan: Plan, mode: Mode, files0: map<int, Outcome>)

  /** The loop's variables: the directory, `task_outcomes`, `result` and the recompile flag. */
  datatype RunState = RunState(
    files: map<int, Outcome>,
    known: map<int, Summary>,
    results: seq<Outcome>,
    recompile: bool)

  /** The state reached so far, and the dependency whose lookup stopped the loop, if any. */
  datatype Progress = Progress(state: RunState, missing: Option<int>)

  /** Whether the stored file is loaded instead of translating the task again. */
  predicate Reuses(mode: Mode, num: int, files: map<int, Outcome>, recompile: bool) {
    match mode
    case WholePlan => false
    case FromTask(t) => (num < t && num in files) || (num > t && num in files && !recompile)
  }

  /** One iteration of the loop body for `task`. */
  function Step(job: Job, st: RunState, task: Task): Progress {
    var num := task.num;
    match ResolveDeps(DepsOf(job.plan, num), st.known)
    case Failure(missing) => Progress(st, Some(missing))
    case Success(previous) =>
      var info := CreateTaskInfo(task.task, num, HintsOf(job.plan), previous);
      var origin := Get(st.files, num);
      var reuse := Reuses(job.mode, num, st.files, st.recompile);
      var outcome := if reuse then st.files[num] else job.translate(info);
      var files := if reuse then st.files else st.files[num := outcome];
      var recompile :=
        if job.mode.FromTask? && num == job.mode.target then origin.None? || CheckDiff(outcome, origin.value)
        else st.recompile;
      Progress(RunState(files, st.known[num := SummaryOf(num, outcome)], st.results + [outcome], recompile), None)
  }

  /** One turn of the loop: nothing happens once a lookup has failed. */
  function Advance(job: Job, p: Progress, task: Task): Progress {
    if p.missing.Some? then p else Step(job, p.state, task)
  }

  /** The loop after its first `n` iterations. */
  function Run(job: Job, n: nat): Progress
    requires n <= |Tasks(job.plan)|
  {
    if n == 0 then Progress(RunState(job.files0, map[], [], false), None)
    else Advance(job, Run(job, n - 1), Tasks(job.plan)[n - 1])
  }

  /** The task info built for task `i`, when all its dependencies are known by then. */
  function TaskInfoAt(job: Job, i: nat): Option<TaskInfo>
    requires i < |Tasks(job.plan)|
  {
    var task := Tasks(job.plan)[i];
    match ResolveDeps(DepsOf(job.plan, task.num), Run(job, i).state.known)
    case Failure(_) => None
    case Success(previous) => Some(CreateTaskInfo(task.task, task.num, HintsOf(job.plan), previous))
  }

  /** The task numbers among the first `n` tasks. */
  function NumsBefore(tasks: seq<Task>, n: nat): set<int>
    requires n <= |tasks|
  {
    if n == 0 then {} else NumsBefore(tasks, n - 1) + {tasks[n - 1].num}
  }

  /** Whether every dependency in `deps` has a summary in `known`. */
  predicate AllKnown(deps: seq<int>, known: map<int, Summary>) {
    forall d :: d in deps ==> d in known
  }

  // One turn of the loop, one fact at a time; the lemmas about whole runs chain these.

  lemma AdvanceSucceedsIff(job: Job, p: Progress, task: Task)
    ensures Advance(job, p, task).missing.None?
      <==> p.missing.None? && AllKnown(DepsOf(job.plan, task.num), p.state.known)
  {
  }

  lemma AdvanceGrows(job: Job, p: Progress, task: Task)
    ensures var q := Advance(job, p, task);
      q.missing.None? ==>
        q.state.known.Keys == p.state.known.Keys + {task.num} && |q.state.results| == |p.state.results| + 1
  {
  }

  lemma AdvanceFrame(job: Job, p: Progress, task: Task, k: int)
    requires k != task.num
    ensures var q := Advance(job, p, task).state;
      (k in q.files <==> k in p.state.files) && (k in p.state.files ==> q.files[k] == p.state.files[k])
  {
  }

  lemma AdvanceKnownFrame(job: Job, p: Progress, task: Task, k: int)
    requires k != task.num
    ensures var q := Advance(job, p, task).state;
      (k in q.known <==> k in p.state.known) && (k in p.state.known ==> q.known[k] == p.state.known[k])
  {
  }

  lemma AdvanceKeepsFlag(job: Job, p: Progress, task: Task)
    requires !(job.mode.FromTask? && task.num == job.mode.target)
    ensures Advance(job, p, task).state.recompile == p.state.recompile
  {
  }

  lemma AdvanceKeepsFile(job: Job, p: Progress, task: Task, k: int)
    requires job.mode.FromTask? && k != job.mode.target && k in p.state.files
    requires task.num == k && k > job.mode.target ==> !p.state.recompile
    ensures var q := Advance(job, p, task).state;
      k in q.files && q.files[k] == p.state.files[k]
  {
  }

  // ------------------------------------------------------------------ properties of the fold

  /** Until a lookup fails, the loop has one result per task and knows exactly the tasks seen. */
  lemma {:induction false} RunShape(job: Job, n: nat)
    requires n <= |Tasks(job.plan)|
    ensures Run(job, n).missing.None? ==>
      |Run(job, n).state.results| == n && Run(job, n).state.known.Keys == NumsBefore(Tasks(job.plan), n)
  {
    if n > 0 {
      RunShape(job, n - 1);
      AdvanceGrows(job, Run(job, n - 1), Tasks(job.plan)[n - 1]);
    }
  }

  /** Once a lookup has failed, later iterations change nothing. */
  lemma {:induction false} RunStopsAtFailure(job: Job, i: nat, n: nat)
    requires i <= n <= |Tasks(job.plan)|
    requires Run(job, i).missing.Some?
    ensures Run(job, n) == Run(job, i)
  {
    if n > i {
      RunStopsAtFailure(job, i, n - 1);
    }
  }

  /** Whether every dependency of every one of the first `n` tasks is declared before it. */
  predicate DeclaredInOrder(plan: Plan, n: nat)
    requires n <= |Tasks(plan)|
  {
    n == 0 || (DeclaredInOrder(plan, n - 1) && DepsDeclaredBefore(plan, n - 1))
  }

  /** Whether every dependency of task `i` is the number of a task declared before it. */
  predicate DepsDeclaredBefore(plan: Plan, i: nat)
    requires i < |Tasks(plan)|
  {
    forall d :: d in DepsOf(plan, Tasks(plan)[i].num) ==> d in NumsBefore(Tasks(plan), i)
  }

  /** The same condition, task by task. */
  lemma {:induction false} DeclaredInOrderEveryTask(plan: Plan, n: nat)
    requires n <= |Tasks(plan)|
    ensures DeclaredInOrder(plan, n) <==> forall i :: 0 <= i < n ==> DepsDeclaredBefore(plan, i)
  {
    if n > 0 {
      DeclaredInOrderEveryTask(plan, n - 1);
      assert (forall i :: 0 <= i < n ==> DepsDeclaredBefore(plan, i))
        <==> (forall i :: 0 <= i < n - 1 ==> DepsDeclaredBefore(plan, i)) && DepsDeclaredBefore(plan, n - 1);
    }
  }

  /** Before task `i`, a dependency is known exactly when it is declared earlier. */
  lemma KnownIsDeclared(job: Job, i: nat)
    requires i < |Tasks(job.plan)| && Run(job, i).missing.None?
    ensures DepsDeclaredBefore(job.plan, i)
      <==> AllKnown(DepsOf(job.plan, Tasks(job.plan)[i].num), Run(job, i).state.known)
  {
    RunShape(job, i);
  }

  /**
   * A compilation fails exactly when some task depends on a task not declared before it:
   * declaration order must be a topological order. This holds in both modes.
   */
  lemma {:induction false} RunSucceedsIffDeclaredInOrder(job: Job, n: nat)
    requires n <= |Tasks(job.plan)|
    ensures Run(job, n).missing.None? <==> DeclaredInOrder(job.plan, n)
  {
    if n > 0 {
      RunSucceedsIffDeclaredInOrder(job, n - 1);
      RunSucceedsStep(job, n);
      assert DeclaredInOrder(job.plan, n) <==> DeclaredInOrder(job.plan, n - 1) && DepsDeclaredBefore(job.plan, n - 1);
    }
  }

  /** Iteration `n - 1` succeeds iff the loop got that far and that task's dependencies come earlier. */
  lemma RunSucceedsStep(job: Job, n: nat)
    requires 0 < n <= |Tasks(job.plan)|
    ensures Run(job, n).missing.None? <==> Run(job, n - 1).missing.None? && DepsDeclaredBefore(job.plan, n - 1)
  {
    var p, task := Run(job, n - 1), Tasks(job.plan)[n - 1];
    assert Run(job, n) == Advance(job, p, task);
    AdvanceSucceedsIff(job, p, task);
    if p.missing.None? {
      KnownIsDeclared(job, n - 1);
    }
  }

  /** A successful iteration appends exactly one outcome and records its summary. */
  lemma StepRecordsOutcome(job: Job, i: nat)
    requires i < |Tasks(job.plan)|
    requires Run(job, i + 1).missing.None?
    ensures Run(job, i).missing.None? && TaskInfoAt(job, i).Some?
    ensures var before, after, num := Run(job, i).state, Run(job, i + 1).state, Tasks(job.plan)[i].num;
      exists o :: after.results == before.results + [o] && after.known == before.known[num := SummaryOf(num, o)]
  {
  }

  /** `compile_plan` translates every task and writes its file. */
  lemma WholePlanTranslatesEachTask(job: Job, i: nat)
    requires job.mode == WholePlan && i < |Tasks(job.plan)|
    requires Run(job, i + 1).missing.None?
    ensures Run(job, i).missing.None? && TaskInfoAt(job, i).Some?
    ensures var o := job.translate(TaskInfoAt(job, i).value); var num := Tasks(job.plan)[i].num;
      Run(job, i + 1).state.results == Run(job, i).state.results + [o]
      && Run(job, i + 1).state.files == Run(job, i).state.files[num := o]
  {
    StepRecordsOutcome(job, i);
  }

  /** The target task is always translated again and rewritten, whatever its file holds. */
  lemma TargetAlwaysRetranslated(job: Job, i: nat)
    requires job.mode.FromTask? && i < |Tasks(job.plan)| && Tasks(job.plan)[i].num == job.mode.target
    requires Run(job, i + 1).missing.None?
    ensures Run(job, i).missing.None? && TaskInfoAt(job, i).Some?
    ensures var o := job.translate(TaskInfoAt(job, i).value); var num := Tasks(job.plan)[i].num;
      var before := Run(job, i).state;
      Run(job, i + 1).state.results == before.results + [o]
      && Run(job, i + 1).state.files == before.files[num := o]
      && Run(job, i + 1).state.recompile
        == (num !in before.files || CheckDiff(o, before.files[num]))
  {
    StepRecordsOutcome(job, i);
  }

  /** A task numbered below the target whose file exists is loaded, not rewritten. */
  lemma EarlierTaskReused(job: Job, i: nat)
    requires job.mode.FromTask? && i < |Tasks(job.plan)|
    requires Tasks(job.plan)[i].num < job.mode.target
    requires Run(job, i + 1).missing.None?
    requires Tasks(job.plan)[i].num in Run(job, i).state.files
    ensures var before, num := Run(job, i).state, Tasks(job.plan)[i].num;
      Run(job, i + 1).state.results == before.results + [before.files[num]]
      && Run(job, i + 1).state.files == before.files
  {
    StepRecordsOutcome(job, i);
  }

  /** A task without a file is always translated and written. */
  lemma MissingFileCompiled(job: Job, i: nat)
    requires i < |Tasks(job.plan)|
    requires Run(job, i + 1).missing.None?
    requires Tasks(job.plan)[i].num !in Run(job, i).state.files
    ensures Run(job, i).missing.None? && TaskInfoAt(job, i).Some?
    ensures var o := job.translate(TaskInfoAt(job, i).value); var num := Tasks(job.plan)[i].num;
      Run(job, i + 1).state.results == Run(job, i).state.results + [o]
      && Run(job, i + 1).state.files == Run(job, i).state.files[num := o]
  {
    StepRecordsOutcome(job, i);
  }

  /** Once the flag is set, every later task is translated again, whatever its dependencies. */
  lemma ChangedTargetRetranslatesLater(job: Job, i: nat)
    requires job.mode.FromTask? && i < |Tasks(job.plan)|
    requires Tasks(job.plan)[i].num > job.mode.target
    requires Run(job, i + 1).missing.None? && Run(job, i).state.recompile
    ensures Run(job, i).missing.None? && TaskInfoAt(job, i).Some?
    ensures var o := job.translate(TaskInfoAt(job, i).value); var num := Tasks(job.plan)[i].num;
      Run(job, i + 1).state.results == Run(job, i).state.results + [o]
      && Run(job, i + 1).state.files == Run(job, i).state.files[num := o]
  {
    StepRecordsOutcome(job, i);
  }

  /** Without the flag, a later task whose file exists is loaded, not rewritten. */
  lemma UnchangedTargetReusesLater(job: Job, i: nat)
    requires job.mode.FromTask? && i < |Tasks(job.plan)|
    requires Tasks(job.plan)[i].num > job.mode.target
    requires Run(job, i + 1).missing.None? && !Run(job, i).state.recompile
    requires Tasks(job.plan)[i].num in Run(job, i).state.files
    ensures var before, num := Run(job, i).state, Tasks(job.plan)[i].num;
      Run(job, i + 1).state.results == before.results + [before.files[num]]
      && Run(job, i + 1).state.files == before.files
  {
    StepRecordsOutcome(job, i);
  }

  /** The flag is False until the target task has been compiled. */
  lemma {:induction false} NoRecompileBeforeTarget(job: Job, n: nat)
    requires job.mode.FromTask? && n <= |Tasks(job.plan)|
    requires forall j :: 0 <= j < n ==> Tasks(job.plan)[j].num != job.mode.target
    ensures !Run(job, n).state.recompile
  {
    if n > 0 {
      NoRecompileBeforeTarget(job, n - 1);
      AdvanceKeepsFlag(job, Run(job, n - 1), Tasks(job.plan)[n - 1]);
    }
  }

  /** Only the target task sets the flag: between two occurrences of it the flag keeps its value. */
  lemma {:induction false} RecompileChangesOnlyAtTarget(job: Job, i: nat, n: nat)
    requires job.mode.FromTask? && i <= n <= |Tasks(job.plan)|
    requires forall j :: i <= j < n ==> Tasks(job.plan)[j].num != job.mode.target
    ensures Run(job, n).state.recompile == Run(job, i).state.recompile
  {
    if n > i {
      RecompileChangesOnlyAtTarget(job, i, n - 1);
      AdvanceKeepsFlag(job, Run(job, n - 1), Tasks(job.plan)[n - 1]);
    }
  }

  /** A file whose number no task in `[i, n)` carries is neither created, removed nor changed there. */
  lemma {:induction false} FilesUntouchedBetween(job: Job, i: nat, n: nat, k: int)
    requires i <= n <= |Tasks(job.plan)|
    requires forall j :: i <= j < n ==> Tasks(job.plan)[j].num != k
    ensures (k in Run(job, n).state.files <==> k in Run(job, i).state.files)
    ensures k in Run(job, i).state.files ==> Run(job, n).state.files[k] == Run(job, i).state.files[k]
  {
    if n > i {
      FilesUntouchedBetween(job, i, n - 1, k);
      AdvanceFrame(job, Run(job, n - 1), Tasks(job.plan)[n - 1], k);
    }
  }

  /** The numbers a task in `[0, n)` carries are the members of `NumsBefore`. */
  lemma {:induction false} NumsBeforeMembers(tasks: seq<Task>, n: nat, k: int)
    requires n <= |tasks|
    ensures k !in NumsBefore(tasks, n) <==> forall j :: 0 <= j < n ==> tasks[j].num != k
  {
    if n > 0 {
      NumsBeforeMembers(tasks, n - 1, k);
    }
  }

  /** Files of tasks outside the plan are left as they were. */
  lemma FilesOutsidePlanUntouched(job: Job, k: int)
    requires k !in NumsBefore(Tasks(job.plan), |Tasks(job.plan)|)
    ensures var files := Run(job, |Tasks(job.plan)|).state.files;
      (k in files <==> k in job.files0) && (k in job.files0 ==> files[k] == job.files0[k])
  {
    NumsBeforeMembers(Tasks(job.plan), |Tasks(job.plan)|, k);
    FilesUntouchedBetween(job, 0, |Tasks(job.plan)|, k);
  }

  /** Task numbers among the first `n` tasks are pairwise distinct. */
  predicate DistinctNums(tasks: seq<Task>, n: nat)
    requires n <= |tasks|
  {
    forall i, j :: 0 <= i < j < n ==> tasks[i].num != tasks[j].num
  }

  /** A run that succeeds has succeeded at every earlier point, with a prefix of its results. */
  lemma {:induction false} RunSuccessPrefix(job: Job, i: nat, n: nat)
    requires i <= n <= |Tasks(job.plan)|
    requires Run(job, n).missing.None?
    ensures Run(job, i).missing.None?
    ensures i <= |Run(job, n).state.results| && Run(job, i).state.results == Run(job, n).state.results[..i]
    decreases n
  {
    if n == i {
      RunShape(job, n);
      assert Run(job, n).state.results[..n] == Run(job, n).state.results;
    } else {
      RunExtendsResults(job, n);
      RunSuccessPrefix(job, i, n - 1);
      PrefixOfPrefix(Run(job, n).state.results, Run(job, n - 1).state.results, i);
    }
  }

  /** A successful turn keeps the results so far as a prefix and appends one. */
  lemma RunExtendsResults(job: Job, n: nat)
    requires 0 < n <= |Tasks(job.plan)| && Run(job, n).missing.None?
    ensures Run(job, n - 1).missing.None?
    ensures var before, after := Run(job, n - 1).state.results, Run(job, n).state.results;
      |after| == |before| + 1 && after[..|before|] == before
  {
    var p := Run(job, n - 1);
    assert Run(job, n) == Advance(job, p, Tasks(job.plan)[n - 1]);
  }

  lemma PrefixOfPrefix<T>(xs: seq<T>, ys: seq<T>, i: nat)
    requires |ys| <= |xs| && ys == xs[..|ys|] && i <= |ys|
    ensures xs[..i] == ys[..i]
  {
  }

  /** After `compile_plan`, file `num` holds the result of the last task carrying that number. */
  lemma WholePlanFileHoldsResult(job: Job, n: nat, i: nat)
    requires job.mode == WholePlan && i < n <= |Tasks(job.plan)|
    requires forall j :: i < j < n ==> Tasks(job.plan)[j].num != Tasks(job.plan)[i].num
    requires Run(job, n).missing.None?
    ensures var files, results := Run(job, n).state.files, Run(job, n).state.results;
      i < |results| && Tasks(job.plan)[i].num in files && files[Tasks(job.plan)[i].num] == results[i]
  {
    ResultKeptAfterStep(job, n, i);
    StepStoresResult(job, i);
    FilesUntouchedBetween(job, i + 1, n, Tasks(job.plan)[i].num);
  }

  /** The result appended for task `i` is still the `i`-th result at any later point. */
  lemma ResultKeptAfterStep(job: Job, n: nat, i: nat)
    requires i < n <= |Tasks(job.plan)| && Run(job, n).missing.None?
    ensures Run(job, i + 1).missing.None? && i < |Run(job, i + 1).state.results|
    ensures i < |Run(job, n).state.results| && Run(job, n).state.results[i] == Run(job, i + 1).state.results[i]
  {
    RunSuccessPrefix(job, i + 1, n);
    var mid, last := Run(job, i + 1).state.results, Run(job, n).state.results;
    assert mid == last[..i + 1];
    assert |mid| == i + 1;
  }

  /**
   * Right after task `i`, its summary is recorded under its number and, when compiling the
   * whole plan, its file holds the result appended for it.
   */
  lemma StepStoresResult(job: Job, i: nat)
    requires i < |Tasks(job.plan)| && Run(job, i + 1).missing.None?
    ensures var st, num := Run(job, i + 1).state, Tasks(job.plan)[i].num;
      |st.results| == i + 1 && num in st.known && st.known[num] == SummaryOf(num, st.results[i])
      && (job.mode == WholePlan ==> num in st.files && st.files[num] == st.results[i])
  {
    RunShape(job, i + 1);
    StepRecordsOutcome(job, i);
    RunShape(job, i);
  }

  /** `compile_plan` returns, for each task, the translation of the task info built for it. */
  lemma WholePlanResultIsTranslation(job: Job, i: nat)
    requires job.mode == WholePlan && i < |Tasks(job.plan)|
    requires Run(job, |Tasks(job.plan)|).missing.None?
    ensures TaskInfoAt(job, i).Some?
    ensures var results := Run(job, |Tasks(job.plan)|).state.results;
      i < |results| && results[i] == job.translate(TaskInfoAt(job, i).value)
  {
    RunSuccessPrefix(job, i + 1, |Tasks(job.plan)|);
    WholePlanTranslatesEachTask(job, i);
    RunShape(job, i);
    assert Run(job, i + 1).state.results[i] == job.translate(TaskInfoAt(job, i).value);
  }

  /** The summaries handed to task `i` are those of its dependencies, in dependency order. */
  lemma PreviousOutcomesFollowDependencies(job: Job, i: nat)
    requires i < |Tasks(job.plan)| && TaskInfoAt(job, i).Some?
    ensures var deps, known := DepsOf(job.plan, Tasks(job.plan)[i].num), Run(job, i).state.known;
      var previous := TaskInfoAt(job, i).value.previousOutcomes;
      |previous| == |deps| && forall m :: 0 <= m < |deps| ==> deps[m] in known && previous[m] == known[deps[m]]
  {
    var task := Tasks(job.plan)[i];
    var r := ResolveDeps(DepsOf(job.plan, task.num), Run(job, i).state.known);
    TaskInfoFields(task.task, task.num, HintsOf(job.plan), r.value);
  }

  /** A summary whose number no task in `[i, n)` carries is neither added, removed nor changed there. */
  lemma {:induction false} KnownUntouchedBetween(job: Job, i: nat, n: nat, k: int)
    requires i <= n <= |Tasks(job.plan)|
    requires forall j :: i <= j < n ==> Tasks(job.plan)[j].num != k
    ensures (k in Run(job, n).state.known <==> k in Run(job, i).state.known)
    ensures k in Run(job, i).state.known ==> Run(job, n).state.known[k] == Run(job, i).state.known[k]
  {
    if n > i {
      KnownUntouchedBetween(job, i, n - 1, k);
      AdvanceKnownFrame(job, Run(job, n - 1), Tasks(job.plan)[n - 1], k);
    }
  }

  /**
   * Before task `n`, the summary recorded under a number is that of the last earlier task
   * carrying it: its number, its task text and its overall outcome.
   */
  lemma KnownHoldsLastSummary(job: Job, n: nat, j: nat)
    requires j < n <= |Tasks(job.plan)| && Run(job, n).missing.None?
    requires forall k :: j < k < n ==> Tasks(job.plan)[k].num != Tasks(job.plan)[j].num
    ensures var num, st := Tasks(job.plan)[j].num, Run(job, n).state;
      j < |st.results| && num in st.known && st.known[num] == Summary(num, st.results[j].task, st.results[j].overallOutcome)
  {
    ResultKeptAfterStep(job, n, j);
    StepStoresResult(job, j);
    KnownUntouchedBetween(job, j + 1, n, Tasks(job.plan)[j].num);
  }

  /** After `compile_plan` with distinct task numbers, file `num` holds that task's result. */
  lemma WholePlanFilesHoldResults(job: Job)
    requires job.mode == WholePlan && DistinctNums(Tasks(job.plan), |Tasks(job.plan)|)
    requires Run(job, |Tasks(job.plan)|).missing.None?
    ensures var files, results := Run(job, |Tasks(job.plan)|).state.files, Run(job, |Tasks(job.plan)|).state.results;
      |results| == |Tasks(job.plan)|
      && forall i :: 0 <= i < |Tasks(job.plan)| ==>
        Tasks(job.plan)[i].num in files && files[Tasks(job.plan)[i].num] == results[i]
  {
    var n := |Tasks(job.plan)|;
    RunShape(job, n);
    forall i | 0 <= i < n
      ensures Tasks(job.plan)[i].num in Run(job, n).state.files
      ensures Run(job, n).state.files[Tasks(job.plan)[i].num] == Run(job, n).state.results[i]
    {
      WholePlanFileHoldsResult(job, n, i);
    }
  }

  /** An existing file numbered below the target survives `compile_task_in_plan` unchanged. */
  lemma {:induction false} EarlierFilesKept(job: Job, n: nat, k: int)
    requires job.mode.FromTask? && n <= |Tasks(job.plan)|
    requires k < job.mode.target && k in job.files0
    ensures k in Run(job, n).state.files && Run(job, n).state.files[k] == job.files0[k]
  {
    if n > 0 {
      EarlierFilesKept(job, n - 1, k);
      AdvanceKeepsFile(job, Run(job, n - 1), Tasks(job.plan)[n - 1], k);
    }
  }

  /**
   * An existing file numbered above the target survives unchanged as long as the flag is
   * False whenever its task comes up: with an unchanged target outcome nothing later is
   * rewritten.
   */
  lemma {:induction false} LaterFilesKeptWhileUnchanged(job: Job, n: nat, k: int)
    requires job.mode.FromTask? && n <= |Tasks(job.plan)|
    requires k > job.mode.target && k in job.files0
    requires forall j :: 0 <= j < n && Tasks(job.plan)[j].num == k ==> !Run(job, j).state.recompile
    ensures k in Run(job, n).state.files && Run(job, n).state.files[k] == job.files0[k]
  {
    if n > 0 {
      LaterFilesKeptWhileUnchanged(job, n - 1, k);
      AdvanceKeepsFile(job, Run(job, n - 1), Tasks(job.plan)[n - 1], k);
    }
  }

  // ------------------------------------------------------------------ the compiler object

  /** What a compilation loop returns: the outcome list, or the KeyError of the failed lookup. */
  function Returned(p: Progress): Result<seq<Outcome>, CompileError>
  {
    if p.missing.None? then Success(p.state.results) else Failure(MissingDependency(p.missing.value))
  }

  /** A compilation loop returns its outcome list exactly when the plan is declared in dependency order. */
  lemma ReturnedIffDeclaredInOrder(job: Job)
    ensures Returned(Run(job, |Tasks(job.plan)|)).Success? <==> DeclaredInOrder(job.plan, |Tasks(job.plan)|)
  {
    RunSucceedsIffDeclaredInOrder(job, |Tasks(job.plan)|);
  }

  /** The compiler and the task directory it writes `<num>.yaml` files into. */
  class Compiler {
    const translate: Translator
    var files: map<int, Outcome>

    constructor(translate: Translator, files: map<int, Outcome>)
      ensures this.translate == translate && this.files == files
    {
      this.translate := translate;
      this.files := files;
    }

    /** `compile_plan`: translate every task in order; a missing dependency raises. */
    method CompilePlan(plan: Plan) returns (r: Result<seq<Outcome>, CompileError>)
      modifies this
      ensures var p := Run(Job(translate, plan, WholePlan, old(files)), |Tasks(plan)|);
        files == p.state.files && r == Returned(p)
    {
      var job := Job(translate, plan, WholePlan, files);
      var tasks := Tasks(plan);
      var st := RunState(files, map[], [], false);
      for i := 0 to |tasks|
        invariant job.files0 == old(files) && job.translate == translate
        invariant Run(job, i) == Progress(st, None) && files == st.files
      {
        var p := CompilePlanIteration(job, st, tasks[i]);
        if p.missing.Some? {
          RunStopsAtFailure(job, i + 1, |tasks|);
          return Returned(p);
        }
        st := p.state;
      }
      return Returned(Progress(st, None));
    }

    /** The body of `compile_plan`'s loop for one task. */
    method CompilePlanIteration(job: Job, st: RunState, task: Task) returns (p: Progress)
      requires job.translate == translate && job.mode == WholePlan && st.files == files
      modifies this
      ensures p == Step(job, st, task) && files == p.state.files
    {
      var num := task.num;
      var previous := ResolveDeps(DepsOf(job.plan, num), st.known);
      if previous.Failure? {
        return Progress(st, Some(previous.error));
      }
      var info := CreateTaskInfo(task.task, num, HintsOf(job.plan), previous.value);
      var outcome := translate(info);
      files := files[num := outcome];
      return Progress(RunState(files, st.known[num := SummaryOf(num, outcome)], st.results + [outcome], st.recompile), None);
    }

    /**
     * `compile_task_in_plan`: earlier tasks with a file are loaded, the target is translated
     * again, and later tasks are translated again only when the target's overall outcome
     * changed or it had no file before.
     */
    method CompileTaskInPlan(plan: Plan, target: int) returns (r: Result<seq<Outcome>, CompileError>)
      modifies this
      ensures var p := Run(Job(translate, plan, FromTask(target), old(files)), |Tasks(plan)|);
        files == p.state.files && r == Returned(p)
    {
      var job := Job(translate, plan, FromTask(target), files);
      var tasks := Tasks(plan);
      var st := RunState(files, map[], [], false);
      for i := 0 to |tasks|
        invariant job.files0 == old(files) && job.translate == translate
        invariant Run(job, i) == Progress(st, None) && files == st.files
      {
        var p := CompileInPlanIteration(job, st, tasks[i]);
        if p.missing.Some? {
          RunStopsAtFailure(job, i + 1, |tasks|);
          return Returned(p);
        }
        st := p.state;
      }
      return Returned(Progress(st, None));
    }

    /** The body of `compile_task_in_plan`'s loop for one task. */
    method CompileInPlanIteration(job: Job, st: RunState, task: Task) returns (p: Progress)
      requires job.translate == translate && job.mode.FromTask? && st.files == files
      modifies this
      ensures p == Step(job, st, task) && files == p.state.files
    {
      var target := job.mode.target;
      var num := task.num;
      var previous := ResolveDeps(DepsOf(job.plan, num), st.known);
      if previous.Failure? {
        return Progress(st, Some(previous.error));
      }
      var info := CreateTaskInfo(task.task, num, HintsOf(job.plan), previous.value);
      var origin := Get(files, num);
      var loaded: Option<Outcome> := None;
      if num < target && num in files {
        loaded := Some(files[num]);
      } else if num > target && num in files && !st.recompile {
        loaded := Some(files[num]);
      }
      var outcome: Outcome;
      if loaded.None? {
        outcome := translate(info);
        files := files[num := outcome];
      } else {
        outcome := loaded.value;
      }
      var recompile := st.recompile;
      if num == target {
        recompile := if origin.Some? then CheckDiff(outcome, origin.value) else true;
      }
      return Progress(RunState(files, st.known[num := SummaryOf(num, outcome)], st.results + [outcome], recompile), None);
    }

    /** `compile_task`: translate one task and write exactly its file. */
    method CompileTask(num: int, task: string, hints: seq<string>, previous: seq<Summary>) returns (r: Outcome)
      modifies this
      ensures r == translate(CreateTaskInfo(task, num, hints, previous))
      ensures files == old(files)[num := r]
    {
      var info := CreateTaskInfo(task, num, hints, previous);
      r := translate(info);
      files := files[num := r];
    }
  }
}
