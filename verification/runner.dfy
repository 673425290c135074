/** The run scheduler: admission of a file against the parallelism cap, the LIFO run queue, the
    completion of a run (publication of its diagnostics, then the drain of one queued file), and
    cancellation. JavaScript runs each synchronous stretch of `run` without interruption, so each
    stretch is one atomic step here. */
module Runner {
  import opened Wrappers
  import opened Sequences
  import opened Configuration
  import opened Tasks
  import opened Diagnostics

  /* ---------------------------------------------------------------------------------------- */
  /* The tools of one run                                                                      */
  /* ---------------------------------------------------------------------------------------- */

  /** How one tool is configured: whether it is enabled, its parsing expression and its three
      keyword lists. */
  datatype ToolConfig = ToolConfig(enabled: bool, parsingExpression: string -> seq<Match>, keywords: seq<seq<string>>)

  /** One slot of the `Promise.all` of `run`: the tool's configuration and the task its builder
      produces for the file (or the error it throws). */
  datatype ToolSlot = ToolSlot(config: ToolConfig, task: Result<Task, TaskError>)

  /** The configuration `run` reads. */
  datatype RunConfig = RunConfig(
    compiler: ToolConfig, compilerSettings: CompilerSettings,
    clangTidy: ToolConfig, clangTidySettings: ClangTidySettings,
    cppCheck: ToolConfig, cppCheckSettings: CppCheckSettings)

  /** The three slots of a run, in the order compiler, clang-tidy, cppcheck. */
  function Slots(file: Uri, host: Host, config: RunConfig): seq<ToolSlot> {
    [ToolSlot(config.compiler, CompileTask(file, host, config.compilerSettings)),
     ToolSlot(config.clangTidy, ClangTidyTask(file, host, config.clangTidySettings)),
     ToolSlot(config.cppCheck, CppCheckTask(file, host, config.cppCheckSettings))]
  }

  /** What one slot resolves to: the empty output for a disabled tool, a failure when the builder
      throws, otherwise what running the task yields. A tool process that fails or is killed
      still yields an output (possibly empty); `execute` is `None` only when starting the task
      throws. */
  function SlotOutput(slot: ToolSlot, execute: Task -> Option<string>): (r: Option<string>)
    ensures !slot.config.enabled ==> r == Some("")
    ensures slot.config.enabled && slot.task.Err? ==> r.None?
    ensures slot.config.enabled && slot.task.Ok? ==> r == execute(slot.task.value)
  {
    if !slot.config.enabled then Some("")
    else if slot.task.Err? then None
    else execute(slot.task.value)
  }

  predicate HasKeywordLists(slots: seq<ToolSlot>) {
    forall i :: 0 <= i < |slots| ==> |slots[i].config.keywords| >= 3
  }

  /** The outcome of the `try` around `Promise.all`: `None` when any slot fails (`success` is then
      false), otherwise one task result per slot, built from the slot's output, expression and
      keyword lists. */
  function RunOutcome(slots: seq<ToolSlot>, execute: Task -> Option<string>): (r: Option<seq<TaskResult>>)
    requires HasKeywordLists(slots)
    ensures r.Some? <==> forall i :: 0 <= i < |slots| ==> SlotOutput(slots[i], execute).Some?
    ensures r.Some? ==> |r.value| == |slots|
    ensures r.Some? ==> forall i :: 0 <= i < |slots| ==>
      r.value[i] == NewTaskResult(SlotOutput(slots[i], execute).value, slots[i].config.parsingExpression, slots[i].config.keywords)
  {
    if slots == [] then Some([])
    else
      var init := RunOutcome(slots[..|slots| - 1], execute);
      var last := slots[|slots| - 1];
      var output := SlotOutput(last, execute);
      if init.None? || output.None? then
        assert init.None? ==> exists i :: 0 <= i < |slots| - 1 && SlotOutput(slots[i], execute).None? by {
          if init.None? {
            var i :| 0 <= i < |slots| - 1 && SlotOutput(slots[..|slots| - 1][i], execute).None?;
            assert slots[..|slots| - 1][i] == slots[i];
          }
        }
        None
      else
        var r := init.value + [NewTaskResult(output.value, last.config.parsingExpression, last.config.keywords)];
        assert forall i :: 0 <= i < |slots| - 1 ==> slots[..|slots| - 1][i] == slots[i];
        Some(r)
  }

  /** A task builder that throws for an enabled tool fails the whole run. */
  lemma BuilderErrorFailsRun(slots: seq<ToolSlot>, execute: Task -> Option<string>, i: nat)
    requires HasKeywordLists(slots)
    requires i < |slots| && slots[i].config.enabled && slots[i].task.Err?
    ensures RunOutcome(slots, execute).None?
  {
  }

  /** A tool fails a run when it is enabled and either its builder throws or starting its task
      throws. */
  predicate ToolFails(config: ToolConfig, task: Result<Task, TaskError>, execute: Task -> Option<string>) {
    config.enabled && (task.Err? || execute(task.value).None?)
  }

  /** The `catch` of `run` is reached, and nothing is published, exactly when one of the three
      tools fails. */
  lemma RunFailsExactly(file: Uri, host: Host, config: RunConfig, execute: Task -> Option<string>)
    requires HasKeywordLists(Slots(file, host, config))
    ensures RunOutcome(Slots(file, host, config), execute).None? <==>
      ToolFails(config.compiler, CompileTask(file, host, config.compilerSettings), execute) ||
      ToolFails(config.clangTidy, ClangTidyTask(file, host, config.clangTidySettings), execute) ||
      ToolFails(config.cppCheck, CppCheckTask(file, host, config.cppCheckSettings), execute)
  {
    var slots := Slots(file, host, config);
    if RunOutcome(slots, execute).None? {
      var i :| 0 <= i < |slots| && SlotOutput(slots[i], execute).None?;
      assert i == 0 || i == 1 || i == 2;
    } else {
      assert SlotOutput(slots[0], execute).Some? && SlotOutput(slots[1], execute).Some? && SlotOutput(slots[2], execute).Some?;
    }
  }

  /** A run whose three tools are disabled succeeds with three empty outputs. */
  lemma DisabledToolsYieldEmptyOutputs(file: Uri, host: Host, config: RunConfig, execute: Task -> Option<string>)
    requires !config.compiler.enabled && !config.clangTidy.enabled && !config.cppCheck.enabled
    requires HasKeywordLists(Slots(file, host, config))
    ensures var r := RunOutcome(Slots(file, host, config), execute);
      r.Some? && |r.value| == 3 && r.value[0].output == "" && r.value[1].output == "" && r.value[2].output == ""
  {
    var slots := Slots(file, host, config);
    assert forall i :: 0 <= i < 3 ==> !slots[i].config.enabled;
  }

  /* ---------------------------------------------------------------------------------------- */
  /* The scheduler as a state machine                                                          */
  /* ---------------------------------------------------------------------------------------- */

  /** `_running` and `_runQueue`; both hold their most recent file first. */
  datatype SchedulerState = SchedulerState(running: seq<Uri>, queue: seq<Uri>)

  /** What admission does with a submitted file. */
  datatype Admission = AlreadyRunning | Queued | AlreadyQueued | Admitted

  /** What the end of a completion does: nothing when the queue is empty, otherwise the head of
      the queue is submitted again with the given admission. */
  datatype Drain = QueueEmpty | Resubmitted(file: Uri, admission: Admission) | Abandoned

  /** Neither sequence holds a file twice. */
  predicate Inv(s: SchedulerState) {
    NoDup(s.running) && NoDup(s.queue)
  }

  /** How `run` admits `file`: skipped when running, queued (or left queued) at the cap,
      admitted below it. */
  function AdmissionOf(s: SchedulerState, file: Uri, cap: int): (r: Admission)
    ensures r == AlreadyRunning <==> file in s.running
    ensures r == Admitted <==> file !in s.running && |s.running| < cap
    ensures r == Queued <==> file !in s.running && |s.running| >= cap && file !in s.queue
  {
    if file in s.running then AlreadyRunning
    else if |s.running| >= cap then (if file !in s.queue then Queued else AlreadyQueued)
    else Admitted
  }

  /** The admission step of `run`: a running file is skipped; when the cap is reached a file not
      yet queued goes to the front of the queue; otherwise the file goes to the front of
      `_running`. */
  function AfterSubmit(s: SchedulerState, file: Uri, cap: int): (r: SchedulerState)
    ensures file in r.running || file in r.queue
    ensures forall x :: x != file ==> (x in r.running <==> x in s.running) && (x in r.queue <==> x in s.queue)
  {
    match AdmissionOf(s, file, cap)
    case AlreadyRunning => s
    case AlreadyQueued => s
    case Queued => SchedulerState(s.running, [file] + s.queue)
    case Admitted => SchedulerState([file] + s.running, s.queue)
  }

  /** The start of the completion step, and `cancelRun`: the file, if still running, stops
      running; the queue is not touched. */
  function Stopped(s: SchedulerState, file: Uri): (r: SchedulerState)
    ensures r.queue == s.queue
    ensures forall x :: x != file ==> (x in r.running <==> x in s.running)
  {
    var running := RemoveFirst(s.running, file);
    assert forall x :: x != file ==> (x in running <==> x in s.running) by {
      forall x | x != file
        ensures x in running <==> x in s.running
      {
        assert multiset(running)[x] == multiset(s.running)[x];
      }
    }
    SchedulerState(running, s.queue)
  }

  /** What the end of a completion reports: nothing to do on an empty queue, otherwise the head
      of the queue and how it is admitted. Since the head is taken off first, a duplicate-free
      queue never reports it as already queued. */
  function DrainOf(s: SchedulerState, file: Uri, cap: int): (r: Drain)
    ensures r != Abandoned
    ensures r == QueueEmpty <==> s.queue == []
    ensures r.Resubmitted? ==> r.file == s.queue[0]
    ensures r.Resubmitted? && Inv(s) ==> r.admission != AlreadyQueued
  {
    var f := Stopped(s, file);
    if f.queue == [] then QueueEmpty
    else
      assert Inv(s) ==> f.queue[0] !in f.queue[1..] by {
        if Inv(s) {
          HeadNotInTail(f.queue);
        }
      }
      Resubmitted(f.queue[0], AdmissionOf(SchedulerState(f.running, f.queue[1..]), f.queue[0], cap))
  }

  /** The completion step of `run`: the file stops running, then the head of the queue is taken
      off and submitted again. */
  function AfterComplete(s: SchedulerState, file: Uri, cap: int): (r: SchedulerState)
    ensures s.queue != [] ==> s.queue[0] in r.running || s.queue[0] in r.queue
    ensures forall x :: x != file && (s.queue == [] || x != s.queue[0]) ==>
      (x in r.running <==> x in s.running) && (x in r.queue <==> x in s.queue)
  {
    var f := Stopped(s, file);
    if f.queue == [] then f
    else AfterSubmit(SchedulerState(f.running, f.queue[1..]), f.queue[0], cap)
  }

  /** Submission of several files in turn, first to last. */
  function SubmitAll(s: SchedulerState, files: seq<Uri>, cap: int): SchedulerState
    decreases |files|
  {
    if files == [] then s else SubmitAll(AfterSubmit(s, files[0], cap), files[1..], cap)
  }

  lemma ConsNoDup<T>(x: T, s: seq<T>)
    requires NoDup(s) && x !in s
    ensures NoDup([x] + s)
  {
    forall i, j | 0 <= i < j < |[x] + s| ensures ([x] + s)[i] != ([x] + s)[j] {
      if i > 0 {
        assert ([x] + s)[i] == s[i - 1] && ([x] + s)[j] == s[j - 1];
      } else {
        assert ([x] + s)[j] == s[j - 1];
      }
    }
  }

  /** Admission keeps both sequences free of duplicates and, for a fixed cap, never lets more
      than `cap` files run. */
  lemma SubmitPreservesInvariant(s: SchedulerState, file: Uri, cap: int)
    requires Inv(s)
    ensures Inv(AfterSubmit(s, file, cap))
    ensures |s.running| <= cap ==> |AfterSubmit(s, file, cap).running| <= cap
  {
    match AdmissionOf(s, file, cap)
    case AlreadyRunning =>
    case AlreadyQueued =>
    case Queued => ConsNoDup(file, s.queue);
    case Admitted => ConsNoDup(file, s.running);
  }

  /** What admission does, case by case: a running file changes nothing; at the cap a file not yet
      queued is put in front of the queue and a queued one changes nothing; below the cap the file
      is put in front of `_running`. */
  lemma SubmitCases(s: SchedulerState, file: Uri, cap: int)
    ensures file in s.running ==> AfterSubmit(s, file, cap) == s
    ensures file !in s.running && |s.running| >= cap ==>
      AfterSubmit(s, file, cap).running == s.running &&
      AfterSubmit(s, file, cap).queue == (if file in s.queue then s.queue else [file] + s.queue)
    ensures file !in s.running && |s.running| < cap ==>
      AfterSubmit(s, file, cap) == SchedulerState([file] + s.running, s.queue)
    ensures AdmissionOf(s, file, cap) == Admitted <==> AfterSubmit(s, file, cap).running != s.running
  {
    assert |[file] + s.running| != |s.running|;
  }

  /** Submitting the same file twice in a row is the same as submitting it once. */
  lemma SubmitIdempotent(s: SchedulerState, file: Uri, cap: int)
    ensures AfterSubmit(AfterSubmit(s, file, cap), file, cap) == AfterSubmit(s, file, cap)
  {
  }

  /** The queue is a stack: files submitted at the cap come back out of the queue's head in the
      reverse of their submission order, ahead of everything queued before them. */
  lemma {:induction false} QueueIsLifo(s: SchedulerState, files: seq<Uri>, cap: int)
    requires |s.running| >= cap
    requires NoDup(files)
    requires forall i :: 0 <= i < |files| ==> files[i] !in s.running && files[i] !in s.queue
    ensures SubmitAll(s, files, cap) == SchedulerState(s.running, Reverse(files) + s.queue)
    decreases |files|
  {
    if files != [] {
      var s' := AfterSubmit(s, files[0], cap);
      assert s' == SchedulerState(s.running, [files[0]] + s.queue);
      forall i | 0 <= i < |files[1..]| ensures files[1..][i] !in s'.running && files[1..][i] !in s'.queue {
        assert files[1..][i] == files[i + 1];
      }
      assert NoDup(files[1..]) by {
        TailNoDup(files);
      }
      QueueIsLifo(s', files[1..], cap);
      assert Reverse(files[1..]) + ([files[0]] + s.queue) == (Reverse(files[1..]) + [files[0]]) + s.queue;
    }
  }

  /** Stopping a file (on completion or by `cancelRun`) removes exactly one occurrence of it from
      `_running`, does nothing when it is not running, and never touches the queue. */
  lemma StopRemovesOne(s: SchedulerState, file: Uri)
    ensures file in s.running ==>
      multiset(Stopped(s, file).running) == multiset(s.running) - multiset{file} &&
      |Stopped(s, file).running| == |s.running| - 1
    ensures file !in s.running ==> Stopped(s, file) == s
    ensures Stopped(s, file).queue == s.queue
  {
    if file in s.running {
      assert |multiset(Stopped(s, file).running)| == |multiset(s.running)| - 1;
    } else {
      RemoveAbsent(s.running, file);
    }
  }

  /** Completion keeps both sequences free of duplicates and keeps the cap. */
  lemma CompletePreservesInvariant(s: SchedulerState, file: Uri, cap: int)
    requires Inv(s)
    ensures Inv(AfterComplete(s, file, cap))
    ensures |s.running| <= cap ==> |AfterComplete(s, file, cap).running| <= cap
  {
    var f := Stopped(s, file);
    RemoveFirstNoDup(s.running, file);
    StopRemovesOne(s, file);
    if f.queue != [] {
      TailNoDup(f.queue);
      SubmitPreservesInvariant(SchedulerState(f.running, f.queue[1..]), f.queue[0], cap);
    }
  }

  /** When a running file completes and the queue's head is not running, the head takes the
      freed slot: it is dequeued and put in front of `_running`. */
  lemma CompleteAdmitsHead(s: SchedulerState, file: Uri, cap: int)
    requires Inv(s) && file in s.running && |s.running| <= cap
    requires s.queue != [] && s.queue[0] !in s.running
    ensures AfterComplete(s, file, cap) == SchedulerState([s.queue[0]] + RemoveFirst(s.running, file), s.queue[1..])
    ensures DrainOf(s, file, cap) == Resubmitted(s.queue[0], Admitted)
  {
    StopRemovesOne(s, file);
    RemoveFirstNoDup(s.running, file);
  }

  /** Stopping keeps the invariant; afterwards the file no longer runs and every other running
      file still does. */
  lemma StopKeepsInvariant(s: SchedulerState, file: Uri)
    requires Inv(s)
    ensures Inv(Stopped(s, file))
    ensures forall x :: x in Stopped(s, file).running <==> x in s.running && x != file
  {
    RemoveFirstNoDup(s.running, file);
  }

  /** A file can be running and queued at once: with one slot, A runs and B is queued; cancelling
      A frees the slot, and submitting B again admits it while it stays in the queue. */
  lemma RunningAndQueuedAtOnce(a: Uri, b: Uri)
    requires a != b
    ensures var s := AfterSubmit(Stopped(SubmitAll(SchedulerState([], []), [a, b], 1), a), b, 1);
      b in s.running && b in s.queue && Inv(s)
  {
    var s1 := AfterSubmit(SchedulerState([], []), a, 1);
    assert s1 == SchedulerState([a], []);
    var s2 := AfterSubmit(s1, b, 1);
    assert s2 == SchedulerState([a], [b]);
    assert [a, b][1..] == [b];
    assert [b][1..] == [];
    assert SubmitAll(s2, [], 1) == s2;
    assert SubmitAll(s1, [b], 1) == s2;
    assert RemoveFirst([a], a) == [];
  }

  /** With one slot, submitting A, B and C runs A and queues C in front of B; completing A then
      runs C, the most recently queued file, and leaves B queued. */
  lemma OneSlotScenario(a: Uri, b: Uri, c: Uri)
    requires a != b && b != c && a != c
    ensures SubmitAll(SchedulerState([], []), [a, b, c], 1) == SchedulerState([a], [c, b])
    ensures AfterComplete(SchedulerState([a], [c, b]), a, 1) == SchedulerState([c], [b])
  {
    var s0 := SchedulerState([], []);
    var s1 := AfterSubmit(s0, a, 1);
    assert s1 == SchedulerState([a], []);
    QueueIsLifo(s1, [b, c], 1);
    assert Reverse([b, c]) == [c, b] by {
      assert [b, c][1..] == [c];
      assert [c][1..] == [];
    }
    assert [a, b, c][1..] == [b, c];
    assert RemoveFirst([a], a) == [];
  }

  /* ---------------------------------------------------------------------------------------- */
  /* The scheduler's state, updated in place                                                   */
  /* ---------------------------------------------------------------------------------------- */

  /** The module-level `_running` and `_runQueue`. */
  class Scheduler {
    var running: seq<Uri>
    var runQueue: seq<Uri>

    function State(): SchedulerState
      reads this
    {
      SchedulerState(running, runQueue)
    }

    ghost predicate Valid()
      reads this
    {
      Inv(State())
    }

    constructor ()
      ensures Valid() && running == [] && runQueue == []
    {
      running, runQueue := [], [];
    }

    /** The synchronous start of `run` (up to the `await`): admission against `cap`, the
        configured maximum number of parallel tasks. Only an `Admitted` file goes on to run its
        tools. */
    method Submit(file: Uri, cap: int) returns (admission: Admission)
      requires Valid()
      modifies this
      ensures Valid()
      ensures State() == AfterSubmit(old(State()), file, cap)
      ensures admission == AdmissionOf(old(State()), file, cap)
      ensures |old(running)| <= cap ==> |running| <= cap
    {
      SubmitPreservesInvariant(State(), file, cap);
      if file in running {
        return AlreadyRunning;
      } else if |running| >= cap {
        if file !in runQueue {
          runQueue := [file] + runQueue;
          return Queued;
        }
        return AlreadyQueued;
      }
      running := [file] + running;
      admission := Admitted;
    }

    /** The rest of `run`, after the tools have settled with `outcome` (`None` when any of them
        failed). If the file is still running it stops running and, on success, its diagnostics
        replace its entry in `diagnostics`; a cancelled file publishes nothing. Then the head of
        the queue, if any, is taken off and submitted again.

        `publishThrows` says whether building the task results or their diagnostics throws (a
        missing setting, an invalid parsing expression, too few keyword lists, a negative
        position). Such a throw leaves `run` after the splice and before both the update and
        the drain: the queue stays as it was. */
    method Complete(file: Uri, outcome: Option<seq<TaskResult>>, publishThrows: bool,
                    host: ParsingHost, diagnostics: Aggregator, cap: int)
      returns (drain: Drain)
      requires Valid() && diagnostics.Valid()
      modifies this, diagnostics
      ensures Valid() && diagnostics.Valid()
      ensures |old(running)| <= cap ==> |running| <= cap
      ensures file in old(running) && outcome.Some? && publishThrows ==>
        State() == Stopped(old(State()), file) && runQueue == old(runQueue) && drain == Abandoned
      ensures !(file in old(running) && outcome.Some? && publishThrows) ==>
        State() == AfterComplete(old(State()), file, cap) && drain == DrainOf(old(State()), file, cap)
      ensures file in old(running) && outcome.Some? && !publishThrows ==>
        diagnostics.stored == old(diagnostics.stored)[file.fsPath := AllGenerated(outcome.value, host)] &&
        diagnostics.order == Inserted(old(diagnostics.order), file.fsPath)
      ensures !(file in old(running) && outcome.Some? && !publishThrows) ==> unchanged(diagnostics)
    {
      CompletePreservesInvariant(State(), file, cap);
      StopRemovesOne(State(), file);
      var success := outcome.Some?;
      var wasRunning := file in running;
      ghost var finished := Stopped(old(State()), file);
      StopRunning(file);
      if wasRunning && success {
        if publishThrows {
          return Abandoned;
        }
        diagnostics.UpdateDiagnostics(file, outcome.value, host);
      }
      assert State() == finished;
      drain := DrainQueue(cap);
    }

    /** The splice of `run` and `cancelRun`: the first occurrence of the file, if any, is taken out
        of `_running`. */
    method StopRunning(file: Uri)
      requires Valid()
      modifies this
      ensures Valid()
      ensures State() == Stopped(old(State()), file)
    {
      ghost var target := RemoveFirst(running, file);
      StopKeepsInvariant(State(), file);
      if file in running {
        var i := IndexOf(running, file);
        RemoveFirstIsSplice(running, file);
        running := running[..i] + running[i + 1..];
      } else {
        RemoveAbsent(running, file);
      }
      assert running == target;
    }

    /** The end of `run`: the head of the queue, if any, is taken off and submitted again. */
    method DrainQueue(cap: int) returns (drain: Drain)
      requires Valid()
      modifies this
      ensures Valid()
      ensures old(runQueue) == [] ==> State() == old(State()) && drain == QueueEmpty
      ensures old(runQueue) != [] ==>
        var rest := SchedulerState(old(running), old(runQueue)[1..]);
        State() == AfterSubmit(rest, old(runQueue)[0], cap) &&
        drain == Resubmitted(old(runQueue)[0], AdmissionOf(rest, old(runQueue)[0], cap))
    {
      if runQueue != [] {
        var next := runQueue[0];
        TailNoDup(runQueue);
        runQueue := runQueue[1..];
        var admission := Submit(next, cap);
        drain := Resubmitted(next, admission);
      } else {
        drain := QueueEmpty;
      }
    }

    /** `cancelRun`: the file, if running, stops running; the queue is not touched. */
    method CancelRun(file: Uri)
      requires Valid()
      modifies this
      ensures Valid()
      ensures State() == Stopped(old(State()), file)
    {
      StopRunning(file);
    }

    /** `cancelAllRuns`: both sequences become empty. */
    method CancelAllRuns()
      modifies this
      ensures Valid() && running == [] && runQueue == []
    {
      running, runQueue := [], [];
    }
  }
}
