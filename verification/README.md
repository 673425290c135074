# C/C++ Linter — a Dafny model of its core

The C/C++ Linter extension for VS Code checks C and C++ sources with up to three tools.
The tools are the compiler (run with a "syntax only" state flag), clang-tidy and cppcheck.
The compiler's and cppcheck's command lines are built from the project's
`compile_commands.json` database and from the extension's settings. clang-tidy's is built
from the settings alone, and it is given the workspace folder with `-p` to find the database
itself. Each tool's output is parsed line by line with a configurable
regular expression into diagnostics. The diagnostics of all files are aggregated and
published.

Runs are bounded by the `maximumParallelTasks` setting. A file submitted when the bound is
reached waits in a run queue. When a run ends, the head of that queue is submitted again.

The project models five parts of the extension, one Dafny module each:

- `Configuration` (configuration.dfy): reading `<category>.<option>` settings, the
  `${workspaceFolder}` placeholder and workspace-folder resolution.
- `Tasks` (tasks.dfy): the compilation-database lookup and the three command lines.
  Each builder takes its tool's settings as a record. It is a function returning the task or
  the first error the extension throws once the settings are read, plus
  a method that performs the same steps with the source's loops. Each method is proved equal
  to its function.
- `Diagnostics` (diagnostics.dfy):
  - turning a tool's output into diagnostics, as a pure function and as a loop;
  - the `Aggregator` class, holding the per-file diagnostics map and the published
    collection. Its invariant says the published collection is always the deduplicated view
    of everything stored.
- `Runner` (runner.dfy): what one run does with the three tools' outcomes, and the scheduler.
  The scheduler's admission, completion and cancellation are pure transitions on
  `SchedulerState(running, queue)`. The `Scheduler` class holds two sequences (the source's `_running` and `_runQueue` arrays), and its
  methods are proved to perform exactly those transitions.
- `Extension` (extension.dfy): which editor documents are linted, and what the
  open/save/close and command handlers do.

The helper modules `Wrappers`, `Sequences` and `JsStrings` define `Option`/`Result` and the
JavaScript built-ins the extension relies on. The built-ins are `split`, `join`,
`startsWith`, `toLowerCase` (ASCII letters), `parseInt`, `indexOf` and `splice`, and
`filter`.

Where the code and the wording around it differ, the model follows the code:

- `getCompileTask`, `getClangTidyTask` and `getCppCheckTask` test `if (!compiler)` /
  `if (!linter)` on a `Uri` object. That test never fires. The only path error is the
  existence check.
- In `generateDiagnosticsForFiles`, `!!line && !!column` is always true. `parseInt(...) || 1`
  never yields 0 (`Diagnostics.NumberOrOne`).
- A file can be running and queued at the same time (`Runner.RunningAndQueuedAtOnce`). File
  `b` is queued behind a running file `a`. Then `a`'s run is cancelled, and `b` is submitted
  again while the slot is free. `b` now runs and is still in the queue.
- The queue is last-in, first-out: a file submitted later runs earlier
  (`Runner.QueueIsLifo`, `Runner.OneSlotScenario`).
- A file name without a `.` is its own extension
  (`Extension.NameWithoutDotIsItsOwnExtension`).
- The source files disagree on some names:
  - `severityKeywords` vs `diagnosisKeywords`;
  - `internalName` vs `INTERNAL_NAME`;
  - `clearDiagnostics` vs `clearDiagnosticsForFile`;
  - `getIgnoredPaths`, which configuration.ts does not define.

  The model treats each pair as one entity. The ignored paths are a parameter.

## Model

| member | source | states |
|---|---|---|
| Configuration.GetOption | src/configuration.ts:50-56 | an option is returned exactly when `<category>.<option>` is set, and it is the stored value; otherwise the error names the category and the option |
| Configuration.GetCompilerOption | src/configuration.ts:58-60 | compiler options are read under `compiler.<option>` |
| Configuration.GetClangTidyOption | src/configuration.ts:62-64 | clang-tidy options are read under `clangTidy.<option>` |
| Configuration.GetCppCheckOption | src/configuration.ts:66-68 | cppcheck options are read under `cppCheck.<option>` |
| Configuration.GetGeneralOption | src/configuration.ts:70-72 | general options are read under `general.<option>` |
| Configuration.KeyInjective | src/configuration.ts:51 | two different (category, option) pairs never read the same setting |
| Configuration.SubstituteWorkspaceFolder | src/configuration.ts:74-81 | a path starting with `${workspaceFolder}` becomes the rest of the path (after the 18-character placeholder) joined to the workspace folder; any other path is used as written |
| Configuration.SubstituteKeepsRawPath | src/configuration.ts:74-81 | substitution loses nothing (the configured path can be rebuilt from the result), and a path without the placeholder does not depend on the workspace folder |
| Configuration.GetWorkspaceFolder | src/configuration.ts:83-90 | fails, naming the file, exactly when the file lies in no workspace folder; otherwise yields that folder |
| Tasks.Tokens | src/tasks.ts:53-55 | no token of a database command is empty or holds a space |
| Tasks.TokensKeepCharacters | src/tasks.ts:53-55 | the tokens, concatenated, are the command without its spaces: tokenising drops nothing else |
| Tasks.GetCompilationCommand | src/tasks.ts:31-56 | no workspace folder and a missing database are errors; it succeeds exactly when some record with `file`, `directory` and `command` names the file; the result is the first such record's command tokens |
| Tasks.FirstDescribing | src/tasks.ts:40-53 | the index of the first database record that describes the file |
| Tasks.CompileTaskFrom | src/tasks.ts:68-90 | from the database tokens, the task is built exactly when the state flag is non-empty and the command (with the compiler in front) holds `-c`; the error is the undefined flag first, then the missing `-c`; the task runs the compiler in the workspace folder and carries the state flag |
| Tasks.WithCompiler | src/tasks.ts:68-75 | the compiler path is put in front exactly when some token starts with `-`; the tokens follow unchanged |
| Tasks.CompileArgv | src/tasks.ts:81-89 | the first `-c` is replaced by the state flag, every other token is kept in place, and the additional flags follow |
| Tasks.CompileTask | src/tasks.ts:58-91 | the compile task is built exactly when the workspace folder resolves, the compiler exists, the database describes the file, the state flag is non-empty and the command holds `-c`; it then runs the compiler in the workspace folder, and its arguments are exactly the database tokens with the compiler put in front as `WithCompiler` says, the first `-c` replaced and the additional flags appended (`CompileArgv`) |
| Tasks.GetCompileTask | src/tasks.ts:58-91 | the step-by-step builder yields the task or error `CompileTask` specifies |
| Tasks.BuildCompileTask | src/tasks.ts:68-90 | the `every` loop, `indexOf("-c")` and the concatenation yield what `CompileTaskFrom` specifies |
| Tasks.Negated | src/tasks.ts:109-111 | every disabled check, in order, prefixed with `-` |
| Tasks.TidyChecks | src/tasks.ts:108-111 | the check list is `-*`, then the enabled checks, then each disabled check prefixed with `-` |
| Tasks.ChecksArgument | src/tasks.ts:119 | the argument is `-checks="`, the checks joined by commas, and a closing quote |
| Tasks.ChecksArgumentRoundTrip | src/tasks.ts:119 | when no check name holds a comma, the check list can be read back from the `-checks="..."` argument |
| Tasks.ClangTidyTask | src/tasks.ts:93-123 | the clang-tidy task is built exactly when the workspace folder resolves, clang-tidy exists and the checks setting has `enabled` and `disabled`; its command is then exactly clang-tidy's path, `-p`, the workspace folder's path, the `-checks="..."` argument over `-*`, the enabled and the negated disabled checks, and the file's path |
| Tasks.GetClangTidyTask | src/tasks.ts:93-123 | the builder with its `for` loop yields what `ClangTidyTask` specifies |
| Tasks.CppCheckTask | src/tasks.ts:125-150 | the cppcheck task is built exactly when the workspace folder resolves, cppcheck exists and the database describes the file; it then runs cppcheck's resolved path for the file in its workspace folder |
| Tasks.CppCheckTokens | src/tasks.ts:138-146 | a token is kept exactly when it is a compile token that is a `-D`/`-I` option or whose last `.`-piece is a source file extension; no more tokens than given |
| Tasks.CppCheckArguments | src/tasks.ts:135-147 | the command is cppcheck's resolved path, `--enable=` with the joined checks, the additional flags, then the compile tokens that are `-D`/`-I` options or end in a source file extension, in their original order and multiplicity (`CppCheckTokens`); every such token is present |
| Tasks.GetCppCheckTask | src/tasks.ts:125-150 | the builder yields what `CppCheckTask` specifies |
| Tasks.AppendCppCheckTokens | src/tasks.ts:138-147 | the `forEach` loop appends exactly the selected tokens, in order |
| Diagnostics.NewTaskResult | src/runner.ts:17-33 | a task result keeps the output and expression, and takes its error, warning and information keywords from the first three lists |
| Diagnostics.NumberOrOne | src/diagnostics.ts:24-25 | a line or column is the parsed number unless it is missing, not a number or zero, when it is 1; it is never 0 |
| Diagnostics.NumberOrOneDecimal | src/diagnostics.ts:24-25 | a positive number written in decimal is read back as itself |
| Diagnostics.ResolveSeverity | src/diagnostics.ts:45-54 | a keyword is an error if listed as one, else a warning if listed as one, else information if listed as one, else it has no severity |
| Diagnostics.PointAt | src/diagnostics.ts:60 | the range is empty and sits at the zero-based line and column |
| Diagnostics.Classify | src/diagnostics.ts:22-65 | a match yields a diagnostic exactly when it has six entries, file, severity and message are non-empty, the file exists and is not ignored and the severity keyword is known; the diagnostic names that file, position, message and severity and has the extension as source |
| Diagnostics.ClassifiesCompilerLine | src/diagnostics.ts:22-65 | a `main.cpp:10:5: error: missing semicolon` match becomes an error at line 9, column 4 (zero-based) |
| Diagnostics.ClassifyMatch | src/diagnostics.ts:22-65 | the checks on one match, with the loop over the ignored paths that stops at the first match, decide as `Classify` does |
| Diagnostics.FromMatches | src/diagnostics.ts:21-68 | a line's matches yield at most one diagnostic each, and each diagnostic is the classification of one of the matches |
| Diagnostics.FromMatchesAppend | src/diagnostics.ts:21-68 | the diagnostics of two runs of matches are those of the first followed by those of the second, so the output keeps match order |
| Diagnostics.FromLines | src/diagnostics.ts:19-69 | every diagnostic comes from the matches of some line |
| Diagnostics.Generated | src/diagnostics.ts:17-71 | everything a tool's output yields names an existing, non-ignored file, has a message and an empty range, and has the extension as source |
| Diagnostics.FromLinesWellFormed | src/diagnostics.ts:17-71 | every generated diagnostic names an existing, non-ignored file, has a message and an empty range, and has the extension as source |
| Diagnostics.FromMatchesWellFormed | src/diagnostics.ts:21-68 | the same for the matches of one line |
| Diagnostics.FromMatchesComplete | src/diagnostics.ts:21-68 | every match that classifies contributes its diagnostic |
| Diagnostics.GeneratedSound | src/diagnostics.ts:17-71 | every generated diagnostic is the classification of some match on some output line, so it sits at that match's line and column less one and carries its message and resolved severity |
| Diagnostics.GeneratedComplete | src/diagnostics.ts:17-71 | every classifying match of every line contributes its diagnostic |
| Diagnostics.OneLineOneMatch | src/diagnostics.ts:17-71 | a one-line output with one classifying match yields exactly that diagnostic |
| Diagnostics.ParsesCompilerLine | src/diagnostics.ts:17-71 | a compiler line `main.cpp:10:5: error: missing semicolon` yields exactly one error on `main.cpp` at line 9, column 4 |
| Diagnostics.GenerateDiagnosticsForFiles | src/diagnostics.ts:17-71 | the nested loops over lines and matches yield what `Generated` specifies |
| Diagnostics.DiagnosticsOfLine | src/diagnostics.ts:20-68 | the loop over one line's matches yields what `FromMatches` specifies |
| Diagnostics.AlreadyInTheList | src/diagnostics.ts:76-83 | true exactly when the list holds a diagnostic with the same range, message and severity |
| Diagnostics.Dedup | src/diagnostics.ts:86-95 | keeps only listed diagnostics, leaves no two of the same identity, and loses no identity |
| Diagnostics.DedupKeepsFirstOccurrences | src/diagnostics.ts:88-93 | a diagnostic is appended exactly when no earlier one has its identity |
| Diagnostics.Added | src/diagnostics.ts:89-93 | one aggregation step files the diagnostic under its file, leaves every other file's list as it was, and afterwards that file's list holds a diagnostic of its identity |
| Diagnostics.View | src/diagnostics.ts:86-95 | every file a stored diagnostic names appears in the aggregate, and no file appears with an empty list |
| Diagnostics.ViewIsDedup | src/diagnostics.ts:86-95 | a file appears in the aggregate exactly when some diagnostic is on it, and its list is the deduplicated list of its diagnostics in order |
| Diagnostics.PublishedView | src/diagnostics.ts:86-100 | the published lists hold no two diagnostics of the same identity, every stored diagnostic's identity is published on its file, and only stored diagnostics are published |
| Diagnostics.AddToView | src/diagnostics.ts:87-95 | the aggregation loop extends the view by the given diagnostics |
| Diagnostics.Inserted | src/diagnostics.ts:109 | `Map.set` keeps the existing keys in their places, puts a new key last, leaves the order as it is for a key already present, and keeps keys distinct |
| Diagnostics.AllGenerated | src/diagnostics.ts:103-107 | every diagnostic of a file's task results is well formed and comes from one of the task results |
| Diagnostics.Aggregator.constructor | src/diagnostics.ts:73 | the map and the collection start empty |
| Diagnostics.Aggregator.Update | src/diagnostics.ts:75-101 | republishing makes the collection the deduplicated view of every stored diagnostic, in map order |
| Diagnostics.Aggregator.UpdateDiagnostics | src/diagnostics.ts:103-111 | the file's entry becomes every diagnostic its task results generate, other entries stay, and the collection is republished |
| Diagnostics.Aggregator.ClearDiagnosticsForFile | src/diagnostics.ts:113-116 | the file's entry becomes empty, other entries stay, and the collection is republished |
| Diagnostics.Aggregator.ClearAllDiagnostics | src/diagnostics.ts:118-121 | the map and the collection become empty |
| Runner.SlotOutput | src/runner.ts:116-126 | a disabled tool yields the empty output; an enabled tool whose task cannot be built fails; otherwise the tool's process outcome |
| Runner.RunOutcome | src/runner.ts:106-160 | the run succeeds exactly when every tool succeeds, and then yields one task result per tool from its output, expression and keywords |
| Runner.BuilderErrorFailsRun | src/runner.ts:109-133 | an enabled tool whose task cannot be built makes the whole run fail |
| Runner.RunFailsExactly | src/runner.ts:109-133 | a run fails, and publishes nothing, exactly when some enabled tool's builder throws or starting its task throws |
| Runner.DisabledToolsYieldEmptyOutputs | src/runner.ts:107-126 | with every tool disabled the run succeeds with three empty outputs |
| Runner.AdmissionOf | src/runner.ts:91-103 | a file is skipped exactly when running, admitted exactly when not running and below the bound, and newly queued exactly when at the bound and not yet queued |
| Runner.AfterSubmit | src/runner.ts:91-103 | after a submission the file is running or queued, and no other file's membership changes |
| Runner.SubmitCases | src/runner.ts:91-103 | a running file changes nothing; at the bound a new file goes to the queue's front and a queued one stays; below the bound the file goes to the front of the running list; only the last case starts a run |
| Runner.SubmitPreservesInvariant | src/runner.ts:91-103 | submission keeps both lists free of duplicates and never lets the running list exceed the bound |
| Runner.SubmitIdempotent | src/runner.ts:91-101 | submitting the same file twice is the same as submitting it once |
| Runner.Stopped | src/runner.ts:135-136 | stopping leaves the queue alone and changes no other file's running status |
| Runner.DrainOf | src/runner.ts:168-174 | the drain does nothing exactly when the queue is empty; otherwise it resubmits the queue's head, which, with no duplicates in the queue, is never found already queued |
| Runner.AfterComplete | src/runner.ts:135-174 | after completion the former queue head is running or queued, and every file other than the finished one and that head keeps its running and queued status |
| Runner.QueueIsLifo | src/runner.ts:94-99 | at the bound, new files submitted in turn end up queued in reverse order in front of the old queue |
| Runner.StopRemovesOne | src/runner.ts:135-136 | stopping removes one occurrence of a running file and nothing else, and ignores a file that is not running |
| Runner.StopKeepsInvariant | src/runner.ts:177-181 | stopping keeps both lists free of duplicates and removes exactly that file |
| Runner.CompletePreservesInvariant | src/runner.ts:135-174 | completion keeps both lists free of duplicates and the running list within the bound |
| Runner.CompleteAdmitsHead | src/runner.ts:168-174 | when a finished run frees a slot, the queue's head starts running and leaves the queue |
| Runner.RunningAndQueuedAtOnce | src/runner.ts:91-103 | a file can be running and queued at the same time: with one slot, queue `b` behind a running `a`, cancel `a`, submit `b` again |
| Runner.OneSlotScenario | src/runner.ts:91-174 | with one slot, `a`, `b`, `c` leave `a` running and `[c, b]` queued; when `a` ends, `c` runs next |
| Runner.Scheduler.constructor | src/runner.ts:35-36 | nothing runs and nothing is queued |
| Runner.Scheduler.Submit | src/runner.ts:91-103 | the arrays take the state `AfterSubmit` gives, the admission is reported, and the bound is kept |
| Runner.Scheduler.Complete | src/runner.ts:135-174 | the arrays take the state `AfterComplete` gives; diagnostics are updated exactly when the file was still running, the run succeeded and publishing does not throw; a throw while publishing leaves the file stopped, the queue undrained and diagnostics untouched |
| Runner.Scheduler.StopRunning | src/runner.ts:135-136 | `indexOf` and `splice` remove the file as `Stopped` specifies |
| Runner.Scheduler.DrainQueue | src/runner.ts:168-174 | an empty queue changes nothing; otherwise the head is taken off and submitted |
| Runner.Scheduler.CancelRun | src/runner.ts:177-181 | the file stops running; the queue is untouched |
| Runner.Scheduler.CancelAllRuns | src/runner.ts:183-186 | nothing runs and nothing is queued |
| Extension.ToFileUri | src/extension.ts:6-22 | a document is linted, under its own uri, exactly when its scheme is `file`, its language is C++ or C and its extension is configured |
| Extension.ExtensionOf | src/extension.ts:15-16 | the extension holds no `.` and is no longer than the file name |
| Extension.ExtensionIsLoweredLastSegment | src/extension.ts:15-16 | the extension is the lower-cased last `.`-separated piece of the file name |
| Extension.ExtensionIsSuffix | src/extension.ts:15-16 | the extension has no `.`, is lower case, and ends the lower-cased name, as the whole name or right after its last `.` |
| Extension.ToFileUriIgnoresCase | src/extension.ts:15-18 | names that agree up to letter case are treated alike |
| Extension.NameWithoutDotIsItsOwnExtension | src/extension.ts:15-16 | a name without `.` is its own (lower-cased) extension |
| Extension.RunDocument | src/extension.ts:35-59 | a document is submitted exactly when its handler is enabled, it qualifies and it lies in a workspace folder; otherwise nothing changes |
| Extension.ClearClosedFile | src/extension.ts:61-69 | for a qualifying document, its run is cancelled and then its diagnostics are cleared; otherwise no call is made |
| Extension.ClearActiveFile | src/extension.ts:85-97 | without an active editor nothing happens; otherwise its document is handled as a closed one |
| Extension.ClearAll | src/extension.ts:99-102 | all runs are cancelled, then all diagnostics cleared |
| Sequences.IndexOf | src/runner.ts:136 | -1 exactly when absent, otherwise the first position |
| Sequences.RemoveFirst | src/runner.ts:136 | removes one occurrence of the element |
| Sequences.RemoveFirstIsSplice | src/runner.ts:179 | removal is the splice at the first position |
| Sequences.RemoveFirstNoDup | src/runner.ts:135-136 | on a list without duplicates, removal keeps it so and removes exactly that element |
| Sequences.Filter | src/tasks.ts:53-55 | keeps exactly the elements that pass, and only those |
| JsStrings.Split | src/diagnostics.ts:19 | at least one piece, none holding the separator |
| JsStrings.JoinSplit | src/diagnostics.ts:19 | splitting loses nothing: joining the pieces gives back the string |
| JsStrings.SplitJoin | src/tasks.ts:119 | splitting a join of separator-free pieces gives back the pieces |
| JsStrings.LastSegmentIsSuffix | src/tasks.ts:139-143 | the last piece has no separator and ends the string, as the whole string or right after a separator |
| JsStrings.ToLowerCase | src/extension.ts:15-16 | same length, each character lowered |
| JsStrings.ToLowerCaseIdempotent | src/extension.ts:16 | lowering twice is lowering once |
| JsStrings.SplitLowerCase | src/extension.ts:15 | lowering then splitting on a non-letter is splitting then lowering each piece |
| JsStrings.ParseInt | src/diagnostics.ts:24-25 | a string of decimal digits is read as its decimal value, and a string starting with a letter is not a number |
| JsStrings.ParseIntDecimal | src/diagnostics.ts:24-25 | `parseInt` reads back any natural number written in decimal (as an integer; double rounding is left out) |

## Left out

- Diagnostics.NewTaskResult: requires at least three keyword lists. With fewer, the extension
  fails later, when a missing list is read. That throw is covered only as one of the causes
  `Runner.Scheduler.Complete`'s `publishThrows` flag stands for.
- Runner.RunOutcome: requires at least three keyword lists per tool, for the same reason.
- Runner.Scheduler.Submit: the bound is read on every call. The bound is shown to be kept
  only for a fixed bound. Bound values are integers; JavaScript number semantics are not
  modelled.
- Tool processes (src/processRunner.ts) are not part of this model. Each tool's outcome is
  a parameter, `execute: Task -> Option<string>`. A process that fails or is killed still
  yields its output, or `""`, so it is `Some(output)` or `Some("")`. `None` stands only for a
  throw while starting a task, such as a missing setting. A process whose callback never
  resolves (its option read throws) is not modelled.
- Tasks.CompileTask, Tasks.ClangTidyTask and Tasks.CppCheckTask: a setting that is undefined
  makes `getOption` throw inside the builder, and the same holds for the reads at
  src/tasks.ts:33 and :143 and for `maximumParallelTasks` at src/runner.ts:94. The builders take
  settings records that are always present, so such a throw is not a builder `Err`, and no
  builder uses `Configuration.GetOption`. In a run it is covered only by `execute` giving
  `None`; in the scheduler it is not modelled.
- Runner.Scheduler.Complete: whether publishing throws is a parameter, not derived from the
  settings, the parsing expressions or the output. Such a throw leaves `run` after the file is
  spliced out and before the drain, so queued files stay queued; the model records this
  outcome but not which setting or value causes it.
- Asynchrony is not modelled. Each synchronous stretch of `run` is one atomic step:
  admission, then completion and drain. Interleavings of several pending runs are not
  modelled. The recursive `run` on the queue's head is modelled as a further submission; the
  tool run it then starts is another completion.
- `vscode.Uri` is a value compared by scheme and path. The extension compares `Uri`
  objects by reference in `includes` and `indexOf`, so two objects for one file count as
  different files there.
- Path rendering is abstracted to a host function from `Uri.file`/`Uri.joinPath` locations
  to file-system paths. Path normalisation is not modelled. A diagnostic's file is keyed by
  the matched path as written.
- The compilation database is given as already-parsed records. Reading it from disk, the
  `buildFolderPath` lookup, JSON syntax errors and non-string `command` values are left out.
  Only "no database" is kept as an error.
- Regular expressions are left out. A tool's parsing expression is a function from one output
  line to its matches. Ignored-path patterns are a matching predicate. `existsSync` is a
  predicate on paths.
- JsStrings.ParseInt, JsStrings.ParseIntDecimal and Diagnostics.NumberOrOneDecimal: numbers are
  mathematical integers. JavaScript's `parseInt` returns a double, so above 2^53 it rounds
  (`"9007199254740993"` reads as 9007199254740992), and a long enough digit string gives
  `Infinity`. Neither is modelled; the exact read-back these members state holds in JavaScript
  only up to 2^53. Line and column numbers in tool output stay far below that.
- `parseInt` is modelled for ASCII digits with sign, whitespace and `0x`. A line or column
  that parses as negative would make `vscode.Position` throw. That throw is not derived from the
  output; it is covered only through `Runner.Scheduler.Complete`'s `publishThrows` flag.
- `toLowerCase` lowers ASCII letters only.
- Progress display (`showProgress`), logging, `getErrorMessage` and error dialogs are left
  out. They change no state the model tracks.
- `activate`'s creation of the status item, output channel and collection, and the command
  and event registrations, are left out. The handlers they register are modelled.
  `deactivate` does nothing.
