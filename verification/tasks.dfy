/** Construction of the three tool invocations (compiler, clang-tidy, cppcheck) for a source
    file, from its entry in the compilation database. */
module Tasks {
  import opened Wrappers
  import opened Sequences
  import opened JsStrings
  import opened Configuration

  const COMPILER_NAME: string := "'compiler'"
  const CLANG_TIDY_NAME: string := "'clang-tidy'"
  const CPPCHECK_NAME: string := "'cppcheck'"

  /** The file a task is about, the directory it runs in, and its argument vector. */
  datatype Command = Command(file: Uri, directory: Uri, command: seq<string>)

  /** One tool invocation; `name` is the tool's file-system path. */
  datatype Task = Task(name: string, command: Command)

  /** One record of `compile_commands.json`: its string-valued properties. */
  datatype DatabaseEntry = DatabaseEntry(properties: map<string, string>)

  /** What the builders read from the host:
      `workspaceOf`  the workspace folder of a file (`vscode.workspace.getWorkspaceFolder`),
      `fsPathOf`     the file-system path of a location (`Uri.file` / `Uri.joinPath`, then `fsPath`),
      `existing`     the paths `existsSync` finds,
      `database`     the parsed `compile_commands.json` of the configured build folder, `None` when
                     that file does not exist; a `None` record is a falsy JSON value (`null`). */
  datatype Host = Host(
    workspaceOf: Uri -> Option<Uri>,
    fsPathOf: Location -> string,
    existing: set<string>,
    database: Option<seq<Option<DatabaseEntry>>>)

  /** The compiler settings the compile task reads. */
  datatype CompilerSettings = CompilerSettings(path: string, compilationStateFlag: string, additionalFlags: seq<string>)

  /** The clang-tidy settings: `checks` is the JSON object with its array-valued properties. */
  datatype ClangTidySettings = ClangTidySettings(path: string, checks: map<string, seq<string>>)

  /** The cppcheck settings, with the general list of source-file extensions. */
  datatype CppCheckSettings = CppCheckSettings(
    path: string, checks: seq<string>, additionalFlags: seq<string>, sourceFileExtensions: seq<string>)

  /** The errors the builders throw. */
  datatype TaskError =
    | WorkspaceError(error: ConfigError)
    | ToolNotFound(tool: string, path: string)
    | DatabaseNotFound
    | NotInDatabase(file: Uri)
    | StateFlagUndefined
    | CompileFlagNotFound
    | ChecksFormat(tool: string)

  // ---------------------------------------------------------------- compilation database

  /** A database record that describes `file`: it has `file`, `directory` and `command`, and its
      `file` names the same path. */
  predicate Describes(host: Host, entry: Option<DatabaseEntry>, file: Uri) {
    entry.Some? &&
    var p := entry.value.properties;
    "file" in p && "directory" in p && "command" in p &&
    host.fsPathOf(FileLocation(p["file"])) == file.fsPath
  }

  /** Record `i` is the first in `db` that describes `file`. */
  predicate FirstToDescribe(host: Host, db: seq<Option<DatabaseEntry>>, file: Uri, i: int) {
    0 <= i < |db| && Describes(host, db[i], file) && forall j :: 0 <= j < i ==> !Describes(host, db[j], file)
  }

  /** The command line split on single spaces, with the empty pieces left out. */
  function Tokens(command: string): (r: seq<string>)
    ensures forall i :: 0 <= i < |r| ==> r[i] != "" && ' ' !in r[i]
  {
    var pieces := Split(command, ' ');
    var r := Filter(pieces, (t: string) => |t| > 0);
    assert forall i :: 0 <= i < |r| ==> r[i] in pieces;
    r
  }

  /** All characters of the strings, in order. */
  function Concat(parts: seq<string>): string {
    if parts == [] then "" else parts[0] + Concat(parts[1..])
  }

  /** The characters of `s` other than spaces, in order. */
  function WithoutSpaces(s: string): string {
    if s == [] then "" else (if s[0] == ' ' then "" else [s[0]]) + WithoutSpaces(s[1..])
  }

  /** Tokenising loses nothing but the spaces. */
  lemma TokensKeepCharacters(command: string)
    ensures Concat(Tokens(command)) == WithoutSpaces(command)
  {
    ConcatSplit(command);
    ConcatWithoutEmpty(Split(command, ' '));
  }

  lemma {:induction false} ConcatSplit(s: string)
    ensures Concat(Split(s, ' ')) == WithoutSpaces(s)
  {
    if s != [] {
      ConcatSplit(s[1..]);
      var rest := Split(s[1..], ' ');
      if s[0] != ' ' {
        var parts := Split(s, ' ');
        assert parts[1..] == rest[1..];
        assert Concat(rest) == rest[0] + Concat(rest[1..]);
      }
    }
  }

  lemma {:induction false} ConcatWithoutEmpty(parts: seq<string>)
    ensures Concat(Filter(parts, (t: string) => |t| > 0)) == Concat(parts)
  {
    if parts != [] {
      var keep := (t: string) => |t| > 0;
      var init := parts[..|parts| - 1];
      var last := parts[|parts| - 1];
      ConcatWithoutEmpty(init);
      ConcatAppend(Filter(init, keep), [last]);
      ConcatAppend(init, [last]);
      assert parts == init + [last];
      assert Concat([last]) == last;
    }
  }

  lemma {:induction false} ConcatAppend(a: seq<string>, b: seq<string>)
    ensures Concat(a + b) == Concat(a) + Concat(b)
  {
    if a != [] {
      assert (a + b)[1..] == a[1..] + b;
      ConcatAppend(a[1..], b);
    } else {
      assert a + b == b;
    }
  }

  /** The tokens of the first database record that describes `file`. The workspace folder is
      looked up first (the database lives in a folder under it); a missing database and a file
      the database does not describe are errors. */
  function GetCompilationCommand(file: Uri, host: Host): (r: Result<seq<string>, TaskError>)
    ensures host.workspaceOf(file).None? ==> r == Err(WorkspaceError(NoWorkspaceFolder(file)))
    ensures host.workspaceOf(file).Some? && host.database.None? ==> r == Err(DatabaseNotFound)
    ensures r.Ok? <==> (host.workspaceOf(file).Some? && host.database.Some? &&
      exists i :: 0 <= i < |host.database.value| && Describes(host, host.database.value[i], file))
    ensures r.Ok? ==> exists i :: FirstToDescribe(host, host.database.value, file, i) &&
                                  r.value == Tokens(host.database.value[i].value.properties["command"])
  {
    var workspace := GetWorkspaceFolder(file, host.workspaceOf);
    if workspace.Err? then Err(WorkspaceError(workspace.error))
    else if host.database.None? then Err(DatabaseNotFound)
    else
      var db := host.database.value;
      var describes := (e: Option<DatabaseEntry>) => Describes(host, e, file);
      var valueForFile := Filter(db, describes);
      if |valueForFile| == 0 then
        assert forall i :: 0 <= i < |db| ==> !Describes(host, db[i], file);
        Err(NotInDatabase(file))
      else
        assert valueForFile[0] in db && describes(valueForFile[0]);
        var k := FirstDescribing(host, db, file);
        FilterFirst(db, describes, k);
        assert FirstToDescribe(host, db, file, k);
        Ok(Tokens(valueForFile[0].value.properties["command"]))
  }

  /** The index of the first record that describes `file`. */
  function FirstDescribing(host: Host, db: seq<Option<DatabaseEntry>>, file: Uri): (k: nat)
    requires exists i :: 0 <= i < |db| && Describes(host, db[i], file)
    ensures k < |db| && Describes(host, db[k], file)
    ensures forall j :: 0 <= j < k ==> !Describes(host, db[j], file)
  {
    if Describes(host, db[0], file) then 0
    else
      assert exists i :: 0 <= i < |db[1..]| && Describes(host, db[1..][i], file) by {
        var i :| 0 <= i < |db| && Describes(host, db[i], file);
        assert db[1..][i - 1] == db[i];
      }
      1 + FirstDescribing(host, db[1..], file)
  }

  // ---------------------------------------------------------------- compiler

  /** The compiler path goes in front of the tokens when some token is an option (starts with `-`). */
  function WithCompiler(tokens: seq<string>, compiler: string): (r: seq<string>)
    ensures (exists i :: 0 <= i < |tokens| && StartsWith(tokens[i], "-")) <==> |r| == |tokens| + 1
    ensures |r| == |tokens| || |r| == |tokens| + 1
    ensures |r| == |tokens| + 1 ==> r[0] == compiler
    ensures r[|r| - |tokens|..] == tokens
  {
    if exists i :: 0 <= i < |tokens| && StartsWith(tokens[i], "-") then [compiler] + tokens else tokens
  }

  /** The compile task's argument vector: the first `-c` replaced by the compilation-state flag,
      the additional flags appended. */
  function CompileArgv(base: seq<string>, stateFlag: string, additionalFlags: seq<string>): (r: seq<string>)
    requires "-c" in base
    ensures |r| == |base| + |additionalFlags| && r[|base|..] == additionalFlags
    ensures r[FirstIndex(base, "-c")] == stateFlag
    ensures forall j :: 0 <= j < |base| && j != FirstIndex(base, "-c") ==> r[j] == base[j]
  {
    base[FirstIndex(base, "-c") := stateFlag] + additionalFlags
  }

  /** The compile task, or the first error the source throws building it. It fails exactly in the
      cases the source throws for, and otherwise runs the compiler on the database command with
      `-c` replaced and the additional flags after it. */
  function CompileTask(file: Uri, host: Host, settings: CompilerSettings): (r: Result<Task, TaskError>)
    ensures var workspace := GetWorkspaceFolder(file, host.workspaceOf);
      r.Ok? <==>
        workspace.Ok? &&
        host.fsPathOf(SubstituteWorkspaceFolder(settings.path, workspace.value)) in host.existing &&
        GetCompilationCommand(file, host).Ok? &&
        settings.compilationStateFlag != "" &&
        "-c" in WithCompiler(GetCompilationCommand(file, host).value,
                             host.fsPathOf(SubstituteWorkspaceFolder(settings.path, workspace.value)))
    ensures r.Ok? ==>
      var compiler := r.value.name;
      var argv := r.value.command.command;
      var tokens := GetCompilationCommand(file, host).value;
      compiler == host.fsPathOf(SubstituteWorkspaceFolder(settings.path, host.workspaceOf(file).value)) &&
      r.value.command.file == file && r.value.command.directory == host.workspaceOf(file).value &&
      |argv| >= |settings.additionalFlags| && argv[|argv| - |settings.additionalFlags|..] == settings.additionalFlags &&
      settings.compilationStateFlag in argv &&
      argv == CompileArgv(WithCompiler(tokens, compiler), settings.compilationStateFlag, settings.additionalFlags)
  {
    var workspace := GetWorkspaceFolder(file, host.workspaceOf);
    if workspace.Err? then Err(WorkspaceError(workspace.error))
    else
      var compiler := host.fsPathOf(SubstituteWorkspaceFolder(settings.path, workspace.value));
      if compiler !in host.existing then Err(ToolNotFound(COMPILER_NAME, compiler))
      else
        var tokens := GetCompilationCommand(file, host);
        if tokens.Err? then Err(tokens.error)
        else CompileTaskFrom(file, workspace.value, compiler, tokens.value, settings)
  }

  /** The part of the compile task that works on the database tokens. */
  function CompileTaskFrom(file: Uri, workspace: Uri, compiler: string, tokens: seq<string>, settings: CompilerSettings)
    : (r: Result<Task, TaskError>)
    ensures r.Ok? <==> settings.compilationStateFlag != "" && "-c" in WithCompiler(tokens, compiler)
    ensures r.Err? ==> r.error == (if settings.compilationStateFlag == "" then StateFlagUndefined else CompileFlagNotFound)
    ensures r.Ok? ==>
      r.value.name == compiler && r.value.command.file == file && r.value.command.directory == workspace &&
      settings.compilationStateFlag in r.value.command.command
  {
    var base := WithCompiler(tokens, compiler);
    if settings.compilationStateFlag == "" then Err(StateFlagUndefined)
    else if "-c" !in base then Err(CompileFlagNotFound)
    else
      var argv := CompileArgv(base, settings.compilationStateFlag, settings.additionalFlags);
      Ok(Task(compiler, Command(file, workspace, argv)))
  }

  /** `getCompileTask`: the `every` scan that puts the compiler in front, then the `indexOf("-c")`
      whose slot is overwritten in place. */
  method GetCompileTask(file: Uri, host: Host, settings: CompilerSettings) returns (r: Result<Task, TaskError>)
    ensures r == CompileTask(file, host, settings)
  {
    var workspace := GetWorkspaceFolder(file, host.workspaceOf);
    if workspace.Err? {
      return Err(WorkspaceError(workspace.error));
    }
    var compiler := host.fsPathOf(SubstituteWorkspaceFolder(settings.path, workspace.value));
    if compiler !in host.existing {
      return Err(ToolNotFound(COMPILER_NAME, compiler));
    }
    var tokens := GetCompilationCommand(file, host);
    if tokens.Err? {
      return Err(tokens.error);
    }
    r := BuildCompileTask(file, workspace.value, compiler, tokens.value, settings);
  }

  /** The body of `getCompileTask` after the database lookup. */
  method BuildCompileTask(file: Uri, workspace: Uri, compiler: string, tokens: seq<string>, settings: CompilerSettings)
    returns (r: Result<Task, TaskError>)
    ensures r == CompileTaskFrom(file, workspace, compiler, tokens, settings)
  {
    var command := tokens;
    var i := 0;
    while i < |command|
      invariant 0 <= i <= |command|
      invariant command == tokens
      invariant forall j :: 0 <= j < i ==> !StartsWith(command[j], "-")
    {
      if |command[i]| > 0 && command[i][0] == '-' {
        command := [compiler] + command;
        break;
      }
      i := i + 1;
    }
    assert command == WithCompiler(tokens, compiler);
    if settings.compilationStateFlag == "" {
      return Err(StateFlagUndefined);
    }
    var index := IndexOf(command, "-c");
    if index == -1 {
      return Err(CompileFlagNotFound);
    }
    command := command[index := settings.compilationStateFlag];
    r := Ok(Task(compiler, Command(file, workspace, command + settings.additionalFlags)));
  }

  // ---------------------------------------------------------------- clang-tidy

  /** Every name with a `-` in front. */
  function Negated(keys: seq<string>): (r: seq<string>)
    ensures |r| == |keys| && forall i :: 0 <= i < |keys| ==> r[i] == "-" + keys[i]
  {
    seq(|keys|, i requires 0 <= i < |keys| => "-" + keys[i])
  }

  /** The clang-tidy check list: everything off, then the enabled checks, then each disabled one
      negated. */
  function TidyChecks(enabled: seq<string>, disabled: seq<string>): (r: seq<string>)
    ensures |r| == 1 + |enabled| + |disabled|
    ensures r[0] == "-*" && r[1..1 + |enabled|] == enabled
    ensures forall i :: 0 <= i < |disabled| ==> r[1 + |enabled| + i] == "-" + disabled[i]
  {
    ["-*"] + enabled + Negated(disabled)
  }

  const CHECKS_PREFIX: string := "-checks=\""

  /** The `-checks="…"` argument. */
  function ChecksArgument(checks: seq<string>): (r: string)
    ensures StartsWith(r, CHECKS_PREFIX) && |r| > |CHECKS_PREFIX| && r[|r| - 1] == '"'
    ensures r[|CHECKS_PREFIX|..|r| - 1] == Join(checks, ",")
  {
    CHECKS_PREFIX + Join(checks, ",") + "\""
  }

  /** When no check name contains a comma, the check list can be read back from the argument. */
  lemma ChecksArgumentRoundTrip(checks: seq<string>)
    requires |checks| >= 1
    requires forall i :: 0 <= i < |checks| ==> ',' !in checks[i]
    ensures var a := ChecksArgument(checks);
      |a| >= |CHECKS_PREFIX| + 1 && Split(a[|CHECKS_PREFIX|..|a| - 1], ',') == checks
  {
    var a := ChecksArgument(checks);
    assert a[|CHECKS_PREFIX|..|a| - 1] == Join(checks, [',']);
    SplitJoin(checks, ',');
  }

  /** The clang-tidy task, or the first error the source throws building it. */
  function ClangTidyTask(file: Uri, host: Host, settings: ClangTidySettings): (r: Result<Task, TaskError>)
    ensures r.Ok? ==> |r.value.command.command| == 5 && r.value.command.command[1] == "-p"
    ensures r.Ok? <==> (host.workspaceOf(file).Some? &&
      host.fsPathOf(SubstituteWorkspaceFolder(settings.path, host.workspaceOf(file).value)) in host.existing &&
      "enabled" in settings.checks && "disabled" in settings.checks)
    ensures r.Ok? ==>
      var workspace := host.workspaceOf(file).value;
      "enabled" in settings.checks && "disabled" in settings.checks &&
      r.value.name == host.fsPathOf(SubstituteWorkspaceFolder(settings.path, workspace)) &&
      r.value.command.file == file && r.value.command.directory == workspace &&
      r.value.command.command ==
        [r.value.name, "-p", workspace.fsPath,
         ChecksArgument(TidyChecks(settings.checks["enabled"], settings.checks["disabled"])), file.fsPath]
  {
    var workspace := GetWorkspaceFolder(file, host.workspaceOf);
    if workspace.Err? then Err(WorkspaceError(workspace.error))
    else
      var linter := host.fsPathOf(SubstituteWorkspaceFolder(settings.path, workspace.value));
      if linter !in host.existing then Err(ToolNotFound(CLANG_TIDY_NAME, linter))
      else if "enabled" !in settings.checks || "disabled" !in settings.checks then Err(ChecksFormat(CLANG_TIDY_NAME))
      else
        var checks := TidyChecks(settings.checks["enabled"], settings.checks["disabled"]);
        Ok(Task(linter, Command(file, workspace.value,
          [linter, "-p", workspace.value.fsPath, ChecksArgument(checks), file.fsPath])))
  }

  /** `getClangTidyTask`: the check list is grown by a loop over the disabled checks. */
  method GetClangTidyTask(file: Uri, host: Host, settings: ClangTidySettings) returns (r: Result<Task, TaskError>)
    ensures r == ClangTidyTask(file, host, settings)
  {
    var workspace := GetWorkspaceFolder(file, host.workspaceOf);
    if workspace.Err? {
      return Err(WorkspaceError(workspace.error));
    }
    var linter := host.fsPathOf(SubstituteWorkspaceFolder(settings.path, workspace.value));
    if linter !in host.existing {
      return Err(ToolNotFound(CLANG_TIDY_NAME, linter));
    }
    if "enabled" !in settings.checks || "disabled" !in settings.checks {
      return Err(ChecksFormat(CLANG_TIDY_NAME));
    }
    var enabled, disabled := settings.checks["enabled"], settings.checks["disabled"];
    var checks := ["-*"] + enabled;
    for i := 0 to |disabled|
      invariant checks == ["-*"] + enabled + Negated(disabled[..i])
    {
      assert Negated(disabled[..i + 1]) == Negated(disabled[..i]) + ["-" + disabled[i]];
      checks := checks + ["-" + disabled[i]];
    }
    assert disabled[..|disabled|] == disabled;
    r := Ok(Task(linter, Command(file, workspace.value,
      [linter, "-p", workspace.value.fsPath, CHECKS_PREFIX + Join(checks, ",") + "\"", file.fsPath])));
  }

  // ---------------------------------------------------------------- cppcheck

  /** A compile token cppcheck receives: a define, an include path, or a source file (its last
      `.`-segment is a source-file extension). */
  predicate ForCppCheck(token: string, sourceFileExtensions: seq<string>) {
    StartsWith(token, "-D") || StartsWith(token, "-I") || LastSegment(token, '.') in sourceFileExtensions
  }

  /** The compile tokens cppcheck receives, in their original order. */
  function CppCheckTokens(tokens: seq<string>, sourceFileExtensions: seq<string>): (r: seq<string>)
    ensures |r| <= |tokens|
    ensures forall t :: t in r <==> t in tokens && ForCppCheck(t, sourceFileExtensions)
  {
    Filter(tokens, (t: string) => ForCppCheck(t, sourceFileExtensions))
  }

  /** The cppcheck task, or the first error the source throws building it. */
  function CppCheckTask(file: Uri, host: Host, settings: CppCheckSettings): (r: Result<Task, TaskError>)
    ensures r.Ok? <==> (host.workspaceOf(file).Some? &&
      host.fsPathOf(SubstituteWorkspaceFolder(settings.path, host.workspaceOf(file).value)) in host.existing &&
      GetCompilationCommand(file, host).Ok?)
    ensures r.Ok? ==>
      r.value.name == host.fsPathOf(SubstituteWorkspaceFolder(settings.path, host.workspaceOf(file).value)) &&
      r.value.command.file == file && r.value.command.directory == host.workspaceOf(file).value
  {
    var workspace := GetWorkspaceFolder(file, host.workspaceOf);
    if workspace.Err? then Err(WorkspaceError(workspace.error))
    else
      var linter := host.fsPathOf(SubstituteWorkspaceFolder(settings.path, workspace.value));
      if linter !in host.existing then Err(ToolNotFound(CPPCHECK_NAME, linter))
      else
        var head := [linter, "--enable=" + Join(settings.checks, ",")] + settings.additionalFlags;
        var tokens := GetCompilationCommand(file, host);
        if tokens.Err? then Err(tokens.error)
        else
          Ok(Task(linter, Command(file, workspace.value, head + CppCheckTokens(tokens.value, settings.sourceFileExtensions))))
  }

  /** The cppcheck argument vector is the tool, the enabled checks and the additional flags, then
      exactly the compile tokens cppcheck understands, in their original order. */
  lemma CppCheckArguments(file: Uri, host: Host, settings: CppCheckSettings)
    requires CppCheckTask(file, host, settings).Ok?
    ensures var argv := CppCheckTask(file, host, settings).value.command.command;
      var tokens := GetCompilationCommand(file, host).value;
      var n := 2 + |settings.additionalFlags|;
      |argv| >= n &&
      argv[0] == CppCheckTask(file, host, settings).value.name &&
      argv[0] == host.fsPathOf(SubstituteWorkspaceFolder(settings.path, host.workspaceOf(file).value)) &&
      argv[1] == "--enable=" + Join(settings.checks, ",") &&
      argv[2..n] == settings.additionalFlags &&
      argv[n..] == CppCheckTokens(tokens, settings.sourceFileExtensions) &&
      (forall i :: n <= i < |argv| ==> argv[i] in tokens && ForCppCheck(argv[i], settings.sourceFileExtensions)) &&
      (forall i :: 0 <= i < |tokens| && ForCppCheck(tokens[i], settings.sourceFileExtensions) ==> tokens[i] in argv[n..])
  {
    var argv := CppCheckTask(file, host, settings).value.command.command;
    var n := 2 + |settings.additionalFlags|;
    var tokens := GetCompilationCommand(file, host).value;
    var kept := CppCheckTokens(tokens, settings.sourceFileExtensions);
    assert argv[n..] == kept;
  }

  /** `getCppCheckTask`: the `forEach` that pushes the tokens cppcheck understands. */
  method GetCppCheckTask(file: Uri, host: Host, settings: CppCheckSettings) returns (r: Result<Task, TaskError>)
    ensures r == CppCheckTask(file, host, settings)
  {
    var workspace := GetWorkspaceFolder(file, host.workspaceOf);
    if workspace.Err? {
      return Err(WorkspaceError(workspace.error));
    }
    var linter := host.fsPathOf(SubstituteWorkspaceFolder(settings.path, workspace.value));
    if linter !in host.existing {
      return Err(ToolNotFound(CPPCHECK_NAME, linter));
    }
    var head := [linter, "--enable=" + Join(settings.checks, ",")] + settings.additionalFlags;
    var tokens := GetCompilationCommand(file, host);
    if tokens.Err? {
      return Err(tokens.error);
    }
    var command := AppendCppCheckTokens(head, tokens.value, settings.sourceFileExtensions);
    r := Ok(Task(linter, Command(file, workspace.value, command)));
  }

  /** The `forEach` of `getCppCheckTask`: pushes the tokens cppcheck understands onto `head`. */
  method AppendCppCheckTokens(head: seq<string>, tokens: seq<string>, sourceFileExtensions: seq<string>)
    returns (command: seq<string>)
    ensures command == head + CppCheckTokens(tokens, sourceFileExtensions)
  {
    ghost var keep := (t: string) => ForCppCheck(t, sourceFileExtensions);
    command := head;
    for i := 0 to |tokens|
      invariant command == head + Filter(tokens[..i], keep)
    {
      var value := tokens[i];
      assert tokens[..i + 1][..i] == tokens[..i];
      if StartsWith(value, "-D") || StartsWith(value, "-I") || LastSegment(value, '.') in sourceFileExtensions {
        command := command + [value];
      }
    }
    assert tokens[..|tokens|] == tokens;
  }
}
