/** Settings access and workspace-folder resolution of the extension. */
module Configuration {
  import opened Wrappers
  import opened JsStrings

  const INTERNAL_NAME: string := "c-cpp-linter"
  const DISPLAY_NAME: string := "C/C++ Linter"

  /** The placeholder a configured path may start with. */
  const WORKSPACE_FOLDER_VARIABLE: string := "${workspaceFolder}"

  /** A `vscode.Uri`, identified by its scheme and its file-system path. */
  datatype Uri = Uri(scheme: string, fsPath: string)

  /** A path before the host turns it into a `Uri`: `Uri.file(path)`, or `Uri.joinPath(folder,
      relative)`. How the host normalises either into a file-system path is not modelled. */
  datatype Location = FileLocation(path: string) | JoinedLocation(folder: Uri, relative: string)

  datatype OptionCategory = CompilerCategory | ClangTidyCategory | CppCheckCategory | GeneralCategory
  {
    function Name(): string {
      match this
      case CompilerCategory => "compiler"
      case ClangTidyCategory => "clangTidy"
      case CppCheckCategory => "cppCheck"
      case GeneralCategory => "general"
    }
  }

  datatype CompilerOption =
    | CompilerEnabled | CompilerPath | CompilationStateFlag | CompilerAdditionalFlags
    | CompilerParsingRegex | CompilerDiagnosisKeywords
  {
    function Name(): string {
      match this
      case CompilerEnabled => "enabled"
      case CompilerPath => "path"
      case CompilationStateFlag => "compilationStateFlag"
      case CompilerAdditionalFlags => "additionalFlags"
      case CompilerParsingRegex => "parsingRegex"
      case CompilerDiagnosisKeywords => "diagnosisKeywords"
    }
  }

  datatype ClangTidyOption =
    | ClangTidyEnabled | ClangTidyPath | ClangTidyChecks | ClangTidyParsingRegex | ClangTidyDiagnosisKeywords
  {
    function Name(): string {
      match this
      case ClangTidyEnabled => "enabled"
      case ClangTidyPath => "path"
      case ClangTidyChecks => "checks"
      case ClangTidyParsingRegex => "parsingRegex"
      case ClangTidyDiagnosisKeywords => "diagnosisKeywords"
    }
  }

  datatype CppCheckOption =
    | CppCheckEnabled | CppCheckPath | CppCheckAdditionalFlags | CppCheckChecks
    | CppCheckParsingRegex | CppCheckDiagnosisKeywords
  {
    function Name(): string {
      match this
      case CppCheckEnabled => "enabled"
      case CppCheckPath => "path"
      case CppCheckAdditionalFlags => "additionalFlags"
      case CppCheckChecks => "checks"
      case CppCheckParsingRegex => "parsingRegex"
      case CppCheckDiagnosisKeywords => "diagnosisKeywords"
    }
  }

  datatype GeneralOption =
    | BuildFolderPath | ShowInformationDialog | ShowOutputFromLinters | MaximumParallelTasks
    | SourceFileExtensions | IgnoredPaths | RunOnOpen | RunOnSave
  {
    function Name(): string {
      match this
      case BuildFolderPath => "buildFolderPath"
      case ShowInformationDialog => "showInformationDialog"
      case ShowOutputFromLinters => "showOutputFromLinters"
      case MaximumParallelTasks => "maximumParallelTasks"
      case SourceFileExtensions => "sourceFileExtensions"
      case IgnoredPaths => "ignoredPaths"
      case RunOnOpen => "runOnOpen"
      case RunOnSave => "runOnSave"
    }
  }

  /** The errors this module throws. */
  datatype ConfigError =
    | InvalidOption(category: OptionCategory, option: string)
    | NoWorkspaceFolder(file: Uri)

  /** The key an option is read under, inside the extension's own section of the settings. */
  function Key(category: OptionCategory, option: string): string {
    category.Name() + "." + option
  }

  /** Reads `<category>.<option>` from the extension's settings (`settings` is that section);
      an undefined value is an error, any other value is handed back as it is. */
  function GetOption<V>(settings: map<string, V>, category: OptionCategory, option: string): (r: Result<V, ConfigError>)
    ensures r.Ok? <==> category.Name() + "." + option in settings
    ensures r.Ok? ==> r.value == settings[category.Name() + "." + option]
    ensures r.Err? ==> r.error == InvalidOption(category, option)
  {
    var key := Key(category, option);
    if key !in settings then Err(InvalidOption(category, option)) else Ok(settings[key])
  }

  function GetCompilerOption<V>(settings: map<string, V>, option: CompilerOption): (r: Result<V, ConfigError>)
    ensures r.Ok? <==> "compiler." + option.Name() in settings
    ensures r.Ok? ==> r.value == settings["compiler." + option.Name()]
  {
    assert Key(CompilerCategory, option.Name()) == "compiler." + option.Name();
    GetOption(settings, CompilerCategory, option.Name())
  }

  function GetClangTidyOption<V>(settings: map<string, V>, option: ClangTidyOption): (r: Result<V, ConfigError>)
    ensures r.Ok? <==> "clangTidy." + option.Name() in settings
    ensures r.Ok? ==> r.value == settings["clangTidy." + option.Name()]
  {
    assert Key(ClangTidyCategory, option.Name()) == "clangTidy." + option.Name();
    GetOption(settings, ClangTidyCategory, option.Name())
  }

  function GetCppCheckOption<V>(settings: map<string, V>, option: CppCheckOption): (r: Result<V, ConfigError>)
    ensures r.Ok? <==> "cppCheck." + option.Name() in settings
    ensures r.Ok? ==> r.value == settings["cppCheck." + option.Name()]
  {
    assert Key(CppCheckCategory, option.Name()) == "cppCheck." + option.Name();
    GetOption(settings, CppCheckCategory, option.Name())
  }

  function GetGeneralOption<V>(settings: map<string, V>, option: GeneralOption): (r: Result<V, ConfigError>)
    ensures r.Ok? <==> "general." + option.Name() in settings
    ensures r.Ok? ==> r.value == settings["general." + option.Name()]
  {
    assert Key(GeneralCategory, option.Name()) == "general." + option.Name();
    GetOption(settings, GeneralCategory, option.Name())
  }

  /** Two reads look at the same setting only when they ask for the same category and option:
      no category name contains a dot, so the first dot of a key ends its category. */
  lemma KeyInjective(c1: OptionCategory, o1: string, c2: OptionCategory, o2: string)
    requires Key(c1, o1) == Key(c2, o2)
    ensures c1 == c2 && o1 == o2
  {
    var n1, n2 := c1.Name(), c2.Name();
    var k := Key(c1, o1);
    assert '.' !in n1 && '.' !in n2;
    assert k[|n1|] == '.' && k[|n2|] == '.';
    assert forall i :: 0 <= i < |n1| ==> k[i] == n1[i];
    assert forall i :: 0 <= i < |n2| ==> k[i] == n2[i];
    assert |n1| == |n2|;
    assert n1 == k[..|n1|] == n2;
    assert o1 == k[|n1| + 1..] == o2;
  }

  /** Replaces a leading `${workspaceFolder}` of a configured path by the workspace folder;
      any other path is taken as a file path as it stands. */
  function SubstituteWorkspaceFolder(rawPath: string, workspaceFolder: Uri): (r: Location)
    ensures r.JoinedLocation? <==> StartsWith(rawPath, WORKSPACE_FOLDER_VARIABLE)
    ensures r.JoinedLocation? ==> r.folder == workspaceFolder && WORKSPACE_FOLDER_VARIABLE + r.relative == rawPath
    ensures r.JoinedLocation? ==> |rawPath| >= 18 && r.relative == rawPath[18..]
    ensures r.FileLocation? ==> r.path == rawPath
  {
    var variable := WORKSPACE_FOLDER_VARIABLE;
    if StartsWith(rawPath, variable) then
      JoinedLocation(workspaceFolder, rawPath[|variable|..])
    else
      FileLocation(rawPath)
  }

  /** The configured text a location was made from; `SubstituteWorkspaceFolder` loses nothing of it. */
  function RawPath(l: Location): string {
    match l
    case FileLocation(p) => p
    case JoinedLocation(_, relative) => WORKSPACE_FOLDER_VARIABLE + relative
  }

  lemma SubstituteKeepsRawPath(rawPath: string, workspaceFolder: Uri)
    ensures RawPath(SubstituteWorkspaceFolder(rawPath, workspaceFolder)) == rawPath
    ensures !StartsWith(rawPath, WORKSPACE_FOLDER_VARIABLE) ==>
      forall other: Uri :: SubstituteWorkspaceFolder(rawPath, other) == SubstituteWorkspaceFolder(rawPath, workspaceFolder)
  {
  }

  /** `vscode.workspace.getWorkspaceFolder(file)`, supplied by the host as `workspaceOf`;
      a file outside every workspace folder is an error. */
  function GetWorkspaceFolder(file: Uri, workspaceOf: Uri -> Option<Uri>): (r: Result<Uri, ConfigError>)
    ensures r.Err? <==> workspaceOf(file).None?
    ensures r.Err? ==> r.error == NoWorkspaceFolder(file)
    ensures r.Ok? ==> r.value == workspaceOf(file).value
  {
    match workspaceOf(file)
    case None => Err(NoWorkspaceFolder(file))
    case Some(folder) => Ok(folder)
  }
}
