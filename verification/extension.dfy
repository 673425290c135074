/** The editor-facing part: which documents the linter acts on, and the order of the calls made
    when a document is closed or cleared. */
module Extension {
  import opened Wrappers
  import opened JsStrings
  import opened Configuration
  import opened Diagnostics
  import opened Runner

  /** The part of a `vscode.TextDocument` the extension reads. */
  datatype TextDocument = TextDocument(uri: Uri, languageId: string, fileName: string)

  /** The extension `toFileUri` compares: the last `.`-separated piece of the lower-cased file
      name, lower-cased once more. */
  function ExtensionOf(fileName: string): (r: string)
    ensures |r| <= |fileName| && '.' !in r
  {
    LastSegmentIsSuffix(ToLowerCase(fileName), '.');
    ToLowerCase(LastSegment(ToLowerCase(fileName), '.'))
  }

  /** `toFileUri`: the document's uri when its scheme is `file`, its language is C++ or C and its
      extension is one of the configured source file extensions; nothing otherwise. */
  function ToFileUri(doc: TextDocument, sourceFileExtensions: seq<string>): (r: Option<Uri>)
    ensures r.Some? ==> r.value == doc.uri
    ensures r.None? <==>
      doc.uri.scheme != "file" || doc.languageId !in ["cpp", "c"] || ExtensionOf(doc.fileName) !in sourceFileExtensions
  {
    if doc.uri.scheme != "file" then None
    else if doc.languageId !in ["cpp", "c"] then None
    else
      var tokens := Split(ToLowerCase(doc.fileName), '.');
      var extension := ToLowerCase(tokens[|tokens| - 1]);
      if extension !in sourceFileExtensions then None
      else Some(doc.uri)
  }

  /** The second lower-casing is redundant: the extension is the last `.`-separated piece of the
      file name as written, lower-cased. */
  lemma ExtensionIsLoweredLastSegment(fileName: string)
    ensures ExtensionOf(fileName) == ToLowerCase(LastSegment(fileName, '.'))
  {
    var parts := Split(fileName, '.');
    var lowParts := Split(ToLowerCase(fileName), '.');
    SplitLowerCase(fileName, '.');
    assert lowParts == LowerEach(parts);
    var last := parts[|parts| - 1];
    assert lowParts[|lowParts| - 1] == ToLowerCase(last);
    assert LastSegment(ToLowerCase(fileName), '.') == ToLowerCase(last);
    ToLowerCaseIdempotent(last);
  }

  /** The extension has no `.`, is in lower case, and ends the lower-cased file name, either as the
      whole name or right after its last `.`. */
  lemma ExtensionIsSuffix(fileName: string)
    ensures var e := ExtensionOf(fileName);
      var lower := ToLowerCase(fileName);
      '.' !in e && ToLowerCase(e) == e && |e| <= |lower| && lower[|lower| - |e|..] == e &&
      (|e| == |lower| || lower[|lower| - |e| - 1] == '.')
  {
    var lower := ToLowerCase(fileName);
    var last := LastSegment(lower, '.');
    LastSegmentIsSuffix(lower, '.');
    ToLowerCaseIdempotent(fileName);
    LowerSuffix(lower, last);
    assert ExtensionOf(fileName) == last;
  }

  /** Whether a document qualifies depends on its file name only through the name's lower-cased
      form: `main.CPP` and `main.cpp` are treated alike. */
  lemma ToFileUriIgnoresCase(doc: TextDocument, otherName: string, sourceFileExtensions: seq<string>)
    requires ToLowerCase(otherName) == ToLowerCase(doc.fileName)
    ensures ToFileUri(doc.(fileName := otherName), sourceFileExtensions) == ToFileUri(doc, sourceFileExtensions)
  {
  }

  /** A file name without a `.` is its own extension: a document named `c`, of language C, is
      linted when `c` is a configured extension. */
  lemma NameWithoutDotIsItsOwnExtension(fileName: string)
    requires '.' !in fileName
    ensures ExtensionOf(fileName) == ToLowerCase(fileName)
  {
    ExtensionIsLoweredLastSegment(fileName);
    SplitNoSeparator(fileName, '.');
  }

  /** `_run`, up to the admission step of `run`: a document that does not qualify, or that lies in
      no workspace folder, is not submitted; otherwise its uri is submitted to the scheduler.
      `_runOnOpen` and `_runOnSave` call it when `enabled` (the `runOnOpen`/`runOnSave` option) is
      set, and `_runOnActiveFile` when there is an active editor. */
  method RunDocument(doc: Option<TextDocument>, enabled: bool, sourceFileExtensions: seq<string>,
                     workspaceOf: Uri -> Option<Uri>, scheduler: Scheduler, cap: int)
    returns (admission: Option<Admission>)
    requires scheduler.Valid()
    modifies scheduler
    ensures scheduler.Valid()
    ensures admission.None? <==>
      !enabled || doc.None? || ToFileUri(doc.value, sourceFileExtensions).None? || workspaceOf(doc.value.uri).None?
    ensures admission.None? ==> unchanged(scheduler)
    ensures admission.Some? ==>
      scheduler.State() == AfterSubmit(old(scheduler.State()), doc.value.uri, cap) &&
      admission.value == AdmissionOf(old(scheduler.State()), doc.value.uri, cap)
  {
    if !enabled || doc.None? {
      return None;
    }
    var fileUri := ToFileUri(doc.value, sourceFileExtensions);
    if fileUri.None? {
      return None;
    }
    var workspaceFolder := workspaceOf(doc.value.uri);
    if workspaceFolder.None? {
      return None;
    }
    var a := scheduler.Submit(fileUri.value, cap);
    admission := Some(a);
  }

  /** A call the clear handlers make, in the order made. */
  datatype HostCall = CancelRunCall(file: Uri) | ClearDiagnosticsCall(file: Uri) | CancelAllRunsCall | ClearAllDiagnosticsCall

  /** `_clearClosedFile`: for a qualifying document, its run is cancelled and then its diagnostics
      are cleared; any other document causes no call. */
  method ClearClosedFile(doc: TextDocument, sourceFileExtensions: seq<string>, scheduler: Scheduler, diagnostics: Aggregator)
    returns (calls: seq<HostCall>)
    requires scheduler.Valid() && diagnostics.Valid()
    modifies scheduler, diagnostics
    ensures scheduler.Valid() && diagnostics.Valid()
    ensures ToFileUri(doc, sourceFileExtensions).None? ==>
      calls == [] && unchanged(scheduler) && unchanged(diagnostics)
    ensures ToFileUri(doc, sourceFileExtensions).Some? ==>
      calls == [CancelRunCall(doc.uri), ClearDiagnosticsCall(doc.uri)] &&
      scheduler.State() == Stopped(old(scheduler.State()), doc.uri) &&
      diagnostics.stored == old(diagnostics.stored)[doc.uri.fsPath := []] &&
      diagnostics.order == Inserted(old(diagnostics.order), doc.uri.fsPath)
  {
    var fileUri := ToFileUri(doc, sourceFileExtensions);
    if fileUri.None? {
      return [];
    }
    scheduler.CancelRun(fileUri.value);
    calls := [CancelRunCall(fileUri.value)];
    diagnostics.ClearDiagnosticsForFile(fileUri.value);
    calls := calls + [ClearDiagnosticsCall(fileUri.value)];
  }

  /** `_clearActiveFile`: without an active editor nothing happens; otherwise its document is
      handled as a closed one. */
  method ClearActiveFile(active: Option<TextDocument>, sourceFileExtensions: seq<string>, scheduler: Scheduler, diagnostics: Aggregator)
    returns (calls: seq<HostCall>)
    requires scheduler.Valid() && diagnostics.Valid()
    modifies scheduler, diagnostics
    ensures scheduler.Valid() && diagnostics.Valid()
    ensures active.None? || ToFileUri(active.value, sourceFileExtensions).None? ==>
      calls == [] && unchanged(scheduler) && unchanged(diagnostics)
    ensures active.Some? && ToFileUri(active.value, sourceFileExtensions).Some? ==>
      calls == [CancelRunCall(active.value.uri), ClearDiagnosticsCall(active.value.uri)] &&
      scheduler.State() == Stopped(old(scheduler.State()), active.value.uri) &&
      diagnostics.stored == old(diagnostics.stored)[active.value.uri.fsPath := []] &&
      diagnostics.order == Inserted(old(diagnostics.order), active.value.uri.fsPath)
  {
    if active.None? {
      return [];
    }
    calls := ClearClosedFile(active.value, sourceFileExtensions, scheduler, diagnostics);
  }

  /** `_clearAll`: every run is cancelled, then every diagnostic is cleared. */
  method ClearAll(scheduler: Scheduler, diagnostics: Aggregator) returns (calls: seq<HostCall>)
    requires diagnostics.Valid()
    modifies scheduler, diagnostics
    ensures scheduler.Valid() && diagnostics.Valid()
    ensures calls == [CancelAllRunsCall, ClearAllDiagnosticsCall]
    ensures scheduler.running == [] && scheduler.runQueue == []
    ensures diagnostics.stored == map[] && diagnostics.published == map[]
  {
    scheduler.CancelAllRuns();
    calls := [CancelAllRunsCall];
    diagnostics.ClearAllDiagnostics();
    calls := calls + [ClearAllDiagnosticsCall];
  }
}
