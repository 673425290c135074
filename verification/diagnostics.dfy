/** Parsing of tool output into diagnostics, and the per-file aggregation that is published. */
module Diagnostics {
  import opened Wrappers
  import opened Sequences
  import opened JsStrings
  import opened Configuration

  datatype Severity = Error | Warning | Information

  /** Zero-based line and character. */
  datatype Position = Position(line: int, character: int)
  datatype Range = Range(start: Position, end: Position)

  datatype Diagnostic = Diagnostic(range: Range, message: string, severity: Severity, source: string)

  /** A diagnostic with the path of the file it reports on. */
  datatype DiagnosticForFile = DiagnosticForFile(file: string, diagnostic: Diagnostic)

  /** The three severity keyword lists of one tool. */
  datatype DiagnosisKeywords = DiagnosisKeywords(errors: seq<string>, warnings: seq<string>, information: seq<string>)

  /** One element of `matchAll`: the whole match, then the capture groups (`None` for a group
      that did not take part in the match). */
  type Match = seq<Option<string>>

  /** A tool's output with how to read it. `parsingExpression` gives, for one line of output,
      everything the tool's global regular expression matches in it. */
  datatype TaskResult = TaskResult(output: string, parsingExpression: string -> seq<Match>, keywords: DiagnosisKeywords)

  /** The `TaskResult` constructor: the keyword lists are taken by position (errors, warnings,
      information). */
  function NewTaskResult(output: string, parsingExpression: string -> seq<Match>, keywords: seq<seq<string>>): (r: TaskResult)
    requires |keywords| >= 3
    ensures r.output == output && r.parsingExpression == parsingExpression
    ensures r.keywords.errors == keywords[0] && r.keywords.warnings == keywords[1] && r.keywords.information == keywords[2]
  {
    TaskResult(output, parsingExpression, DiagnosisKeywords(keywords[0], keywords[1], keywords[2]))
  }

  /** What parsing reads from the host: `fileExists` is `existsSync`, `ignoredPaths` the configured
      patterns and `matchesPattern(file, pattern)` whether `file.match(pattern)` finds a match. */
  datatype ParsingHost = ParsingHost(
    fileExists: string -> bool,
    ignoredPaths: seq<string>,
    matchesPattern: (string, string) -> bool)

  // ---------------------------------------------------------------- one match

  /** `match[i] || ""`. */
  function Group(g: Option<string>): string {
    if g.Some? then g.value else ""
  }

  /** `parseInt(match[i]) || 1`: a missing group, NaN and zero all become 1. */
  function NumberOrOne(g: Option<string>): (r: int)
    ensures r != 0
    ensures g.Some? && ParseInt(g.value).Some? && ParseInt(g.value).value != 0 ==> r == ParseInt(g.value).value
    ensures (g.None? || ParseInt(g.value).None? || ParseInt(g.value).value == 0) ==> r == 1
  {
    var parsed := if g.None? then None else ParseInt(g.value);
    if parsed.None? || parsed.value == 0 then 1 else parsed.value
  }

  /** Some ignored-path pattern matches `file`. */
  predicate Ignored(file: string, host: ParsingHost) {
    exists i :: 0 <= i < |host.ignoredPaths| && host.matchesPattern(file, host.ignoredPaths[i])
  }

  /** The severity a keyword stands for; the error list is consulted first, then the warning list,
      then the information list, and a keyword in none of them has no severity. */
  function ResolveSeverity(token: string, keywords: DiagnosisKeywords): (r: Option<Severity>)
    ensures r == Some(Error) <==> token in keywords.errors
    ensures r == Some(Warning) <==> token !in keywords.errors && token in keywords.warnings
    ensures r == Some(Information) <==> token !in keywords.errors && token !in keywords.warnings && token in keywords.information
    ensures r.None? <==> token !in keywords.errors + keywords.warnings + keywords.information
  {
    if token in keywords.errors then Some(Error)
    else if token in keywords.warnings then Some(Warning)
    else if token in keywords.information then Some(Information)
    else None
  }

  /** The zero-width range at a one-based line and column. */
  function PointAt(line: int, column: int): (r: Range)
    ensures r.start == r.end && r.start.line == line - 1 && r.start.character == column - 1
  {
    Range(Position(line - 1, column - 1), Position(line - 1, column - 1))
  }

  /** The diagnostic one match yields, if any. A match yields one exactly when it has five groups,
      its file, severity and message groups are not empty, the file exists and is not ignored,
      and its severity keyword is known. */
  function Classify(m: Match, keywords: DiagnosisKeywords, host: ParsingHost): (r: Option<DiagnosticForFile>)
    ensures r.Some? <==>
      |m| == 6 && Group(m[1]) != "" && Group(m[4]) != "" && Group(m[5]) != "" &&
      host.fileExists(Group(m[1])) && !Ignored(Group(m[1]), host) && ResolveSeverity(Group(m[4]), keywords).Some?
    ensures r.Some? ==>
      r.value.file == Group(m[1]) &&
      r.value.diagnostic == Diagnostic(PointAt(NumberOrOne(m[2]), NumberOrOne(m[3])), Group(m[5]),
                                       ResolveSeverity(Group(m[4]), keywords).value, INTERNAL_NAME)
  {
    if |m| != 6 then None
    else
      var file := Group(m[1]);
      var line := NumberOrOne(m[2]);
      var column := NumberOrOne(m[3]);
      var severityString := Group(m[4]);
      var text := Group(m[5]);
      if file == "" || line == 0 || column == 0 || severityString == "" || text == "" then None
      else if !host.fileExists(file) || Ignored(file, host) then None
      else
        match ResolveSeverity(severityString, keywords)
        case None => None
        case Some(severity) =>
          Some(DiagnosticForFile(file, Diagnostic(PointAt(line, column), text, severity, INTERNAL_NAME)))
  }

  /** What every generated diagnostic satisfies. */
  predicate WellFormed(d: DiagnosticForFile, host: ParsingHost) {
    d.file != "" && host.fileExists(d.file) && !Ignored(d.file, host) &&
    d.diagnostic.message != "" && d.diagnostic.range.start == d.diagnostic.range.end &&
    d.diagnostic.source == INTERNAL_NAME
  }

  function OptionToSeq<T>(o: Option<T>): seq<T> {
    if o.Some? then [o.value] else []
  }

  /** The diagnostics of the matches of one line, in match order. Each is the classification of
      one of the matches. */
  function FromMatches(ms: seq<Match>, keywords: DiagnosisKeywords, host: ParsingHost): (r: seq<DiagnosticForFile>)
    ensures |r| <= |ms|
    ensures forall d :: d in r ==> exists j :: 0 <= j < |ms| && Classify(ms[j], keywords, host) == Some(d)
  {
    if ms == [] then []
    else
      var init := ms[..|ms| - 1];
      assert forall j :: 0 <= j < |init| ==> init[j] == ms[j];
      FromMatches(init, keywords, host) + OptionToSeq(Classify(ms[|ms| - 1], keywords, host))
  }

  /** The diagnostics of the lines, in line order. */
  function FromLines(lines: seq<string>, result: TaskResult, host: ParsingHost): (r: seq<DiagnosticForFile>)
    ensures forall d :: d in r ==>
      exists i :: 0 <= i < |lines| && d in FromMatches(result.parsingExpression(lines[i]), result.keywords, host)
  {
    if lines == [] then []
    else
      assert forall i :: 0 <= i < |lines| - 1 ==> lines[..|lines| - 1][i] == lines[i];
      FromLines(lines[..|lines| - 1], result, host) + FromMatches(result.parsingExpression(lines[|lines| - 1]), result.keywords, host)
  }

  /** All diagnostics a tool's output yields: every match of every line, classified. */
  function Generated(result: TaskResult, host: ParsingHost): (r: seq<DiagnosticForFile>)
    ensures forall d :: d in r ==> WellFormed(d, host)
  {
    FromLinesWellFormed(Split(result.output, '\n'), result, host);
    FromLines(Split(result.output, '\n'), result, host)
  }

  /** The diagnostics of consecutive runs of matches follow each other: the output keeps the
      order of the matches. */
  lemma {:induction false} FromMatchesAppend(ms: seq<Match>, ns: seq<Match>, keywords: DiagnosisKeywords, host: ParsingHost)
    ensures FromMatches(ms + ns, keywords, host) == FromMatches(ms, keywords, host) + FromMatches(ns, keywords, host)
  {
    if ns != [] {
      assert (ms + ns)[..|ms + ns| - 1] == ms + ns[..|ns| - 1];
      FromMatchesAppend(ms, ns[..|ns| - 1], keywords, host);
    } else {
      assert ms + ns == ms;
    }
  }

  /** Every generated diagnostic is the classification of some match on some line of the output:
      it sits at that match's line and column less one, carries its message and its resolved
      severity. */
  lemma GeneratedSound(result: TaskResult, host: ParsingHost, d: DiagnosticForFile)
    requires d in Generated(result, host)
    ensures exists i, j ::
      0 <= i < |Split(result.output, '\n')| &&
      0 <= j < |result.parsingExpression(Split(result.output, '\n')[i])| &&
      Classify(result.parsingExpression(Split(result.output, '\n')[i])[j], result.keywords, host) == Some(d)
  {
    var lines := Split(result.output, '\n');
    var i :| 0 <= i < |lines| && d in FromMatches(result.parsingExpression(lines[i]), result.keywords, host);
    var j :| 0 <= j < |result.parsingExpression(lines[i])| &&
      Classify(result.parsingExpression(lines[i])[j], result.keywords, host) == Some(d);
  }

  /** Everything generated passes the checks a match must pass. */
  lemma {:induction false} FromLinesWellFormed(lines: seq<string>, result: TaskResult, host: ParsingHost)
    ensures forall d :: d in FromLines(lines, result, host) ==> WellFormed(d, host)
  {
    if lines != [] {
      FromLinesWellFormed(lines[..|lines| - 1], result, host);
      FromMatchesWellFormed(result.parsingExpression(lines[|lines| - 1]), result.keywords, host);
    }
  }

  lemma {:induction false} FromMatchesWellFormed(ms: seq<Match>, keywords: DiagnosisKeywords, host: ParsingHost)
    ensures forall d :: d in FromMatches(ms, keywords, host) ==> WellFormed(d, host)
  {
    if ms != [] {
      FromMatchesWellFormed(ms[..|ms| - 1], keywords, host);
    }
  }

  lemma {:induction false} FromMatchesComplete(ms: seq<Match>, keywords: DiagnosisKeywords, host: ParsingHost, j: nat)
    requires j < |ms| && Classify(ms[j], keywords, host).Some?
    ensures Classify(ms[j], keywords, host).value in FromMatches(ms, keywords, host)
  {
    if j < |ms| - 1 {
      assert ms[..|ms| - 1][j] == ms[j];
      FromMatchesComplete(ms[..|ms| - 1], keywords, host, j);
    }
  }

  /** Every match that classifies, on any line, is among the generated diagnostics. */
  lemma {:induction false} GeneratedComplete(lines: seq<string>, result: TaskResult, host: ParsingHost, i: nat, j: nat)
    requires i < |lines| && j < |result.parsingExpression(lines[i])|
    requires Classify(result.parsingExpression(lines[i])[j], result.keywords, host).Some?
    ensures Classify(result.parsingExpression(lines[i])[j], result.keywords, host).value in FromLines(lines, result, host)
  {
    if i < |lines| - 1 {
      assert lines[..|lines| - 1][i] == lines[i];
      GeneratedComplete(lines[..|lines| - 1], result, host, i, j);
    } else {
      FromMatchesComplete(result.parsingExpression(lines[i]), result.keywords, host, j);
    }
  }

  /** A compiler error line `main.cpp:10:5: error: missing semicolon` gives one error at
      zero-based line 9, column 4. */
  lemma ParsesCompilerLine(result: TaskResult, host: ParsingHost)
    requires '\n' !in result.output
    requires result.parsingExpression(result.output) ==
      [[Some(result.output), Some("main.cpp"), Some("10"), Some("5"), Some("error"), Some("missing semicolon")]]
    requires result.keywords.errors == ["error"]
    requires host.fileExists("main.cpp") && host.ignoredPaths == []
    ensures Generated(result, host) ==
      [DiagnosticForFile("main.cpp", Diagnostic(Range(Position(9, 4), Position(9, 4)), "missing semicolon", Error, INTERNAL_NAME))]
  {
    var m := [Some(result.output), Some("main.cpp"), Some("10"), Some("5"), Some("error"), Some("missing semicolon")];
    ClassifiesCompilerLine(m, result.keywords, host);
    OneLineOneMatch(result, host, m);
  }

  /** A one-line output whose only match classifies yields that one diagnostic. */
  lemma OneLineOneMatch(result: TaskResult, host: ParsingHost, m: Match)
    requires '\n' !in result.output
    requires result.parsingExpression(result.output) == [m]
    requires Classify(m, result.keywords, host).Some?
    ensures Generated(result, host) == [Classify(m, result.keywords, host).value]
  {
    SplitNoSeparator(result.output, '\n');
    var d := Classify(m, result.keywords, host).value;
    var ms := [m];
    assert ms[..|ms| - 1] == [];
    assert FromMatches(ms, result.keywords, host) == [] + [d];
    var lines := [result.output];
    assert lines[..|lines| - 1] == [];
    assert FromLines(lines, result, host) == [] + FromMatches(ms, result.keywords, host);
  }

  /** A captured decimal number is read as itself (as an integer, without double rounding). */
  lemma NumberOrOneDecimal(n: nat)
    requires n > 0
    ensures NumberOrOne(Some(DecimalString(n))) == n
  {
    ParseIntDecimal(n);
  }

  lemma ClassifiesCompilerLine(m: Match, keywords: DiagnosisKeywords, host: ParsingHost)
    requires |m| == 6 && m[1..] == [Some("main.cpp"), Some("10"), Some("5"), Some("error"), Some("missing semicolon")]
    requires keywords.errors == ["error"]
    requires host.fileExists("main.cpp") && host.ignoredPaths == []
    ensures Classify(m, keywords, host) ==
      Some(DiagnosticForFile("main.cpp", Diagnostic(Range(Position(9, 4), Position(9, 4)), "missing semicolon", Error, INTERNAL_NAME)))
  {
    assert NumberOrOne(m[2]) == 10 by {
      assert DecimalString(10) == "10";
      NumberOrOneDecimal(10);
    }
    assert NumberOrOne(m[3]) == 5 by {
      assert DecimalString(5) == "5";
      NumberOrOneDecimal(5);
    }
    assert !Ignored("main.cpp", host);
  }

  /** The body of the inner `forEach` in `generateDiagnosticsForFiles`: the group and number
      checks, the existence check, the loop over the ignored-path patterns that stops at the first
      one matching, and the severity lookup. It decides exactly as `Classify` does. */
  method ClassifyMatch(m: Match, keywords: DiagnosisKeywords, host: ParsingHost) returns (r: Option<DiagnosticForFile>)
    ensures r == Classify(m, keywords, host)
  {
    if |m| != 6 {
      return None;
    }
    var file := Group(m[1]);
    var line := NumberOrOne(m[2]);
    var column := NumberOrOne(m[3]);
    var severityString := Group(m[4]);
    var text := Group(m[5]);
    if file == "" || line == 0 || column == 0 || severityString == "" || text == "" {
      return None;
    }
    if !host.fileExists(file) {
      return None;
    }
    var shouldBreak := false;
    var k := 0;
    while k < |host.ignoredPaths|
      invariant 0 <= k <= |host.ignoredPaths|
      invariant forall p :: 0 <= p < k ==> !host.matchesPattern(file, host.ignoredPaths[p])
    {
      if host.matchesPattern(file, host.ignoredPaths[k]) {
        shouldBreak := true;
        break;
      }
      k := k + 1;
    }
    if shouldBreak {
      return None;
    }
    var severity := ResolveSeverity(severityString, keywords);
    if severity.None? {
      return None;
    }
    r := Some(DiagnosticForFile(file, Diagnostic(PointAt(line, column), text, severity.value, INTERNAL_NAME)));
  }

  /** `generateDiagnosticsForFiles`: every match of every line, pushed in order. */
  method GenerateDiagnosticsForFiles(result: TaskResult, host: ParsingHost) returns (diagnostics: seq<DiagnosticForFile>)
    ensures diagnostics == Generated(result, host)
  {
    var lines := Split(result.output, '\n');
    diagnostics := [];
    for i := 0 to |lines|
      invariant diagnostics == FromLines(lines[..i], result, host)
    {
      var fromLine := DiagnosticsOfLine(result.parsingExpression(lines[i]), result.keywords, host);
      FromLinesSnoc(lines, i, result, host);
      diagnostics := diagnostics + fromLine;
    }
    assert lines[..|lines|] == lines;
  }

  /** The inner loop of `generateDiagnosticsForFiles`, over the matches of one line. */
  method DiagnosticsOfLine(matches: seq<Match>, keywords: DiagnosisKeywords, host: ParsingHost)
    returns (diagnostics: seq<DiagnosticForFile>)
    ensures diagnostics == FromMatches(matches, keywords, host)
  {
    diagnostics := [];
    for j := 0 to |matches|
      invariant diagnostics == FromMatches(matches[..j], keywords, host)
    {
      var d := ClassifyMatch(matches[j], keywords, host);
      FromMatchesSnoc(matches, j, keywords, host);
      if d.Some? {
        diagnostics := diagnostics + [d.value];
      }
    }
    assert matches[..|matches|] == matches;
  }

  lemma FromMatchesSnoc(ms: seq<Match>, j: nat, keywords: DiagnosisKeywords, host: ParsingHost)
    requires j < |ms|
    ensures FromMatches(ms[..j + 1], keywords, host) == FromMatches(ms[..j], keywords, host) + OptionToSeq(Classify(ms[j], keywords, host))
  {
    assert ms[..j + 1][..j] == ms[..j];
  }

  lemma FromLinesSnoc(lines: seq<string>, i: nat, result: TaskResult, host: ParsingHost)
    requires i < |lines|
    ensures FromLines(lines[..i + 1], result, host) ==
      FromLines(lines[..i], result, host) + FromMatches(result.parsingExpression(lines[i]), result.keywords, host)
  {
    assert lines[..i + 1][..i] == lines[..i];
  }

  // ---------------------------------------------------------------- aggregation

  /** Two diagnostics are the same finding when range, message and severity agree. */
  predicate SameIdentity(a: Diagnostic, b: Diagnostic) {
    a.range == b.range && a.message == b.message && a.severity == b.severity
  }

  /** `alreadyInTheList`: the list holds a diagnostic of the same identity. */
  function AlreadyInTheList(list: seq<Diagnostic>, value: Diagnostic): (r: bool)
    ensures r <==> exists i :: 0 <= i < |list| && SameIdentity(list[i], value)
  {
    if list == [] then false
    else if SameIdentity(list[0], value) then true
    else
      assert forall i :: 1 <= i < |list| ==> list[i] == list[1..][i - 1];
      AlreadyInTheList(list[1..], value)
  }

  /** The published view built from a flat list of stored diagnostics: per reporting file, each
      diagnostic whose identity is not already listed is appended. */
  function View(xs: seq<DiagnosticForFile>): (r: map<string, seq<Diagnostic>>)
    ensures forall k :: 0 <= k < |xs| ==> xs[k].file in r
    ensures forall f :: f in r ==> r[f] != []
  {
    if xs == [] then map[]
    else
      assert forall k :: 0 <= k < |xs| - 1 ==> xs[..|xs| - 1][k] == xs[k];
      Added(View(xs[..|xs| - 1]), xs[|xs| - 1])
  }

  /** One step of the view: `x`'s diagnostic is appended under its file unless already listed. */
  function Added(m: map<string, seq<Diagnostic>>, x: DiagnosticForFile): (r: map<string, seq<Diagnostic>>)
    ensures r.Keys == m.Keys + {x.file}
    ensures forall f :: f in m && f != x.file ==> r[f] == m[f]
    ensures AlreadyInTheList(r[x.file], x.diagnostic)
  {
    var fileDiagnostics := if x.file in m then m[x.file] else [];
    assert SameIdentity((fileDiagnostics + [x.diagnostic])[|fileDiagnostics|], x.diagnostic);
    m[x.file := if AlreadyInTheList(fileDiagnostics, x.diagnostic) then fileDiagnostics else fileDiagnostics + [x.diagnostic]]
  }

  /** The diagnostics reported on `file`, in order. */
  function DiagnosticsOn(xs: seq<DiagnosticForFile>, file: string): (r: seq<Diagnostic>)
    ensures forall d :: d in r ==> DiagnosticForFile(file, d) in xs
  {
    if xs == [] then []
    else
      var init := DiagnosticsOn(xs[..|xs| - 1], file);
      var x := xs[|xs| - 1];
      assert forall y :: y in xs[..|xs| - 1] ==> y in xs;
      if x.file == file then init + [x.diagnostic] else init
  }

  /** The first diagnostic of each identity, in order of first occurrence. */
  function Dedup(ds: seq<Diagnostic>): (r: seq<Diagnostic>)
    ensures forall d :: d in r ==> d in ds
    ensures forall i, j :: 0 <= i < j < |r| ==> !SameIdentity(r[i], r[j])
    ensures forall d :: AlreadyInTheList(r, d) <==> AlreadyInTheList(ds, d)
  {
    if ds == [] then []
    else
      var init := ds[..|ds| - 1];
      var last := ds[|ds| - 1];
      var r := Dedup(init);
      assert ds == init + [last];
      InListSnoc(init, last);
      if AlreadyInTheList(r, last) then r
      else
        InListSnoc(r, last);
        r + [last]
  }

  /** Appending `x` to a list adds exactly the identity of `x` to what the list holds. */
  lemma InListSnoc(list: seq<Diagnostic>, x: Diagnostic)
    ensures forall d :: AlreadyInTheList(list + [x], d) <==> AlreadyInTheList(list, d) || SameIdentity(x, d)
  {
    var l := list + [x];
    forall d ensures AlreadyInTheList(l, d) <==> AlreadyInTheList(list, d) || SameIdentity(x, d) {
      if AlreadyInTheList(l, d) {
        var i :| 0 <= i < |l| && SameIdentity(l[i], d);
        if i < |list| {
          assert l[i] == list[i];
        }
      }
      if AlreadyInTheList(list, d) {
        var i :| 0 <= i < |list| && SameIdentity(list[i], d);
        assert l[i] == list[i];
      }
      if SameIdentity(x, d) {
        assert l[|list|] == x;
      }
    }
  }

  /** A diagnostic is kept exactly when no earlier one has its identity: the deduplicated list is
      the list of first occurrences, in their original order. */
  lemma DedupKeepsFirstOccurrences(ds: seq<Diagnostic>, d: Diagnostic)
    ensures Dedup(ds + [d]) == if AlreadyInTheList(ds, d) then Dedup(ds) else Dedup(ds) + [d]
  {
    assert (ds + [d])[..|ds|] == ds;
  }

  /** The published list of each file is the deduplication of what is stored for it, and a file is
      published exactly when something is stored for it. */
  lemma {:induction false} ViewIsDedup(xs: seq<DiagnosticForFile>, file: string)
    ensures file in View(xs) <==> DiagnosticsOn(xs, file) != []
    ensures file in View(xs) ==> View(xs)[file] == Dedup(DiagnosticsOn(xs, file))
  {
    if xs != [] {
      var init := xs[..|xs| - 1];
      var x := xs[|xs| - 1];
      ViewIsDedup(init, file);
      if x.file == file {
        var on := DiagnosticsOn(init, file);
        assert (on + [x.diagnostic])[..|on|] == on;
        if file !in View(init) {
          assert Dedup(on) == [];
          assert Dedup([x.diagnostic]) == [x.diagnostic] by {
            assert [x.diagnostic][..0] == [];
          }
          assert on + [x.diagnostic] == [x.diagnostic];
        }
      }
    }
  }

  /** What is published: no file lists two diagnostics of the same identity; every stored
      diagnostic's identity is listed under its reporting file; and only stored diagnostics are
      listed. */
  lemma PublishedView(xs: seq<DiagnosticForFile>)
    ensures forall f :: f in View(xs) ==>
      forall i, j :: 0 <= i < j < |View(xs)[f]| ==> !SameIdentity(View(xs)[f][i], View(xs)[f][j])
    ensures forall k :: 0 <= k < |xs| ==>
      xs[k].file in View(xs) && AlreadyInTheList(View(xs)[xs[k].file], xs[k].diagnostic)
    ensures forall f, d :: f in View(xs) && d in View(xs)[f] ==> DiagnosticForFile(f, d) in xs
  {
    forall f | f in View(xs) ensures View(xs)[f] == Dedup(DiagnosticsOn(xs, f)) {
      ViewIsDedup(xs, f);
    }
    forall k | 0 <= k < |xs|
      ensures xs[k].file in View(xs) && AlreadyInTheList(View(xs)[xs[k].file], xs[k].diagnostic)
    {
      OnContains(xs, k);
      ViewIsDedup(xs, xs[k].file);
      var on := DiagnosticsOn(xs, xs[k].file);
      var i :| 0 <= i < |on| && on[i] == xs[k].diagnostic;
      assert SameIdentity(on[i], xs[k].diagnostic);
    }
  }

  lemma {:induction false} OnContains(xs: seq<DiagnosticForFile>, k: nat)
    requires k < |xs|
    ensures xs[k].diagnostic in DiagnosticsOn(xs, xs[k].file)
  {
    if k < |xs| - 1 {
      assert xs[..|xs| - 1][k] == xs[k];
      OnContains(xs[..|xs| - 1], k);
    }
  }

  /** All stored diagnostics, driving file by driving file in the map's insertion order. */
  function Flattened(order: seq<string>, stored: map<string, seq<DiagnosticForFile>>): seq<DiagnosticForFile>
    requires forall i :: 0 <= i < |order| ==> order[i] in stored
  {
    if order == [] then []
    else Flattened(order[..|order| - 1], stored) + stored[order[|order| - 1]]
  }

  lemma ViewSnoc(xs: seq<DiagnosticForFile>, x: DiagnosticForFile)
    ensures View(xs + [x]) == Added(View(xs), x)
  {
    assert (xs + [x])[..|xs|] == xs;
  }

  lemma ViewStep(before: seq<DiagnosticForFile>, diagnostics: seq<DiagnosticForFile>, j: nat)
    requires j < |diagnostics|
    ensures View(before + diagnostics[..j + 1]) == Added(View(before + diagnostics[..j]), diagnostics[j])
  {
    assert diagnostics[..j + 1] == diagnostics[..j] + [diagnostics[j]];
    assert before + diagnostics[..j + 1] == (before + diagnostics[..j]) + [diagnostics[j]];
    ViewSnoc(before + diagnostics[..j], diagnostics[j]);
  }

  lemma FlattenedSnoc(order: seq<string>, i: nat, stored: map<string, seq<DiagnosticForFile>>)
    requires i < |order|
    requires forall k :: 0 <= k < |order| ==> order[k] in stored
    ensures Flattened(order[..i + 1], stored) == Flattened(order[..i], stored) + stored[order[i]]
  {
    assert order[..i + 1][..i] == order[..i];
  }

  /** The inner loop of `update`: adds the diagnostics of one driving file to the view under
      construction (`before` is what the view was built from so far). */
  method AddToView(view: map<string, seq<Diagnostic>>, ghost before: seq<DiagnosticForFile>, diagnostics: seq<DiagnosticForFile>)
    returns (result: map<string, seq<Diagnostic>>)
    requires view == View(before)
    ensures result == View(before + diagnostics)
  {
    result := view;
    assert before + diagnostics[..0] == before;
    for j := 0 to |diagnostics|
      invariant result == View(before + diagnostics[..j])
    {
      var d := diagnostics[j];
      var fileDiagnostics := if d.file in result then result[d.file] else [];
      if !AlreadyInTheList(fileDiagnostics, d.diagnostic) {
        fileDiagnostics := fileDiagnostics + [d.diagnostic];
      }
      ViewStep(before, diagnostics, j);
      assert result[d.file := fileDiagnostics] == Added(result, d);
      result := result[d.file := fileDiagnostics];
    }
    assert diagnostics[..|diagnostics|] == diagnostics;
  }

  /** The order of a JavaScript `Map`'s keys after `set(key, …)`: the keys already there keep
      their places, and a new key goes last. */
  function Inserted(order: seq<string>, key: string): (r: seq<string>)
    ensures |order| <= |r| <= |order| + 1 && forall i :: 0 <= i < |order| ==> r[i] == order[i]
    ensures key !in order ==> |r| == |order| + 1 && r[|order|] == key
    ensures key in order ==> |r| == |order|
    ensures NoDup(order) ==> NoDup(r)
    ensures forall k :: k in r <==> k in order || k == key
  {
    if key in order then order else order + [key]
  }

  /** The module-level `_diagnostics` map (driving file to its diagnostics, with its key order)
      and the diagnostics collection it is published to. */
  class Aggregator {
    var order: seq<string>
    var stored: map<string, seq<DiagnosticForFile>>
    var published: map<string, seq<Diagnostic>>

    ghost predicate Consistent()
      reads this
    {
      NoDup(order) && (forall k :: k in stored <==> k in order)
    }

    /** The collection always shows the deduplicated flattening of what is stored. */
    ghost predicate Valid()
      reads this
    {
      Consistent() && published == View(Flattened(order, stored))
    }

    constructor ()
      ensures Valid() && order == [] && stored == map[] && published == map[]
    {
      order, stored, published := [], map[], map[];
    }

    /** `update`: rebuilds the collection from every stored diagnostic. */
    method Update()
      requires Consistent()
      modifies this`published
      ensures Valid()
    {
      var result: map<string, seq<Diagnostic>> := map[];
      for i := 0 to |order|
        invariant result == View(Flattened(order[..i], stored))
      {
        result := AddToView(result, Flattened(order[..i], stored), stored[order[i]]);
        FlattenedSnoc(order, i, stored);
      }
      assert order[..|order|] == order;
      published := result;
    }

    /** `updateDiagnostics`: the driving file's entry becomes the diagnostics of all task results,
        in order; every other entry is kept; the collection is rebuilt. */
    method UpdateDiagnostics(file: Uri, taskResults: seq<TaskResult>, host: ParsingHost)
      requires Valid()
      modifies this
      ensures Valid()
      ensures stored == old(stored)[file.fsPath := AllGenerated(taskResults, host)]
      ensures order == Inserted(old(order), file.fsPath)
    {
      var diagnostics: seq<DiagnosticForFile> := [];
      for i := 0 to |taskResults|
        invariant unchanged(this)
        invariant diagnostics == AllGenerated(taskResults[..i], host)
      {
        var generated := GenerateDiagnosticsForFiles(taskResults[i], host);
        assert taskResults[..i + 1][..i] == taskResults[..i];
        diagnostics := diagnostics + generated;
      }
      assert taskResults[..|taskResults|] == taskResults;
      order := Inserted(order, file.fsPath);
      stored := stored[file.fsPath := diagnostics];
      Update();
    }

    /** `clearDiagnosticsForFile`: the file's entry becomes empty; the collection is rebuilt. */
    method ClearDiagnosticsForFile(file: Uri)
      requires Valid()
      modifies this
      ensures Valid()
      ensures stored == old(stored)[file.fsPath := []]
      ensures order == Inserted(old(order), file.fsPath)
    {
      order := Inserted(order, file.fsPath);
      stored := stored[file.fsPath := []];
      Update();
    }

    /** `clearAllDiagnostics`: the map is emptied and nothing is published any more. */
    method ClearAllDiagnostics()
      requires Valid()
      modifies this
      ensures Valid()
      ensures order == [] && stored == map[] && published == map[]
    {
      order, stored := [], map[];
      Update();
    }
  }

  /** The diagnostics of several task results, concatenated in order. */
  function AllGenerated(taskResults: seq<TaskResult>, host: ParsingHost): (r: seq<DiagnosticForFile>)
    ensures forall d :: d in r ==> WellFormed(d, host)
    ensures forall d :: d in r ==> exists i :: 0 <= i < |taskResults| && d in Generated(taskResults[i], host)
  {
    if taskResults == [] then []
    else
      assert forall i :: 0 <= i < |taskResults| - 1 ==> taskResults[..|taskResults| - 1][i] == taskResults[i];
      AllGenerated(taskResults[..|taskResults| - 1], host) + Generated(taskResults[|taskResults| - 1], host)
  }
}
