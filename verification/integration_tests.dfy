/** The post-integration test suite (scripts/test-integration.js): the log of
    test records, its summary and the suite's verdict, and the checks the
    suite makes on the project's files. Running commands, reading files and
    the clock are left to the caller: a test's outcome, a file's content and
    a parse result come in as values. */
module IntegrationTests {
  import opened Wrappers
  import opened Text
  import opened Seqs
  import opened VersionBump
  import opened JsValues
  import Integrator

  // ---------------------------------------------------------------------------
  // Test records (runTest, generateTestReport, runAllTests)
  // ---------------------------------------------------------------------------

  datatype Status = Passed | Failed

  /** One entry of `testResults`; `error` is `null` for a passed test. */
  datatype TestRecord = TestRecord(name: string, status: Status, duration: nat, error: Option<string>)

  /** How a test function ended: it returned after `duration` milliseconds,
      or it threw an error with `message`. */
  datatype Outcome = Returned(duration: nat) | Threw(message: string)

  /** The record `runTest` pushes for a test and its outcome. */
  function Record(name: string, o: Outcome): (t: TestRecord)
    ensures t.name == name
    ensures t.status == Passed <==> o.Returned?
    ensures t.status == Passed ==> t.duration == o.duration && t.error.None?
    ensures t.status == Failed ==> t.duration == 0 && t.error == Some(o.message)
  {
    match o
    case Returned(d) => TestRecord(name, Passed, d, None)
    case Threw(m) => TestRecord(name, Failed, 0, Some(m))
  }

  /** `runTest(name, fn)`: the log grows by exactly one record, and the
      result says whether that record is a pass. */
  function RunTest(log: seq<TestRecord>, name: string, o: Outcome): (r: (seq<TestRecord>, bool))
    ensures |r.0| == |log| + 1 && r.0[..|log|] == log && r.0[|log|] == Record(name, o)
    ensures r.1 <==> r.0[|log|].status == Passed
  {
    var next := log + [Record(name, o)];
    assert next[..|log|] == log;
    (next, o.Returned?)
  }

  predicate IsPassed(t: TestRecord) { t.status == Passed }
  predicate IsFailed(t: TestRecord) { t.status == Failed }
  function Duration(t: TestRecord): nat { t.duration }

  /** The `summary` object of the test report. */
  datatype Summary = Summary(total: nat, passed: nat, failed: nat, duration: nat)

  /** `generateTestReport().summary`: every record is counted once, as a pass
      or as a failure. */
  function Summarize(log: seq<TestRecord>): (s: Summary)
    ensures s.total == |log| && s.passed + s.failed == s.total
  {
    PassedPlusFailed(log);
    Summary(|log|, Count(log, IsPassed), Count(log, IsFailed), Sum(log, Duration))
  }

  lemma {:induction false} PassedPlusFailed(log: seq<TestRecord>)
    ensures Count(log, IsPassed) + Count(log, IsFailed) == |log|
    decreases |log|
  {
    if |log| > 0 {
      var init := log[..|log| - 1];
      PassedPlusFailed(init);
      assert log == init + [log[|log| - 1]];
      FilterSnoc(init, log[|log| - 1], IsPassed);
      FilterSnoc(init, log[|log| - 1], IsFailed);
    }
  }

  /** One more record adds one to the total, one to the passes or the
      failures, and its duration to the total duration. */
  lemma SummaryAppend(log: seq<TestRecord>, t: TestRecord)
    ensures var s := Summarize(log);
      Summarize(log + [t])
      == Summary(s.total + 1,
                 s.passed + (if t.status == Passed then 1 else 0),
                 s.failed + (if t.status == Failed then 1 else 0),
                 s.duration + t.duration)
  {
    FilterSnoc(log, t, IsPassed);
    FilterSnoc(log, t, IsFailed);
    assert (log + [t])[..|log|] == log;
  }

  /** No failure is counted exactly when every record is a pass. */
  lemma FailedZeroIffAllPassed(log: seq<TestRecord>)
    ensures Summarize(log).failed == 0 <==> forall k :: 0 <= k < |log| ==> log[k].status == Passed
  {
    FilterMembers(log, IsFailed);
    if Summarize(log).failed != 0 {
      var f := Filter(log, IsFailed);
      assert f[0] in log && IsFailed(f[0]);
    } else {
      assert forall k :: 0 <= k < |log| ==> log[k] in log;
    }
  }

  /** The tests of the suite, in the order they run; the Tauri build is
      added only when `TEST_TAURI_BUILD` is exactly `true`. */
  const BaseTests: seq<string> := [
    "Container CLI Availability", "Package.json Integrity", "Tauri Config Integrity",
    "ContainerUtils Integrity", "UI Components Integrity", "New Features Integration",
    "Container Command Execution", "Project Build"
  ]

  function SuiteNames(testTauriBuild: Option<string>): (r: seq<string>)
    ensures |r| == (if testTauriBuild == Some("true") then 9 else 8)
    ensures r[..8] == BaseTests
    ensures |r| == 9 ==> r[8] == "Tauri Build"
  {
    if testTauriBuild == Some("true") then
      assert (BaseTests + ["Tauri Build"])[..8] == BaseTests;
      BaseTests + ["Tauri Build"]
    else BaseTests
  }

  /** `runAllTests()` on the outcomes of the tests named: every test runs,
      whatever the earlier ones did, and the suite passes exactly when the
      report counts no failure, that is, when every test returned. */
  method RunAllTests(names: seq<string>, outcomes: seq<Outcome>) returns (log: seq<TestRecord>, report: Summary, ok: bool)
    requires |outcomes| == |names|
    ensures |log| == |names|
    ensures forall k :: 0 <= k < |names| ==> log[k] == Record(names[k], outcomes[k])
    ensures report == Summarize(log) && report.total == |names|
    ensures ok <==> report.failed == 0
    ensures ok <==> forall k :: 0 <= k < |outcomes| ==> outcomes[k].Returned?
  {
    log := [];
    for i := 0 to |names|
      invariant |log| == i
      invariant forall k :: 0 <= k < i ==> log[k] == Record(names[k], outcomes[k])
    {
      var step := RunTest(log, names[i], outcomes[i]);
      log := step.0;
    }
    report := Summarize(log);
    FailedZeroIffAllPassed(log);
    ok := report.failed == 0;
  }

  // ---------------------------------------------------------------------------
  // File contents
  // ---------------------------------------------------------------------------

  /** A file's text, or the message of the error reading it. */
  datatype FileRead = Read(text: string) | ReadError(message: string)

  /** The first name among `keys` whose member of `v` is falsy. */
  function FirstFalsy(v: Json, keys: seq<string>): (r: Option<string>)
    ensures r.None? <==> forall k :: 0 <= k < |keys| ==> Truthy(Member(v, keys[k]))
    ensures r.Some? ==> r.value in keys && !Truthy(Member(v, r.value))
    decreases |keys|
  {
    if |keys| == 0 then None
    else if !Truthy(Member(v, keys[0])) then Some(keys[0])
    else
      var r := FirstFalsy(v, keys[1..]);
      assert forall k :: 1 <= k < |keys| ==> keys[k] == keys[1..][k - 1];
      r
  }

  // ---------------------------------------------------------------------------
  // The ContainerUtils check
  // ---------------------------------------------------------------------------

  const RequiredMethods: seq<string> := ["executeCommand", "runContainer", "buildImage", "getContainerLogs"]

  /** The first of `required` that `content` does not include. */
  function FirstMissing(content: string, required: seq<string>): (r: Option<string>)
    ensures r.None? <==> forall k :: 0 <= k < |required| ==> Contains(content, required[k])
    ensures r.Some? ==> r.value in required && !Contains(content, r.value)
    decreases |required|
  {
    if |required| == 0 then None
    else if !Contains(content, required[0]) then Some(required[0])
    else
      var r := FirstMissing(content, required[1..]);
      assert forall k :: 1 <= k < |required| ==> required[k] == required[1..][k - 1];
      r
  }

  /** `testContainerUtilsIntegrity()`: the error it throws, if any, given the
      file and the error evaluating its text (`None` when it evaluates). */
  function UtilsIntegrity(file: FileRead, evalError: Option<string>): (r: Option<string>)
    ensures r.None? <==> file.Read? && evalError.None? && forall k :: 0 <= k < |RequiredMethods| ==> Contains(file.text, RequiredMethods[k])
  {
    var prefix := "ContainerUtils integrity check failed: ";
    match file
    case ReadError(m) => Some(prefix + m)
    case Read(c) =>
      if evalError.Some? then Some(prefix + "Syntax error in containerUtils.js: " + evalError.value)
      else match FirstMissing(c, RequiredMethods)
        case None => None
        case Some(m) => Some(prefix + "Required method '" + m + "' not found in containerUtils.js")
  }

  /** Whether some line after the first opens with `export `, as the
      declarations of src/utils/containerUtils.js do. */
  predicate HasExportLine(c: string) {
    Contains(c, "\nexport ")
  }

  const ExportSyntaxError: string := "Unexpected token 'export'"

  /** What `eval` of `(function() { <c> })()` throws. An export declaration
      may only appear at the top level of a module, never in a function
      body, so a text with an export line always throws a syntax error;
      whether any other text evaluates cleanly is `other`. */
  function FunctionBodyEvalError(c: string, other: Option<string>): Option<string> {
    if HasExportLine(c) then Some(ExportSyntaxError) else other
  }

  /** As written, the check evaluates the utilities as a function body, so a
      file with an export line fails it whatever else it holds. */
  lemma ExportFailsUtilsCheck(c: string, other: Option<string>)
    requires HasExportLine(c)
    ensures UtilsIntegrity(Read(c), FunctionBodyEvalError(c, other))
            == Some("ContainerUtils integrity check failed: Syntax error in containerUtils.js: " + ExportSyntaxError)
  {
    assert "ContainerUtils integrity check failed: " + "Syntax error in containerUtils.js: " + ExportSyntaxError
        == "ContainerUtils integrity check failed: Syntax error in containerUtils.js: " + ExportSyntaxError;
  }

  /** The utilities the integrator writes keep their export lines, so as
      written the check fails on them too, for any commands and flags. */
  lemma IntegratedUtilsFailCheck(c: string, cmds: seq<string>, flags: seq<string>, tag: string, other: Option<string>)
    requires HasExportLine(c)
    ensures var u := Integrator.UtilsTextAsWritten(c, cmds, flags, tag);
      HasExportLine(u) && UtilsIntegrity(Read(u), FunctionBodyEvalError(u, other)).Some?
  {
    assert CloseBrace !in "\nexport ";
    Integrator.UtilsTextKeeps(c, cmds, flags, tag, "\nexport ");
  }

  /** The check as intended, loading the file as a module where export
      declarations are allowed: when the original utilities pass and the
      updated file loads without error, the updated file passes as well. The
      integrator's update, exactly as written, keeps the required method
      names, since they have no closing brace and survive the splice. */
  lemma IntegratedUtilsPass(c: string, cmds: seq<string>, flags: seq<string>, tag: string, moduleError: Option<string>)
    requires UtilsIntegrity(Read(c), None).None?
    ensures UtilsIntegrity(Read(Integrator.UtilsTextAsWritten(c, cmds, flags, tag)), moduleError).None?
            <==> moduleError.None?
  {
    RequiredMethodsSurvive(c, cmds, flags, tag);
  }

  /** The required method names survive the integrator's update as written,
      whatever the commands and flags, the placeholder included. */
  lemma RequiredMethodsSurvive(c: string, cmds: seq<string>, flags: seq<string>, tag: string)
    requires forall k :: 0 <= k < |RequiredMethods| ==> Contains(c, RequiredMethods[k])
    ensures forall k :: 0 <= k < |RequiredMethods| ==>
      Contains(Integrator.UtilsTextAsWritten(c, cmds, flags, tag), RequiredMethods[k])
  {
    forall k | 0 <= k < |RequiredMethods|
      ensures Contains(Integrator.UtilsTextAsWritten(c, cmds, flags, tag), RequiredMethods[k])
    {
      assert CloseBrace !in RequiredMethods[k];
      Integrator.UtilsTextKeeps(c, cmds, flags, tag, RequiredMethods[k]);
    }
  }

  // ---------------------------------------------------------------------------
  // The UI components check
  // ---------------------------------------------------------------------------

  const ComponentPaths: seq<string> := [
    "src/routes/RunContainer.jsx", "src/routes/BuildImage.jsx", "src/routes/Images.jsx",
    "src/routes/Logs.jsx", "src/components/Sidebar.jsx"
  ]

  predicate HasReactImport(c: string) {
    Contains(c, "import React") || Contains(c, "from 'react'")
  }

  predicate HasExport(c: string) {
    Contains(c, "export default") || Contains(c, "export {")
  }

  /** The first position from j on holding `>` or a line terminator, where
      `.*?>` either completes or fails. */
  function StopFrom(s: string, j: nat): (q: nat)
    requires j <= |s|
    ensures j <= q <= |s|
    ensures forall k :: j <= k < q ==> s[k] != '>' && !IsLineTerminator(s[k])
    ensures q < |s| ==> s[q] == '>' || IsLineTerminator(s[q])
    decreases |s| - j
  {
    if j == |s| || s[j] == '>' || IsLineTerminator(s[j]) then j else StopFrom(s, j + 1)
  }

  /** Where a match of `/<[A-Z][a-zA-Z0-9]*.*?>/` starting at i ends: the
      letters and digits are never `>`, so the lazy `.*?` stops at the first
      `>`, unless a line break comes first. */
  function JsxEnd(s: string, i: nat): (e: Option<nat>)
    requires i < |s|
    ensures e.Some? ==> i + 2 < e.value <= |s| && s[i] == '<' && IsUpper(s[i + 1]) && s[e.value - 1] == '>'
  {
    if s[i] == '<' && i + 1 < |s| && IsUpper(s[i + 1]) then
      var q := StopFrom(s, i + 2);
      if q < |s| && s[q] == '>' then Some(q + 1) else None
    else None
  }

  /** `content.match(/<[A-Z][a-zA-Z0-9]*.*?>/g)` from i on: the matches left
      to right, each search resuming after the previous match. */
  function JsxMatches(s: string, i: nat): seq<string>
    decreases |s| - i
  {
    if i >= |s| then []
    else match JsxEnd(s, i)
      case Some(e) => [s[i..e]] + JsxMatches(s, e)
      case None => JsxMatches(s, i + 1)
  }

  /** The scan's rejection test: some match lacks a `>`. */
  predicate MalformedJsx(c: string) {
    exists k :: 0 <= k < |JsxMatches(c, 0)| && '>' !in JsxMatches(c, 0)[k]
  }

  /** Every match opens a capitalised tag and ends with `>`, so the
      malformed-JSX test can never fire. */
  lemma {:induction false} JsxMatchesAreTags(s: string, i: nat)
    ensures forall k :: 0 <= k < |JsxMatches(s, i)| ==>
      var m := JsxMatches(s, i)[k];
      |m| >= 3 && m[0] == '<' && IsUpper(m[1]) && m[|m| - 1] == '>'
    decreases |s| - i
  {
    if i < |s| {
      match JsxEnd(s, i)
      case Some(e) =>
        JsxMatchesAreTags(s, e);
        var m := s[i..e];
        assert m[0] == s[i] && m[1] == s[i + 1] && m[|m| - 1] == s[e - 1];
      case None =>
        JsxMatchesAreTags(s, i + 1);
    }
  }

  lemma NoMalformedJsx(c: string)
    ensures !MalformedJsx(c)
  {
    JsxMatchesAreTags(c, 0);
    var ms := JsxMatches(c, 0);
    forall k | 0 <= k < |ms|
      ensures '>' in ms[k]
    {
      assert ms[k][|ms[k]| - 1] == '>';
    }
  }

  /** The error one component's check throws, if any. */
  function ComponentError(path: string, file: FileRead): Option<string> {
    var prefix := "Component integrity check failed for " + path + ": ";
    match file
    case ReadError(m) => Some(prefix + m)
    case Read(c) =>
      if !HasReactImport(c) then Some(prefix + path + ": Missing React import")
      else if !HasExport(c) then Some(prefix + path + ": Missing export statement")
      else if MalformedJsx(c) then Some(prefix + path + ": Malformed JSX elements detected")
      else None
  }

  /** A component passes exactly when it can be read, imports React and
      exports something: the malformed-JSX test never rejects it. */
  lemma ComponentPasses(path: string, file: FileRead)
    ensures ComponentError(path, file).None? <==> file.Read? && HasReactImport(file.text) && HasExport(file.text)
  {
    if file.Read? {
      NoMalformedJsx(file.text);
    }
  }

  /** `testUIComponentsIntegrity()` on the components and their files: the
      first component that fails decides the error. A component passes
      exactly when it can be read, imports React and exports something. */
  function UIComponentsIntegrity(files: seq<(string, FileRead)>): (r: Option<string>)
    ensures r.None? <==> forall k :: 0 <= k < |files| ==>
      files[k].1.Read? && HasReactImport(files[k].1.text) && HasExport(files[k].1.text)
    decreases |files|
  {
    if |files| == 0 then None
    else
      var f := files[0].1;
      ComponentPasses(files[0].0, f);
      match ComponentError(files[0].0, f)
      case Some(e) => Some(e)
      case None =>
        var r := UIComponentsIntegrity(files[1..]);
        assert forall k :: 1 <= k < |files| ==> files[k] == files[1..][k - 1];
        r
  }

  // ---------------------------------------------------------------------------
  // The package.json check
  // ---------------------------------------------------------------------------

  const PackageFields: seq<string> := ["name", "version", "dependencies", "scripts"]
  const RequiredDeps: seq<string> := ["react", "@tauri-apps/api"]
  const RequiredScripts: seq<string> := ["start", "build", "tauri"]

  /** A dependency is declared when it is truthy among the dependencies or,
      failing that, among the dev dependencies. */
  predicate DeclaresDep(pkg: Json, dep: string)
    requires Member(pkg, "dependencies").Some?
  {
    Truthy(Member(Member(pkg, "dependencies").value, dep))
    || (Member(pkg, "devDependencies").Some? && Truthy(Member(Member(pkg, "devDependencies").value, dep)))
  }

  /** The dependency step: the first required dependency that is declared in
      neither place, or the `TypeError` of reading it from dev dependencies
      that are `undefined` or `null`. */
  function DepsError(pkg: Json, deps: seq<string>): (r: Option<string>)
    requires Member(pkg, "dependencies").Some?
    ensures r.None? <==> forall k :: 0 <= k < |deps| ==> DeclaresDep(pkg, deps[k])
    decreases |deps|
  {
    if |deps| == 0 then None
    else
      var dep := deps[0];
      var dev := Member(pkg, "devDependencies");
      if Truthy(Member(Member(pkg, "dependencies").value, dep)) then
        var r := DepsError(pkg, deps[1..]);
        assert forall k :: 1 <= k < |deps| ==> deps[k] == deps[1..][k - 1];
        r
      else if dev.None? || dev.value == JNull then Some(TypeErrorMessage(dev, dep))
      else if !Truthy(Member(dev.value, dep)) then Some("Missing required dependency: " + dep)
      else
        var r := DepsError(pkg, deps[1..]);
        assert forall k :: 1 <= k < |deps| ==> deps[k] == deps[1..][k - 1];
        r
  }

  /** What the package check demands of the parsed package. */
  predicate PackageOk(pkg: Json) {
    && pkg != JNull
    && (forall k :: 0 <= k < |PackageFields| ==> Truthy(Member(pkg, PackageFields[k])))
    && Member(pkg, "dependencies").Some?
    && (forall k :: 0 <= k < |RequiredDeps| ==> DeclaresDep(pkg, RequiredDeps[k]))
    && Member(pkg, "scripts").Some?
    && (forall k :: 0 <= k < |RequiredScripts| ==> Truthy(Member(Member(pkg, "scripts").value, RequiredScripts[k])))
  }

  /** `testPackageJsonIntegrity()`: the error it throws, if any, given the
      file and `JSON.parse`. */
  function PackageIntegrity(file: FileRead, parse: string -> Parsed): (r: Option<string>)
    ensures r.None? <==> file.Read? && parse(file.text).Parsed? && PackageOk(parse(file.text).value)
  {
    var prefix := "Package.json integrity check failed: ";
    match file
    case ReadError(m) => Some(prefix + m)
    case Read(c) =>
      match parse(c)
      case NotJson(m) => Some(prefix + m)
      case Parsed(pkg) =>
        if pkg == JNull then Some(prefix + TypeErrorMessage(Some(JNull), PackageFields[0]))
        else match FirstFalsy(pkg, PackageFields)
          case Some(f) => Some(prefix + "Missing required field: " + f)
          case None =>
            assert Truthy(Member(pkg, PackageFields[2])) && Truthy(Member(pkg, PackageFields[3]));
            match DepsError(pkg, RequiredDeps)
            case Some(e) => Some(prefix + e)
            case None =>
              match FirstFalsy(Member(pkg, "scripts").value, RequiredScripts)
              case Some(s) => Some(prefix + "Missing required script: " + s)
              case None => None
  }

  // ---------------------------------------------------------------------------
  // The tauri.conf.json check
  // ---------------------------------------------------------------------------

  const TauriFields: seq<string> := ["productName", "version", "identifier"]

  /** `/^\d+\.\d+\.\d+$/.test(t)`: three runs of digits joined by dots. */
  predicate MatchesVersionPattern(t: string) {
    exists i, j :: 0 <= i < j < |t| && t[i] == '.' && t[j] == '.'
      && IsDigits(t[..i]) && IsDigits(t[i + 1..j]) && IsDigits(t[j + 1..])
  }

  /** The version pattern accepts exactly the conforming versions of the
      version bump. */
  lemma VersionPatternIsSemVer(t: string)
    ensures MatchesVersionPattern(t) <==> IsSemVer(t)
  {
    if MatchesVersionPattern(t) {
      var i, j :| 0 <= i < j < |t| && t[i] == '.' && t[j] == '.'
        && IsDigits(t[..i]) && IsDigits(t[i + 1..j]) && IsDigits(t[j + 1..]);
      PatternPieces(t, i, j);
    }
    if IsSemVer(t) {
      SemVerPieces(t);
    }
  }

  lemma PatternPieces(t: string, i: int, j: int)
    requires 0 <= i < j < |t| && t[i] == '.' && t[j] == '.'
    requires IsDigits(t[..i]) && IsDigits(t[i + 1..j]) && IsDigits(t[j + 1..])
    ensures IsSemVer(t)
  {
    var p := [t[..i], t[i + 1..j], t[j + 1..]];
    forall k | 0 <= k < 3
      ensures '.' !in p[k]
    {
      assert IsDigits(p[k]);
    }
    assert Join(p[2..], ".") == p[2];
    assert Join(p[1..], ".") == p[1] + "." + p[2];
    assert Join(p, ".") == t;
    SplitJoin(p, '.');
  }

  lemma SemVerPieces(t: string)
    requires IsSemVer(t)
    ensures MatchesVersionPattern(t)
  {
    var p := Split(t, '.');
    assert Join(p[1..][1..], ".") == p[2];
    assert Join(p[1..], ".") == p[1] + "." + p[2];
    assert t == p[0] + "." + p[1] + "." + p[2];
    var i := |p[0]|;
    var j := i + 1 + |p[1]|;
    assert t[i] == '.' && t[j] == '.';
    assert t[..i] == p[0] && t[i + 1..j] == p[1] && t[j + 1..] == p[2];
    assert IsDigits(t[..i]) && IsDigits(t[i + 1..j]) && IsDigits(t[j + 1..]);
  }

  /** A version the check accepts is still accepted after the bump. */
  lemma BumpKeepsVersionPattern(t: string)
    requires MatchesVersionPattern(t)
    ensures MatchesVersionPattern(BumpVersion(t))
  {
    VersionPatternIsSemVer(t);
    BumpKeepsSemVer(t);
    VersionPatternIsSemVer(BumpVersion(t));
  }

  /** What the Tauri configuration check demands of the parsed configuration. */
  predicate TauriOk(conf: Json) {
    && conf != JNull
    && (forall k :: 0 <= k < |TauriFields| ==> Truthy(Member(conf, TauriFields[k])))
    && Member(conf, "version").Some?
    && MatchesVersionPattern(JsString(Member(conf, "version").value))
  }

  /** `testTauriConfigIntegrity()`: the error it throws, if any. */
  function TauriIntegrity(file: FileRead, parse: string -> Parsed): (r: Option<string>)
    ensures r.None? <==> file.Read? && parse(file.text).Parsed? && TauriOk(parse(file.text).value)
  {
    var prefix := "Tauri config integrity check failed: ";
    match file
    case ReadError(m) => Some(prefix + m)
    case Read(c) =>
      match parse(c)
      case NotJson(m) => Some(prefix + m)
      case Parsed(conf) =>
        if conf == JNull then Some(prefix + TypeErrorMessage(Some(JNull), TauriFields[0]))
        else match FirstFalsy(conf, TauriFields)
          case Some(f) => Some(prefix + "Missing required field: " + f)
          case None =>
            assert Truthy(Member(conf, TauriFields[1]));
            var v := JsString(Member(conf, "version").value);
            if MatchesVersionPattern(v) then None
            else Some(prefix + "Invalid version format: " + v)
  }

  // ---------------------------------------------------------------------------
  // The new-features check
  // ---------------------------------------------------------------------------

  const MarkerPaths: seq<string> := ["src/utils/containerUtils.js", "src/routes/RunContainer.jsx", "src/routes/BuildImage.jsx"]
  const AutoGenMarkers: seq<string> := ["Auto-generated support for", "Auto-generated for", "Auto-generated flag validation"]

  /** Whether a file shows an auto-generated marker; the check only logs it. */
  predicate HasMarker(c: string) {
    exists k :: 0 <= k < |AutoGenMarkers| && Contains(c, AutoGenMarkers[k])
  }

  /** `testNewFeaturesIntegration()`: whether markers are present or not only
      changes what is logged; the check fails only on a file it cannot read. */
  function NewFeaturesIntegrity(files: seq<(string, FileRead)>): (r: Option<string>)
    ensures r.None? <==> forall k :: 0 <= k < |files| ==> files[k].1.Read?
    decreases |files|
  {
    if |files| == 0 then None
    else match files[0].1
      case ReadError(m) => Some("New features integration check failed for " + files[0].0 + ": " + m)
      case Read(_) =>
        var r := NewFeaturesIntegrity(files[1..]);
        assert forall k :: 1 <= k < |files| ==> files[k] == files[1..][k - 1];
        r
  }

  /** The log line for one readable file. */
  function MarkerLogLine(path: string, c: string): (line: string)
    ensures |line| > 0 && (HasMarker(c) <==> line[0] == '✅')
  {
    var found := "✅ Found auto-generated feature in " + path;
    var none := "ℹ️ No auto-generated features found in " + path;
    if HasMarker(c) then found else none
  }

  // ---------------------------------------------------------------------------
  // The suite on a project (runAllTests with the tests of the class)
  // ---------------------------------------------------------------------------

  /** What the suite meets: the project's files by path, `JSON.parse`, what
      loading the utilities throws for reasons other than an export line
      (`None` when they load), the three outside processes (`None` when the command succeeds, else the
      message of its error) and the time each passing test takes. */
  datatype Project = Project(
    read: string -> FileRead,
    parse: string -> Parsed,
    loadError: Option<string>,
    cliCheck: Option<string>,
    buildError: Option<string>,
    tauriBuildError: Option<string>,
    elapsed: string -> nat)

  /** A check's outcome from the error it throws. */
  function Checked(p: Project, name: string, err: Option<string>): (o: Outcome)
    ensures o.Returned? <==> err.None?
    ensures err.Some? ==> o == Threw(err.value)
  {
    match err
    case None => Returned(p.elapsed(name))
    case Some(m) => Threw(m)
  }

  /** The files one check reads, with their paths. */
  function FilesAt(p: Project, paths: seq<string>): (r: seq<(string, FileRead)>)
    ensures |r| == |paths| && forall k :: 0 <= k < |paths| ==> r[k] == (paths[k], p.read(paths[k]))
  {
    Map(paths, (q: string) => (q, p.read(q)))
  }

  const PackagePath: string := "package.json"
  const TauriPath: string := "src-tauri/tauri.conf.json"
  const UtilsPath: string := "src/utils/containerUtils.js"

  /** The utilities check: as written, the text is evaluated as a function
      body, where an export line is a syntax error; corrected, it is loaded
      as a module, where it is not. */
  function UtilsCheck(v: Integrator.Variant, p: Project): (r: Option<string>)
    ensures r.None? <==>
      && p.read(UtilsPath).Read?
      && (v.AsWritten? ==> !HasExportLine(p.read(UtilsPath).text))
      && p.loadError.None?
      && forall k :: 0 <= k < |RequiredMethods| ==> Contains(p.read(UtilsPath).text, RequiredMethods[k])
  {
    var f := p.read(UtilsPath);
    UtilsIntegrity(f, if !f.Read? then None
                      else if v.AsWritten? then FunctionBodyEvalError(f.text, p.loadError)
                      else p.loadError)
  }

  /** The outcome of every test of the suite, in the order they run. The
      command-execution test swallows every failure of its commands, so it
      always returns. */
  function SuiteOutcomes(v: Integrator.Variant, p: Project, testTauriBuild: Option<string>): (r: seq<Outcome>)
    ensures |r| == |SuiteNames(testTauriBuild)|
    ensures r[..8] == ConfigOutcomes(v, p) + TreeOutcomes(p)
    ensures testTauriBuild == Some("true") ==> (r[8].Returned? <==> p.tauriBuildError.None?)
  {
    var base := BaseOutcomes(v, p);
    if testTauriBuild == Some("true") then
      base + [Checked(p, "Tauri Build",
                      if p.tauriBuildError.Some? then Some("Tauri build failed: " + p.tauriBuildError.value) else None)]
    else base
  }

  /** The outcomes of the eight tests that always run. */
  function BaseOutcomes(v: Integrator.Variant, p: Project): (r: seq<Outcome>)
    ensures r == ConfigOutcomes(v, p) + TreeOutcomes(p)
  {
    ConfigOutcomes(v, p) + TreeOutcomes(p)
  }

  /** The first four tests: the tool, the two configuration files and the
      utilities. */
  function ConfigOutcomes(v: Integrator.Variant, p: Project): (r: seq<Outcome>)
    ensures |r| == 4
    ensures r[0].Returned? <==> p.cliCheck.None?
    ensures r[1].Returned? <==> PackageIntegrity(p.read(PackagePath), p.parse).None?
    ensures r[2].Returned? <==> TauriIntegrity(p.read(TauriPath), p.parse).None?
    ensures r[3].Returned? <==> UtilsCheck(v, p).None?
  {
    [ Checked(p, BaseTests[0], if p.cliCheck.Some? then Some("Apple Container CLI not available or not in PATH") else None),
      Checked(p, BaseTests[1], PackageIntegrity(p.read(PackagePath), p.parse)),
      Checked(p, BaseTests[2], TauriIntegrity(p.read(TauriPath), p.parse)),
      Checked(p, BaseTests[3], UtilsCheck(v, p)) ]
  }

  /** The last four tests: the components, the markers, the command run,
      which swallows every failure and so always returns, and the build. */
  function TreeOutcomes(p: Project): (r: seq<Outcome>)
    ensures |r| == 4
    ensures r[0].Returned? <==> UIComponentsIntegrity(FilesAt(p, ComponentPaths)).None?
    ensures r[1].Returned? <==> NewFeaturesIntegrity(FilesAt(p, MarkerPaths)).None?
    ensures r[2].Returned?
    ensures r[3].Returned? <==> p.buildError.None?
  {
    [ Checked(p, BaseTests[4], UIComponentsIntegrity(FilesAt(p, ComponentPaths))),
      Checked(p, BaseTests[5], NewFeaturesIntegrity(FilesAt(p, MarkerPaths))),
      Returned(p.elapsed(BaseTests[6])),
      Checked(p, BaseTests[7], if p.buildError.Some? then Some("Build failed: " + p.buildError.value) else None) ]
  }

  /** Every check of the suite returns. */
  predicate ChecksPass(v: Integrator.Variant, p: Project, testTauriBuild: Option<string>) {
    && p.cliCheck.None?
    && PackageIntegrity(p.read(PackagePath), p.parse).None?
    && TauriIntegrity(p.read(TauriPath), p.parse).None?
    && UtilsCheck(v, p).None?
    && UIComponentsIntegrity(FilesAt(p, ComponentPaths)).None?
    && NewFeaturesIntegrity(FilesAt(p, MarkerPaths)).None?
    && p.buildError.None?
    && (testTauriBuild == Some("true") ==> p.tauriBuildError.None?)
  }

  /** What a passing suite needs of the project: the tool is on the path,
      package.json and tauri.conf.json read, parse and hold what the checks
      demand, the utilities pass their check, every component reads, imports
      React and exports something, every marker file reads, the project
      builds, and so does the Tauri bundle when that test is requested. */
  predicate SuitePasses(v: Integrator.Variant, p: Project, testTauriBuild: Option<string>) {
    var pkg := p.read(PackagePath);
    var conf := p.read(TauriPath);
    && p.cliCheck.None?
    && pkg.Read? && p.parse(pkg.text).Parsed? && PackageOk(p.parse(pkg.text).value)
    && conf.Read? && p.parse(conf.text).Parsed? && TauriOk(p.parse(conf.text).value)
    && UtilsCheck(v, p).None?
    && ComponentsOk(p)
    && (forall k :: 0 <= k < |MarkerPaths| ==> p.read(MarkerPaths[k]).Read?)
    && p.buildError.None?
    && (testTauriBuild == Some("true") ==> p.tauriBuildError.None?)
  }

  predicate ComponentsOk(p: Project) {
    forall k :: 0 <= k < |ComponentPaths| ==>
      p.read(ComponentPaths[k]).Read?
      && HasReactImport(p.read(ComponentPaths[k]).text) && HasExport(p.read(ComponentPaths[k]).text)
  }

  /** `runAllTests()` on a project: one record per test of the suite, and the
      suite passes exactly when the project meets every check. As written it
      never passes on utilities with an export line, since their evaluation
      as a function body throws; corrected, the utilities are loaded as a
      module. */
  method RunSuite(v: Integrator.Variant, p: Project, testTauriBuild: Option<string>) returns (log: seq<TestRecord>, report: Summary, ok: bool)
    ensures |log| == |SuiteNames(testTauriBuild)|
    ensures forall k :: 0 <= k < |log| ==> log[k].name == SuiteNames(testTauriBuild)[k]
    ensures report == Summarize(log)
    ensures ok <==> SuitePasses(v, p, testTauriBuild)
    ensures v.AsWritten? && p.read(UtilsPath).Read? && HasExportLine(p.read(UtilsPath).text) ==> !ok
  {
    var names := SuiteNames(testTauriBuild);
    var outcomes := SuiteOutcomes(v, p, testTauriBuild);
    log, report, ok := RunAllTests(names, outcomes);
    SuiteVerdict(v, p, testTauriBuild, outcomes);
    ChecksDemand(v, p, testTauriBuild);
  }

  /** Every outcome returns exactly when every check returns. */
  lemma SuiteVerdict(v: Integrator.Variant, p: Project, testTauriBuild: Option<string>, outcomes: seq<Outcome>)
    requires outcomes == SuiteOutcomes(v, p, testTauriBuild)
    ensures (forall k :: 0 <= k < |outcomes| ==> outcomes[k].Returned?) <==> ChecksPass(v, p, testTauriBuild)
  {
    var first, last := ConfigOutcomes(v, p), TreeOutcomes(p);
    var tauri := testTauriBuild == Some("true");
    AllReturned(outcomes, first, last, tauri);
  }

  /** Eight or nine outcomes made of two runs of four all return exactly when
      each of them does; the seventh, the command run, always does. */
  lemma AllReturned(outcomes: seq<Outcome>, first: seq<Outcome>, last: seq<Outcome>, tauri: bool)
    requires |first| == 4 && |last| == 4 && last[2].Returned?
    requires |outcomes| == (if tauri then 9 else 8) && outcomes[..8] == first + last
    ensures (forall k :: 0 <= k < |outcomes| ==> outcomes[k].Returned?) <==>
      && first[0].Returned? && first[1].Returned? && first[2].Returned? && first[3].Returned?
      && last[0].Returned? && last[1].Returned? && last[3].Returned?
      && (tauri ==> outcomes[8].Returned?)
  {
    assert forall k :: 0 <= k < 4 ==> outcomes[k] == outcomes[..8][k] == first[k];
    assert forall k :: 4 <= k < 8 ==> outcomes[k] == outcomes[..8][k] == last[k - 4];
    if first[0].Returned? && first[1].Returned? && first[2].Returned? && first[3].Returned?
       && last[0].Returned? && last[1].Returned? && last[3].Returned? && (tauri ==> outcomes[8].Returned?)
    {
      forall k | 0 <= k < |outcomes|
        ensures outcomes[k].Returned?
      {
        if k < 4 {
          assert outcomes[k] == first[k];
        } else if k < 8 {
          assert outcomes[k] == last[k - 4];
        }
      }
    } else {
      assert !outcomes[0].Returned? || !outcomes[1].Returned? || !outcomes[2].Returned? || !outcomes[3].Returned?
        || !outcomes[4].Returned? || !outcomes[5].Returned? || !outcomes[7].Returned? || (tauri && !outcomes[8].Returned?);
    }
  }

  /** The checks return exactly when the project holds what they demand. */
  lemma ChecksDemand(v: Integrator.Variant, p: Project, testTauriBuild: Option<string>)
    ensures ChecksPass(v, p, testTauriBuild) <==> SuitePasses(v, p, testTauriBuild)
  {
    var comps := FilesAt(p, ComponentPaths);
    assert UIComponentsIntegrity(comps).None? <==> ComponentsOk(p);
    var marks := FilesAt(p, MarkerPaths);
    assert NewFeaturesIntegrity(marks).None? <==> forall k :: 0 <= k < |MarkerPaths| ==> p.read(MarkerPaths[k]).Read?;
  }
}
