/** The helpers of src/utils/containerUtils.js the pages use around the
    command-line tool: argument cleaning, container names and statuses, the
    system status test, the status-checked runner, error results and the
    output parser. A call into the tool (`invoke`) is an input: what it
    returned, or the error it rejected with. */
module ContainerUtils {
  import opened Wrappers
  import opened Text
  import opened Seqs
  import opened JsValues

  // ---------------------------------------------------------------------------
  // Command results
  // ---------------------------------------------------------------------------

  /** What the backend returns for one run of the tool. */
  datatype CommandResult = CommandResult(success: bool, stdout: string, stderr: string, exitCode: int)

  /** One `invoke('run_container_command', ...)`: the result it resolved to,
      or the text of the error it rejected with. */
  datatype Invocation = Completed(result: CommandResult) | Rejected(error: string)

  // ---------------------------------------------------------------------------
  // validateCommandArgs
  // ---------------------------------------------------------------------------

  /** An argument survives when its text is not blank. */
  predicate KeptArg(arg: Option<Json>) {
    !IsBlank(ArgText(arg))
  }

  /** `String(arg)`, with `undefined` as None. */
  function ArgText(arg: Option<Json>): string {
    match arg
    case None => "undefined"
    case Some(v) => JsString(v)
  }

  /** The `filter` test: a text that is neither empty nor all blanks. */
  predicate Nonblank(t: string) {
    !IsBlank(t)
  }

  /** `validateCommandArgs(args)`: the texts of the arguments, in order,
      without the blank ones; the kept texts are not trimmed. */
  function ValidateCommandArgs(args: seq<Option<Json>>): (r: seq<string>)
    ensures r == Filter(Map(args, ArgText), Nonblank)
    ensures forall k :: 0 <= k < |r| ==> !IsBlank(r[k])
    ensures forall t :: t in r <==> exists k :: 0 <= k < |args| && KeptArg(args[k]) && ArgText(args[k]) == t
    decreases |args|
  {
    if |args| == 0 then []
    else
      var n := |args| - 1;
      var init := ValidateCommandArgs(args[..n]);
      var last := args[n];
      assert forall k :: 0 <= k < n ==> args[..n][k] == args[k];
      assert Map(args, ArgText)[..n] == Map(args[..n], ArgText);
      init + (if KeptArg(last) then [ArgText(last)] else [])
  }

  /** The texts `validateCommandArgs` produces are themselves arguments it
      keeps unchanged: cleaning twice is cleaning once. */
  lemma {:induction false} ValidateIdempotent(args: seq<Option<Json>>)
    ensures var once := ValidateCommandArgs(args);
      ValidateCommandArgs(Map(once, (t: string) => Some(JStr(t)))) == once
    decreases |args|
  {
    var once := ValidateCommandArgs(args);
    if |args| > 0 {
      var init := args[..|args| - 1];
      ValidateIdempotent(init);
      var a := ValidateCommandArgs(init);
      var extra := if KeptArg(args[|args| - 1]) then [ArgText(args[|args| - 1])] else [];
      assert once == a + extra;
      var f := (t: string) => Some(JStr(t));
      assert Map(once, f) == Map(a, f) + Map(extra, f);
      var m := Map(once, f);
      if extra != [] {
        assert m[..|m| - 1] == Map(a, f);
        assert ValidateCommandArgs(m) == ValidateCommandArgs(Map(a, f)) + extra;
      } else {
        assert m == Map(a, f);
      }
    }
  }

  // ---------------------------------------------------------------------------
  // extractContainerName
  // ---------------------------------------------------------------------------

  /** The fields tried for a name, in order. */
  const NameFields: seq<string> := ["Names", "name", "Name", "id", "ID", "Id"]

  /** A field holding a string that is not blank. */
  predicate NameIn(v: Option<Json>) {
    v.Some? && v.value.JStr? && !IsBlank(v.value.s)
  }

  /** `name.startsWith('/') ? name.substring(1) : name`. */
  function DropSlash(name: string): (r: string)
    ensures StartsWith(name, "/") ==> "/" + r == name
    ensures !StartsWith(name, "/") ==> r == name
  {
    if |name| > 0 && name[0] == '/' then
      assert name == "/" + name[1..];
      name[1..]
    else name
  }

  /** The first of the fields from k on that holds a usable name. */
  function FirstNameFrom(c: Json, k: nat): (r: Option<nat>)
    requires k <= |NameFields|
    ensures r.Some? ==> k <= r.value < |NameFields| && NameIn(Member(c, NameFields[r.value]))
    ensures r.Some? ==> forall j :: k <= j < r.value ==> !NameIn(Member(c, NameFields[j]))
    ensures r.None? ==> forall j :: k <= j < |NameFields| ==> !NameIn(Member(c, NameFields[j]))
    decreases |NameFields| - k
  {
    if k == |NameFields| then None
    else if NameIn(Member(c, NameFields[k])) then Some(k)
    else FirstNameFrom(c, k + 1)
  }

  function Fallback(index: int): string {
    "container-" + IntToString(index)
  }

  /** `extractContainerName(container, index)`: the first field among
      Names, name, Name, id, ID and Id that holds a non-blank string, less one
      leading `/`; `container-<index>` for a falsy container or when no field
      qualifies. */
  function ExtractContainerName(container: Option<Json>, index: int): (r: string)
    ensures !Truthy(container) ==> r == Fallback(index)
    ensures Truthy(container) && (forall j :: 0 <= j < |NameFields| ==> !NameIn(Member(container.value, NameFields[j])))
            ==> r == Fallback(index)
    ensures Truthy(container) && (exists j :: 0 <= j < |NameFields| && NameIn(Member(container.value, NameFields[j]))) ==>
      exists j :: 0 <= j < |NameFields| && NameIn(Member(container.value, NameFields[j]))
        && (forall i :: 0 <= i < j ==> !NameIn(Member(container.value, NameFields[i])))
        && r == DropSlash(Member(container.value, NameFields[j]).value.s)
  {
    if !Truthy(container) then Fallback(index)
    else match FirstNameFrom(container.value, 0)
      case None => Fallback(index)
      case Some(j) => DropSlash(Member(container.value, NameFields[j]).value.s)
  }

  // ---------------------------------------------------------------------------
  // formatContainerStatus
  // ---------------------------------------------------------------------------

  /** The badge a status gets. */
  datatype StatusInfo = StatusInfo(text: string, cls: string, color: string)

  const RunningInfo: StatusInfo := StatusInfo("Running", "status-running", "green")
  const StoppedInfo: StatusInfo := StatusInfo("Stopped", "status-stopped", "red")
  const PausedInfo: StatusInfo := StatusInfo("Paused", "status-paused", "yellow")
  const RestartingInfo: StatusInfo := StatusInfo("Restarting", "status-restarting", "blue")

  /** The status badge of a status text, by case-insensitive precedence. */
  function StatusOf(status: string): (r: StatusInfo)
    ensures var l := Lower(status);
      && (r == RunningInfo <==> Contains(l, "running") || Contains(l, "up"))
      && (r == StoppedInfo <==> !Contains(l, "running") && !Contains(l, "up")
                                && (Contains(l, "exited") || Contains(l, "stopped")))
      && (r == PausedInfo <==> !Contains(l, "running") && !Contains(l, "up") && !Contains(l, "exited")
                               && !Contains(l, "stopped") && Contains(l, "paused"))
      && (r.cls == "status-unknown" <==> !Contains(l, "running") && !Contains(l, "up") && !Contains(l, "exited")
                                           && !Contains(l, "stopped") && !Contains(l, "paused") && !Contains(l, "restarting"))
      && (r.cls == "status-unknown" ==> r == StatusInfo(status, "status-unknown", "gray"))
  {
    var l := Lower(status);
    if Contains(l, "running") || Contains(l, "up") then RunningInfo
    else if Contains(l, "exited") || Contains(l, "stopped") then StoppedInfo
    else if Contains(l, "paused") then PausedInfo
    else if Contains(l, "restarting") then RestartingInfo
    else StatusInfo(status, "status-unknown", "gray")
  }

  /** `container.Status || container.status || container.State || 'Unknown'`. */
  function StatusValue(c: Json): Json {
    if Truthy(Member(c, "Status")) then Member(c, "Status").value
    else if Truthy(Member(c, "status")) then Member(c, "status").value
    else if Truthy(Member(c, "State")) then Member(c, "State").value
    else JStr("Unknown")
  }

  /** `formatContainerStatus(container)`; None when it throws: for a `null` or
      missing container, or a status that is not a string. */
  function FormatContainerStatus(container: Option<Json>): (r: Option<StatusInfo>)
    ensures r.Some? <==> container.Some? && container.value != JNull && StatusValue(container.value).JStr?
    ensures r.Some? ==> r.value == StatusOf(StatusValue(container.value).s)
    ensures container.Some? && container.value != JNull && !Truthy(Member(container.value, "Status"))
            && !Truthy(Member(container.value, "status")) && !Truthy(Member(container.value, "State"))
            ==> r == Some(StatusInfo("Unknown", "status-unknown", "gray"))
  {
    if container.None? || container.value == JNull then None
    else
      var v := StatusValue(container.value);
      if v.JStr? then
        UnknownIsUnknown();
        Some(StatusOf(v.s))
      else None
  }

  lemma UnknownIsUnknown()
    ensures StatusOf("Unknown") == StatusInfo("Unknown", "status-unknown", "gray")
  {
    var l := Lower("Unknown");
    assert l == "unknown";
    FirstCharAbsent(l, "running");
    FirstCharAbsent(l, "exited");
    FirstCharAbsent(l, "stopped");
    FirstCharAbsent(l, "paused");
    FirstCharAbsent(l, "restarting");
    assert !Contains(l, "up") by {
      forall i | 0 <= i <= |l| - 2
        ensures !OccursAt(l, "up", i)
      {
        assert l[i] != 'u' || l[i + 1] != 'p';
      }
    }
  }

  /** A pattern whose first character is not in the text does not occur in it. */
  lemma FirstCharAbsent(s: string, p: string)
    requires |p| > 0 && p[0] !in s
    ensures !Contains(s, p)
  {
    forall i | 0 <= i <= |s| - |p|
      ensures !OccursAt(s, p, i)
    {
      assert s[i..i + |p|][0] == s[i];
    }
  }

  // ---------------------------------------------------------------------------
  // validateContainerCLI
  // ---------------------------------------------------------------------------

  /** What `validateContainerCLI` reports about the tool. */
  datatype CliCheck = CliCheck(available: bool, version: Option<string>, error: Option<string>)

  const VersionArgs: seq<string> := ["--version"]

  /** `validateContainerCLI(invoke)` on the outcome of `container --version`:
      available with the trimmed version text, or unavailable with the error
      text. */
  function ValidateContainerCLI(inv: Invocation): (r: CliCheck)
    ensures r.available <==> inv.Completed? && inv.result.success
    ensures r.version.Some? <==> r.available
    ensures r.error.None? <==> r.available
    ensures r.version.Some? ==> r.version.value == Trim(inv.result.stdout) && Trim(r.version.value) == r.version.value
    ensures inv.Rejected? ==> r.error == Some(inv.error)
    ensures inv.Completed? && !inv.result.success ==> r.error == Some(inv.result.stderr)
  {
    match inv
    case Rejected(e) => CliCheck(false, None, Some(e))
    case Completed(res) =>
      if res.success then
        TrimIdempotent(res.stdout);
        CliCheck(true, Some(Trim(res.stdout)), None)
      else CliCheck(false, None, Some(res.stderr))
  }

  // ---------------------------------------------------------------------------
  // checkContainerSystemStatus
  // ---------------------------------------------------------------------------

  /** The status check's verdict. */
  datatype SystemStatus = SystemStatus(isRunning: bool, status: Option<string>, error: Option<string>)

  /** Whether the lower-cased, trimmed output of `system status` says the
      system runs, as the source's branches decide it. The middle branch adds
      nothing: an output that says `apiserver is not running` also says
      `not running`, which the fallback rejects anyway. */
  function SaysRunning(out: string): (r: bool)
    ensures r <==> Contains(out, "apiserver is running")
                   || (Contains(out, "running") && !Contains(out, "not running"))
  {
    PhraseHasNotRunning(out, "apiserver is not running", 13);
    if Contains(out, "apiserver is running") then true
    else if Contains(out, "apiserver is not running") then false
    else Contains(out, "running") && !Contains(out, "not running")
  }

  /** `checkContainerSystemStatus(invoke)` on the outcome of `system status`. */
  function CheckSystemStatus(inv: Invocation): (r: SystemStatus)
    ensures r.error.None? <==> r.isRunning
    ensures inv.Rejected? ==> r == SystemStatus(false, None, Some(inv.error))
    ensures inv.Completed? && (!inv.result.success || inv.result.stdout == []) ==> !r.isRunning && r.status.None?
    ensures inv.Completed? && inv.result.success && inv.result.stdout != [] ==>
      r.status == Some(Trim(inv.result.stdout)) && (r.isRunning <==> SaysRunning(Lower(Trim(inv.result.stdout))))
    ensures inv.Completed? && !r.isRunning ==>
      r.error == Some(if inv.result.stderr != [] then inv.result.stderr else "Container system is not running")
  {
    match inv
    case Rejected(e) => SystemStatus(false, None, Some(e))
    case Completed(res) =>
      var seen := res.success && res.stdout != [];
      var running := seen && SaysRunning(Lower(Trim(res.stdout)));
      var status := if seen then Some(Trim(res.stdout)) else None;
      SystemStatus(running, status,
                   if running then None
                   else Some(if res.stderr != [] then res.stderr else "Container system is not running"))
  }

  // ---------------------------------------------------------------------------
  // startContainerSystem
  // ---------------------------------------------------------------------------

  const SystemStartArgs: seq<string> := ["system", "start"]

  /** What `startContainerSystem` reports: a result without its exit code. */
  datatype StartResult = StartResult(success: bool, stdout: string, stderr: string)

  /** `startContainerSystem(invoke)` on the outcome of `system start`: it
      succeeds only when the tool does, and a rejection becomes a failure
      carrying the error text. */
  function StartContainerSystem(inv: Invocation): (r: StartResult)
    ensures r.success <==> inv.Completed? && inv.result.success
    ensures inv.Completed? ==> r.stdout == inv.result.stdout && r.stderr == inv.result.stderr
    ensures inv.Rejected? ==> r.stdout == [] && r.stderr == inv.error
  {
    match inv
    case Rejected(e) => StartResult(false, "", e)
    case Completed(res) => StartResult(res.success, res.stdout, res.stderr)
  }

  // ---------------------------------------------------------------------------
  // runContainerCommandWithStatusCheck
  // ---------------------------------------------------------------------------

  /** The error phrases that suggest the system is down, looked for in the
      lower-cased error output. Two of the six add nothing: `daemon not
      running` and `apiserver is not running` each contain `not running`. */
  function SuggestsDown(stderr: string): (r: bool)
    ensures r <==>
      var l := Lower(stderr);
      Contains(l, "not running") || Contains(l, "service unavailable")
      || Contains(l, "connection refused") || Contains(l, "not registered with launchd")
  {
    var l := Lower(stderr);
    PhraseHasNotRunning(l, "daemon not running", 7);
    PhraseHasNotRunning(l, "apiserver is not running", 13);
    || Contains(l, "not running")
    || Contains(l, "service unavailable")
    || Contains(l, "connection refused")
    || Contains(l, "daemon not running")
    || Contains(l, "apiserver is not running")
    || Contains(l, "not registered with launchd")
  }

  /** A text holding a phrase that holds `not running` holds `not running`. */
  lemma PhraseHasNotRunning(l: string, phrase: string, i: int)
    requires OccursAt(phrase, "not running", i)
    ensures Contains(l, phrase) ==> Contains(l, "not running")
  {
    if Contains(l, phrase) {
      ContainsTrans(l, phrase, "not running");
    }
  }

  /** The runner's result: the command's result, marked when the system was
      found down, and the toast shown then. */
  datatype Checked = Checked(result: CommandResult, systemNotRunning: bool, canStartSystem: bool, toast: Option<string>)

  const DownToast: string :=
    "Container system is not running. Click the \"Start Container System\" button in the sidebar to start it."

  /** `runContainerCommandWithStatusCheck(invoke, args, showToast)`, given the
      outcome of the command, the outcome of the status check it runs only
      for a failure that suggests the system is down, and whether a toast
      callback was passed. */
  function RunWithStatusCheck(cmd: Invocation, status: Invocation, hasToast: bool): (r: Checked)
    ensures cmd.Rejected? ==> r == Checked(CommandResult(false, "", cmd.error, 1), false, false, None)
    ensures cmd.Completed? ==> r.result == cmd.result
    ensures r.systemNotRunning == r.canStartSystem
    ensures cmd.Completed? ==>
      (r.systemNotRunning <==> !cmd.result.success && cmd.result.stderr != []
                               && SuggestsDown(cmd.result.stderr) && !CheckSystemStatus(status).isRunning)
    ensures r.toast.Some? <==> r.systemNotRunning && hasToast
    ensures r.toast.Some? ==> r.toast.value == DownToast
  {
    match cmd
    case Rejected(e) => Checked(CommandResult(false, "", e, 1), false, false, None)
    case Completed(res) =>
      if !res.success && res.stderr != [] && SuggestsDown(res.stderr) && !CheckSystemStatus(status).isRunning then
        Checked(res, true, true, if hasToast then Some(DownToast) else None)
      else Checked(res, false, false, None)
  }

  // ---------------------------------------------------------------------------
  // CONTAINER_COMMANDS
  // ---------------------------------------------------------------------------

  /** `CONTAINER_COMMANDS`, the reference table of the tool's commands, with
      each single word written as a one-word vector. */
  const ContainerCommands: map<string, seq<string>> := map[
    "RUN" := ["run"], "START" := ["start"], "STOP" := ["stop"], "RESTART" := ["restart"],
    "REMOVE" := ["delete"], "DELETE" := ["delete"], "LIST" := ["ls"],
    "PULL" := ["images", "pull"], "PUSH" := ["images", "push"], "BUILD" := ["build"],
    "TAG" := ["tag"], "IMAGES" := ["images", "ls"],
    "SYSTEM_START" := ["system", "start"], "SYSTEM_STOP" := ["system", "stop"],
    "SYSTEM_STATUS" := ["system", "status"],
    "LOGS" := ["logs"],
    "LOGIN" := ["registry", "login"], "LOGOUT" := ["registry", "logout"]]

  // ---------------------------------------------------------------------------
  // createContainerError
  // ---------------------------------------------------------------------------

  /** The error result a page reports for a failed operation. */
  datatype ErrorResult = ErrorResult(success: bool, stdout: string, stderr: string, exitCode: int, operation: string)

  function CreateContainerError(operation: string, error: string): (r: ErrorResult)
    ensures !r.success && r.stdout == [] && r.exitCode == 1 && r.operation == operation
    ensures StartsWith(r.stderr, "Failed to ")
  {
    var e := "Failed to " + operation + ": " + error;
    assert e[..10] == "Failed to ";
    ErrorResult(false, "", e, 1, operation)
  }

  /** Reading an error message back: the operation runs from after `Failed to `
      to the first `: `, the error is the rest. */
  function ParseContainerError(stderr: string): Option<(string, string)> {
    if |stderr| < 10 || stderr[..10] != "Failed to " then None
    else
      var rest := stderr[10..];
      match IndexOf(rest, ": ")
      case None => None
      case Some(i) => Some((rest[..i], rest[i + 2..]))
  }

  /** The message keeps both parts: an operation without `: ` in it and the
      error text are read back from the message. */
  lemma ContainerErrorRoundTrip(operation: string, error: string)
    requires !Contains(operation, ": ")
    ensures ParseContainerError(CreateContainerError(operation, error).stderr) == Some((operation, error))
  {
    var e := CreateContainerError(operation, error).stderr;
    var rest := operation + ": " + error;
    assert e[..10] == "Failed to " && e[10..] == rest;
    var n := |operation|;
    assert OccursAt(rest, ": ", n);
    forall i | 0 <= i < n
      ensures !OccursAt(rest, ": ", i)
    {
      if i < n - 1 {
        assert rest[i..i + 2] == operation[i..i + 2];
        assert OccursAt(operation, ": ", i) <==> OccursAt(rest, ": ", i);
      } else {
        assert rest[i..i + 2][1] == rest[n] == ':';
      }
    }
    IndexOfIsFirst(rest, ": ", n);
    assert rest[..n] == operation && rest[n + 2..] == error;
  }

  lemma IndexOfIsFirst(s: string, p: string, i: nat)
    requires OccursAt(s, p, i) && forall j :: 0 <= j < i ==> !OccursAt(s, p, j)
    ensures IndexOf(s, p) == Some(i)
  {
  }

  // ---------------------------------------------------------------------------
  // parseContainerOutput
  // ---------------------------------------------------------------------------

  /** The cell of column k in a row: `values[k] || ''`. */
  function Cell(values: seq<string>, k: nat): string {
    if k < |values| then values[k] else ""
  }

  /** The object of one table row: each header, left to right, set to its
      cell, so a repeated header keeps its last cell. */
  function RowObject(headers: seq<string>, values: seq<string>): (m: map<string, string>)
    ensures forall h :: h in m <==> h in headers
    decreases |headers|
  {
    if |headers| == 0 then map[]
    else
      var n := |headers| - 1;
      assert headers == headers[..n] + [headers[n]];
      RowObject(headers[..n], values)[headers[n] := Cell(values, n)]
  }

  /** A header that no later header repeats holds its own cell. */
  lemma {:induction false} RowObjectCell(headers: seq<string>, values: seq<string>, k: int)
    requires 0 <= k < |headers| && forall j :: k < j < |headers| ==> headers[j] != headers[k]
    ensures RowObject(headers, values)[headers[k]] == Cell(values, k)
    decreases |headers|
  {
    var n := |headers| - 1;
    if k < n {
      var init := headers[..n];
      assert init[k] == headers[k];
      assert forall j :: k < j < n ==> init[j] == headers[j];
      RowObjectCell(init, values, k);
    }
  }

  function RowJson(headers: seq<string>, line: string): Json {
    JObj(map h | h in RowObject(headers, SplitWs(line)) :: JStr(RowObject(headers, SplitWs(line))[h]))
  }

  /** The non-blank lines of the trimmed output, the units of JSON mode. */
  function JsonLines(output: string): (r: seq<string>)
    ensures forall k :: 0 <= k < |r| ==> !IsBlank(r[k])
  {
    Filter(Split(Trim(output), '\n'), (line: string) => !IsBlank(line))
  }

  /** Each line parsed, or None as soon as one line does not parse. */
  function ParseAll(lines: seq<string>, parse: string -> Parsed): (r: Option<seq<Json>>)
    ensures r.Some? <==> forall k :: 0 <= k < |lines| ==> parse(lines[k]).Parsed?
    ensures r.Some? ==> |r.value| == |lines| && forall k :: 0 <= k < |lines| ==> r.value[k] == parse(lines[k]).value
    decreases |lines|
  {
    if |lines| == 0 then Some([])
    else
      var n := |lines| - 1;
      var init := ParseAll(lines[..n], parse);
      assert forall k :: 0 <= k < n ==> lines[..n][k] == lines[k];
      match parse(lines[n])
      case NotJson(_) => None
      case Parsed(v) => if init.Some? then Some(init.value + [v]) else None
  }

  /** `parseContainerOutput(output, format)`, given `JSON.parse`; a falsy
      output is None or empty. */
  function ParseContainerOutput(output: Option<string>, format: string, parse: string -> Parsed): (r: seq<Json>)
    ensures output.None? || IsBlank(output.value) ==> r == []
    ensures output.Some? && !IsBlank(output.value) && format == "json" ==>
      var lines := JsonLines(output.value);
      if forall k :: 0 <= k < |lines| ==> parse(lines[k]).Parsed? then
        |r| == |lines| && forall k :: 0 <= k < |lines| ==> r[k] == parse(lines[k]).value
      else r == []
    ensures output.Some? && !IsBlank(output.value) && format != "json" ==>
      var lines := Split(Trim(output.value), '\n');
      && (|lines| < 2 ==> r == [])
      && (|lines| >= 2 ==>
            |r| == |lines| - 1 && forall k :: 0 <= k < |r| ==> r[k] == RowJson(SplitWs(lines[0]), lines[k + 1]))
  {
    if output.None? || IsBlank(output.value) then []
    else if format == "json" then
      match ParseAll(JsonLines(output.value), parse)
      case None => []
      case Some(vs) => vs
    else
      var lines := Split(Trim(output.value), '\n');
      if |lines| < 2 then []
      else
        var headers := SplitWs(lines[0]);
        Map(lines[1..], (line: string) => RowJson(headers, line))
  }

  /** Every table row has a key for each header, and a header that occurs
      once holds its own cell, or `''` past the end of the row. */
  lemma TableRowKeys(headers: seq<string>, line: string, k: int)
    requires 0 <= k < |headers| && forall j :: k < j < |headers| ==> headers[j] != headers[k]
    ensures var row := RowJson(headers, line);
      headers[k] in row.members && row.members[headers[k]] == JStr(Cell(SplitWs(line), k))
  {
    RowObjectCell(headers, SplitWs(line), k);
  }

  /** The lines of JSON mode are the non-blank lines of the output, in order:
      a line is there exactly when it is a non-blank line of the output. */
  lemma JsonLinesMembers(output: string)
    ensures forall t :: t in JsonLines(output) <==> t in Split(Trim(output), '\n') && !IsBlank(t)
  {
    FilterMembers(Split(Trim(output), '\n'), (line: string) => !IsBlank(line));
  }
}
