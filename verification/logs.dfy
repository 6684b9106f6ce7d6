/** The Logs page (src/routes/Logs.jsx): the argument vector `fetchLogs`
    sends for the chosen container and options, a reader of such vectors,
    and what the page shows after each fetch — including the text a
    sequence of streaming fetches accumulates. */
module Logs {
  import opened Wrappers
  import opened Text
  import opened Seqs
  import opened JsValues
  import opened ContainerUtils

  /** The option panel's fields. */
  datatype LogOptions = LogOptions(follow: bool, boot: bool, tail: string, since: string, until: string)

  const DefaultOptions: LogOptions := LogOptions(false, false, "", "", "")

  // ---------------------------------------------------------------------------
  // The argument vector of fetchLogs
  // ---------------------------------------------------------------------------

  /** A switch that is present exactly when `on` holds. */
  function Flag(flag: string, on: bool): seq<string> {
    if on then [flag] else []
  }

  /** A valued option: the flag and the trimmed value, for a value that is
      not blank. */
  function ValueFlag(flag: string, value: string): seq<string> {
    if IsBlank(value) then [] else [flag, Trim(value)]
  }

  /** The options between `logs` and the container: `--follow` only for a
      fetch that is not a streaming refresh, then `--boot`, `--tail`,
      `--since` and `--until`. */
  function OptionArgs(o: LogOptions, streaming: bool): seq<string> {
    Flag("--follow", o.follow && !streaming) + FromBoot(o)
  }

  /** The options from `--boot` on, from `--tail` on, from `--since` on and
      from `--until` on. */
  function FromBoot(o: LogOptions): seq<string> { Flag("--boot", o.boot) + FromTail(o) }
  function FromTail(o: LogOptions): seq<string> { ValueFlag("--tail", o.tail) + FromSince(o) }
  function FromSince(o: LogOptions): seq<string> { ValueFlag("--since", o.since) + FromUntil(o) }
  function FromUntil(o: LogOptions): seq<string> { ValueFlag("--until", o.until) }

  /** The argument vector of `fetchLogs(streaming)`; None when no container
      is chosen and nothing is fetched. */
  function LogsArgs(container: string, o: LogOptions, streaming: bool): (r: Option<seq<string>>)
    ensures r.None? <==> container == []
    ensures r.Some? ==> |r.value| >= 2 && r.value[0] == "logs" && r.value[|r.value| - 1] == container
  {
    if container == [] then None else Some(["logs"] + (OptionArgs(o, streaming) + [container]))
  }

  /** What a logs vector asks the tool for. */
  datatype LogsRequest = LogsRequest(
    follow: bool, boot: bool, tail: Option<string>, since: Option<string>, until: Option<string>, container: string)

  /** A valued option as the tool receives it. */
  function Given(value: string): Option<string> {
    if IsBlank(value) then None else Some(Trim(value))
  }

  /** The request the page makes. */
  function Requested(container: string, o: LogOptions, streaming: bool): LogsRequest {
    LogsRequest(o.follow && !streaming, o.boot, Given(o.tail), Given(o.since), Given(o.until), container)
  }

  /** Reads an optional switch at the front. */
  function ReadFlag(flag: string, xs: seq<string>): (r: (bool, seq<string>))
    ensures |r.1| <= |xs|
  {
    if |xs| > 0 && xs[0] == flag then (true, xs[1..]) else (false, xs)
  }

  /** Reads an optional valued option at the front. */
  function ReadValue(flag: string, xs: seq<string>): (r: (Option<string>, seq<string>))
    ensures |r.1| <= |xs|
  {
    if |xs| >= 2 && xs[0] == flag then (Some(xs[1]), xs[2..]) else (None, xs)
  }

  /** A reader of logs vectors: `logs`, the options in the page's order, and
      the container last; None for anything else. */
  function ParseLogsArgs(argv: seq<string>): (r: Option<LogsRequest>)
    ensures r.Some? ==> |argv| >= 2 && argv[0] == "logs" && r.value.container == argv[|argv| - 1]
  {
    if |argv| < 2 || argv[0] != "logs" then None
    else
      var (follow, m1) := ReadFlag("--follow", argv[1..|argv| - 1]);
      var (boot, m2) := ReadFlag("--boot", m1);
      var (tail, m3) := ReadValue("--tail", m2);
      var (since, m4) := ReadValue("--since", m3);
      var (until, m5) := ReadValue("--until", m4);
      if m5 == [] then Some(LogsRequest(follow, boot, tail, since, until, argv[|argv| - 1])) else None
  }

  lemma ReadFlagOf(flag: string, on: bool, rest: seq<string>)
    requires rest == [] || rest[0] != flag
    ensures ReadFlag(flag, Flag(flag, on) + rest) == (on, rest)
  {
    if on {
      assert (Flag(flag, on) + rest)[1..] == rest;
    } else {
      assert Flag(flag, on) + rest == rest;
    }
  }

  lemma ReadValueOf(flag: string, value: string, rest: seq<string>)
    requires rest == [] || rest[0] != flag
    ensures ReadValue(flag, ValueFlag(flag, value) + rest) == (Given(value), rest)
    ensures var xs := ValueFlag(flag, value) + rest; xs == rest || xs[0] == flag
  {
    if !IsBlank(value) {
      assert (ValueFlag(flag, value) + rest)[2..] == rest;
    } else {
      assert ValueFlag(flag, value) + rest == rest;
    }
  }

  lemma UntilRead(o: LogOptions)
    ensures ReadValue("--until", FromUntil(o)) == (Given(o.until), [])
    ensures FromUntil(o) == [] || FromUntil(o)[0] == "--until"
  {
    ReadValueOf("--until", o.until, []);
    assert ValueFlag("--until", o.until) + [] == FromUntil(o);
  }

  lemma SinceRead(o: LogOptions)
    ensures ReadValue("--since", FromSince(o)) == (Given(o.since), FromUntil(o))
    ensures FromSince(o) == [] || FromSince(o)[0] in {"--since", "--until"}
  {
    UntilRead(o);
    ReadValueOf("--since", o.since, FromUntil(o));
  }

  lemma TailRead(o: LogOptions)
    ensures ReadValue("--tail", FromTail(o)) == (Given(o.tail), FromSince(o))
    ensures FromTail(o) == [] || FromTail(o)[0] in {"--tail", "--since", "--until"}
  {
    SinceRead(o);
    ReadValueOf("--tail", o.tail, FromSince(o));
  }

  lemma BootRead(o: LogOptions)
    ensures ReadFlag("--boot", FromBoot(o)) == (o.boot, FromTail(o))
    ensures FromBoot(o) == [] || FromBoot(o)[0] in {"--boot", "--tail", "--since", "--until"}
  {
    TailRead(o);
    ReadFlagOf("--boot", o.boot, FromTail(o));
  }

  lemma MiddleOf(o: seq<string>, container: string)
    ensures (["logs"] + (o + [container]))[1..|["logs"] + (o + [container])| - 1] == o
  {
    var a := ["logs"] + (o + [container]);
    assert a[1..|a| - 1] == o;
  }

  /** Reading the vector back gives exactly the request the page made: the
      options, trimmed, and the container, whatever their text. */
  lemma LogsArgsRoundTrip(container: string, o: LogOptions, streaming: bool)
    requires container != []
    ensures ParseLogsArgs(LogsArgs(container, o, streaming).value) == Some(Requested(container, o, streaming))
  {
    UntilRead(o);
    SinceRead(o);
    TailRead(o);
    BootRead(o);
    ReadFlagOf("--follow", o.follow && !streaming, FromBoot(o));
    MiddleOf(OptionArgs(o, streaming), container);
  }

  // ---------------------------------------------------------------------------
  // What the page shows after a fetch
  // ---------------------------------------------------------------------------

  /** What a streaming refresh appends: nothing for empty output, else a
      line break and the new output. */
  function Chunk(output: string): string {
    if output == [] then "" else "\n" + output
  }

  /** The text shown after a fetch of `what` (`logs` or `system logs`) that
      replaces what was there: the output, or an error line. */
  function Fetched(what: string, inv: Invocation): (r: string)
    ensures inv.Completed? && inv.result.success ==> r == inv.result.stdout
    ensures inv.Completed? && !inv.result.success && inv.result.stderr != [] ==>
      r == "Error fetching " + what + ": " + inv.result.stderr
    ensures inv.Completed? && !inv.result.success && inv.result.stderr == [] ==>
      r == "Error fetching " + what + ": Unknown error"
    ensures inv.Rejected? ==> r == "Failed to fetch " + what + ": " + inv.error
  {
    match inv
    case Rejected(e) => "Failed to fetch " + what + ": " + e
    case Completed(res) =>
      if res.success then res.stdout
      else "Error fetching " + what + ": " + (if res.stderr == [] then "Unknown error" else res.stderr)
  }

  /** The log text after `fetchLogs(streaming)` completes, given the text
      before: a successful streaming refresh appends its chunk, anything
      else replaces the text. */
  function LogsAfter(prev: string, streaming: bool, inv: Invocation): (r: string)
    ensures streaming && inv.Completed? && inv.result.success ==> |r| >= |prev| && r[..|prev|] == prev
    ensures !(streaming && inv.Completed? && inv.result.success) ==> r == Fetched("logs", inv)
  {
    if streaming && inv.Completed? && inv.result.success then prev + Chunk(inv.result.stdout)
    else Fetched("logs", inv)
  }

  /** The text after successive successful streaming refreshes with the
      given outputs. */
  function Streamed(prev: string, outputs: seq<string>): string
    decreases |outputs|
  {
    if |outputs| == 0 then prev
    else
      var n := |outputs| - 1;
      LogsAfter(Streamed(prev, outputs[..n]), true, Completed(CommandResult(true, outputs[n], "", 0)))
  }

  /** Streaming only ever appends: the text is the starting text followed
      by each non-empty output on a line of its own, in order. */
  lemma {:induction false} StreamedIsConcatenation(prev: string, outputs: seq<string>)
    ensures Streamed(prev, outputs) == prev + FlatMap(outputs, Chunk)
    decreases |outputs|
  {
    if |outputs| > 0 {
      var n := |outputs| - 1;
      StreamedIsConcatenation(prev, outputs[..n]);
      assert outputs[..n] + [outputs[n]] == outputs;
      FlatMapSnoc(outputs[..n], outputs[n], Chunk);
    }
  }

  // ---------------------------------------------------------------------------
  // Page state
  // ---------------------------------------------------------------------------

  /** The state the handlers change. */
  datatype LogsPage = LogsPage(selected: string, logs: string, streaming: bool, options: LogOptions)

  /** `handleContainerChange`: a new selection clears the text and stops
      streaming. */
  function SelectContainer(page: LogsPage, container: string): (r: LogsPage)
    ensures r.selected == container && r.logs == [] && !r.streaming && r.options == page.options
  {
    page.(selected := container, logs := "", streaming := false)
  }

  /** An input event of the option panel. */
  datatype OptionEvent = Checkbox(name: string, checked: bool) | TextInput(name: string, value: string)

  /** `handleOptionChange`: the named field takes the checkbox's state or the
      input's text. */
  function ChangeOption(o: LogOptions, e: OptionEvent): (r: LogOptions)
    ensures e.Checkbox? && e.name == "follow" ==> r == o.(follow := e.checked)
    ensures e.Checkbox? && e.name == "boot" ==> r == o.(boot := e.checked)
    ensures e.TextInput? && e.name in {"tail", "since", "until"} ==> ChangedField(o, r, e.name, e.value)
  {
    match e
    case Checkbox(name, checked) =>
      if name == "follow" then o.(follow := checked)
      else if name == "boot" then o.(boot := checked)
      else o
    case TextInput(name, value) =>
      if name == "tail" then o.(tail := value)
      else if name == "since" then o.(since := value)
      else if name == "until" then o.(until := value)
      else o
  }

  /** `r` is `o` with the text field `name` set to `value`. */
  predicate ChangedField(o: LogOptions, r: LogOptions, name: string, value: string) {
    && r.follow == o.follow && r.boot == o.boot
    && r.tail == (if name == "tail" then value else o.tail)
    && r.since == (if name == "since" then value else o.since)
    && r.until == (if name == "until" then value else o.until)
  }

  /** Two changes to different fields commute. */
  lemma ChangesCommute(o: LogOptions, e1: OptionEvent, e2: OptionEvent)
    requires e1.name != e2.name
    ensures ChangeOption(ChangeOption(o, e1), e2) == ChangeOption(ChangeOption(o, e2), e1)
  {
  }

  /** `toggleStreaming`: stops a running stream; otherwise starts one and
      asks for a plain fetch (None when no container is chosen). */
  function ToggleStreaming(page: LogsPage): (r: (LogsPage, Option<seq<string>>))
    ensures r.0.streaming == !page.streaming
    ensures page.streaming ==> r.1.None?
    ensures !page.streaming ==> r.1 == LogsArgs(page.selected, page.options, false)
  {
    if page.streaming then (page.(streaming := false), None)
    else (page.(streaming := true), LogsArgs(page.selected, page.options, false))
  }

  /** `fetchSystemLogs` always sends `system logs`. */
  const SystemLogsArgs: seq<string> := ["system", "logs"]

  /** The system-log text after `fetchSystemLogs`. */
  function SystemLogsAfter(inv: Invocation): (r: string)
    ensures inv.Completed? && inv.result.success ==> r == inv.result.stdout
    ensures inv.Completed? && !inv.result.success ==> StartsWith(r, "Error fetching system logs: ")
    ensures inv.Rejected? ==> StartsWith(r, "Failed to fetch system logs: ")
  {
    Fetched("system logs", inv)
  }
}
