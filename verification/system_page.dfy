/** The System page (src/routes/System.jsx): the system-information text,
    the container and image counts it derives from the fetched lists, and
    the inspect action with its optional JSON pretty-printing. */
module SystemPage {
  import opened Wrappers
  import opened Text
  import opened Seqs
  import opened JsValues
  import opened ContainerUtils
  import opened Pages

  const InfoArgs: seq<string> := ["system", "info"]
  const ContainerListArgs: seq<string> := ["ls", "--format", "json", "--all"]
  const ImageListArgs: seq<string> := ["images", "list", "--format", "json"]

  /** An error line: `Error: ` and the tool's error text, or `fallback`
      when that is empty. */
  function ErrorLine(stderr: string, fallback: string): (r: string)
    ensures stderr != [] ==> r == "Error: " + stderr
    ensures stderr == [] ==> r == "Error: " + fallback
  {
    "Error: " + (if stderr == [] then fallback else stderr)
  }

  /** The system-information text after `fetchSystemInfo`. */
  function SystemInfoAfter(inv: Invocation): (r: string)
    ensures inv.Completed? && inv.result.success ==> r == inv.result.stdout
    ensures !(inv.Completed? && inv.result.success) ==> StartsWith(r, "Error: ")
  {
    match inv
    case Rejected(e) => ErrorLine(e, "")
    case Completed(res) =>
      if res.success then res.stdout else ErrorLine(res.stderr, "Failed to get system info")
  }

  // ---------------------------------------------------------------------------
  // getSystemStats
  // ---------------------------------------------------------------------------

  /** The counts the page shows. */
  datatype Stats = Stats(containers: nat, running: nat, images: nat, stopped: nat)

  /** What `getSystemStats` produces: nothing before any system information
      arrived, the counts, or the `TypeError` a `null` container raises
      when its status is read. */
  datatype StatsOutcome = NoStats | Computed(stats: Stats) | Crashed(message: string)

  /** `c.status === s` for a container that is not `null`. */
  predicate StatusIs(c: Json, s: string) {
    Member(c, "status") == Some(JStr(s))
  }

  predicate Running(c: Json) { StatusIs(c, "running") }
  predicate Stopped(c: Json) { StatusIs(c, "stopped") || StatusIs(c, "exited") }

  /** `getSystemStats()`; `info` is the system information (None while it
      is `null`). */
  function SystemStats(info: Option<string>, containers: seq<Json>, images: seq<Json>): (r: StatsOutcome)
    ensures r.NoStats? <==> info.None? || info.value == []
    ensures r.Crashed? <==> !r.NoStats? && JNull in containers
    ensures r.Crashed? ==> r.message == TypeErrorMessage(Some(JNull), "status")
    ensures r.Computed? ==> r.stats.containers == |containers| && r.stats.images == |images|
  {
    if info.None? || info.value == [] then NoStats
    else if JNull in containers then Crashed(TypeErrorMessage(Some(JNull), "status"))
    else Computed(Stats(|containers|, Count(containers, Running), |images|, Count(containers, Stopped)))
  }

  /** No container is both running and stopped, so the two counts never
      exceed the number of containers. */
  lemma StatsBounded(info: Option<string>, containers: seq<Json>, images: seq<Json>)
    ensures var r := SystemStats(info, containers, images);
      r.Computed? ==> r.stats.running + r.stats.stopped <= r.stats.containers
  {
    if info.Some? && info.value != [] && JNull !in containers {
      DisjointCounts(containers);
    }
  }

  lemma {:induction false} DisjointCounts(cs: seq<Json>)
    ensures Count(cs, Running) + Count(cs, Stopped) <= |cs|
    decreases |cs|
  {
    if |cs| > 0 {
      var n := |cs| - 1;
      DisjointCounts(cs[..n]);
      assert !(Running(cs[n]) && Stopped(cs[n]));
    }
  }

  /** Every container counts as running exactly when its status is
      `running`: the count is the number of such containers. */
  lemma {:induction false} RunningCountMembers(cs: seq<Json>)
    ensures Count(cs, Running) == |cs| <==> forall k :: 0 <= k < |cs| ==> Running(cs[k])
    decreases |cs|
  {
    if |cs| > 0 {
      var n := |cs| - 1;
      RunningCountMembers(cs[..n]);
      assert forall k :: 0 <= k < n ==> cs[..n][k] == cs[k];
    }
  }

  // ---------------------------------------------------------------------------
  // handleInspect
  // ---------------------------------------------------------------------------

  /** `handleInspect`'s vector: `inspect` for a container, `images inspect`
      for anything else; None when nothing is selected. */
  function InspectArgs(item: string, itemType: string): (r: Option<seq<string>>)
    ensures r.None? <==> item == []
    ensures r.Some? ==> |r.value| >= 2 && r.value[|r.value| - 1] == item
    ensures r.Some? ==> (|r.value| == 2 <==> itemType == "container")
  {
    if item == [] then None
    else if itemType == "container" then Some(["inspect", item])
    else Some(["images", "inspect", item])
  }

  /** The output pretty-printed when asked and when it is JSON; otherwise
      as it came. `parse` is `JSON.parse`, `stringify` is
      `JSON.stringify(v, null, 2)`. */
  function Formatted(output: string, formatJson: bool, parse: string -> Parsed, stringify: Json -> string): (r: string)
    ensures !formatJson || IsBlank(output) || parse(output).NotJson? ==> r == output
  {
    if formatJson && !IsBlank(output) then
      match parse(output)
      case Parsed(v) => stringify(v)
      case NotJson(_) => output
    else output
  }

  /** With a codec whose printed text parses back to the value, formatting
      twice is formatting once. */
  lemma FormattedIdempotent(output: string, parse: string -> Parsed, stringify: Json -> string)
    requires forall v :: !IsBlank(stringify(v)) && parse(stringify(v)) == Parsed(v)
    ensures Formatted(Formatted(output, true, parse, stringify), true, parse, stringify)
      == Formatted(output, true, parse, stringify)
  {
  }

  /** The inspect panel's text after `handleInspect` runs. */
  function InspectAfter(inv: Invocation, formatJson: bool, parse: string -> Parsed, stringify: Json -> string): (r: string)
    ensures inv.Completed? && inv.result.success ==> r == Formatted(inv.result.stdout, formatJson, parse, stringify)
    ensures !(inv.Completed? && inv.result.success) ==> StartsWith(r, "Error: ")
  {
    match inv
    case Rejected(e) => ErrorLine(e, "")
    case Completed(res) =>
      if res.success then Formatted(res.stdout, formatJson, parse, stringify)
      else ErrorLine(res.stderr, "Inspection failed")
  }
}
