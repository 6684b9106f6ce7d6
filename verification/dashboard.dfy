/** The Dashboard page (src/routes/Dashboard.jsx): the table rows it makes
    from the status the back end reports, where that transformation throws,
    the status badge, and the start/stop/delete actions. */
module Dashboard {
  import opened Wrappers
  import opened Text
  import opened JsValues
  import opened ContainerUtils
  import Seqs
  import Pages

  // ---------------------------------------------------------------------------
  // fetchContainers
  // ---------------------------------------------------------------------------

  /** `v?.key`: undefined for an undefined or `null` value. */
  function OptMember(v: Option<Json>, key: string): (r: Option<Json>)
    ensures v.None? || v == Some(JNull) ==> r.None?
  {
    if v.None? || v.value == JNull then None else Member(v.value, key)
  }

  /** `v || fallback`. */
  function OrText(v: Option<Json>, fallback: string): (r: Json)
    ensures Truthy(v) ==> r == v.value
    ensures !Truthy(v) ==> r == JStr(fallback)
  {
    if Truthy(v) then v.value else JStr(fallback)
  }

  /** A row of the table. The page stores the id under `id`, `name` and
      `Names`, and the status under `Status` and `status`. */
  datatype Row = Row(id: Json, image: Json, status: Json, ports: string, networks: Json)

  /** What one network contributes to the ports column: its address as
      text, empty for a missing or `null` address (as `join` renders it). */
  function AddressText(net: Json): string {
    match Member(net, "address")
    case None => ""
    case Some(JNull) => ""
    case Some(a) => JsString(a)
  }

  /** The networks a container may list without making the page throw:
      none (`undefined` or `null`), or an array with no `null` network. */
  predicate NetworksOk(c: Json) {
    match Member(c, "networks")
    case None => true
    case Some(JNull) => true
    case Some(JArr(items)) => JNull !in items
    case Some(_) => false
  }

  /** `container.networks?.map(net => net.address).join(', ') || '-'`;
      None where it throws. */
  function Ports(c: Json): (r: Option<string>)
    ensures r.Some? <==> NetworksOk(c)
    ensures r.Some? ==> r.value != []
  {
    match Member(c, "networks")
    case None => Some("-")
    case Some(JNull) => Some("-")
    case Some(JArr(items)) =>
      if JNull in items then None
      else
        var j := Join(Seqs.Map(items, AddressText), ", ");
        Some(if j == [] then "-" else j)
    case Some(_) => None
  }

  /** A join with `", "` is empty only for no parts or one empty part. */
  lemma {:induction false} JoinEmpty(parts: seq<string>)
    ensures Join(parts, ", ") == [] <==> |parts| == 0 || (|parts| == 1 && parts[0] == [])
  {
    if |parts| >= 2 {
      assert |Join(parts, ", ")| >= 2;
    }
  }

  /** The ports column shows `-` exactly when the container lists no
      networks, an empty array, or a single network whose address is
      missing or is `-` itself; two address-less networks show a bare
      separator instead. */
  lemma PortsDash(c: Json)
    requires NetworksOk(c)
    ensures Ports(c) == Some("-") <==>
      match Member(c, "networks")
      case Some(JArr(items)) => |items| == 0 || (|items| == 1 && (AddressText(items[0]) == [] || AddressText(items[0]) == "-"))
      case _ => true
  {
    match Member(c, "networks")
    case Some(JArr(items)) =>
      var parts := Seqs.Map(items, AddressText);
      JoinEmpty(parts);
      if |parts| >= 2 {
        assert |Join(parts, ", ")| >= 2;
      }
    case _ =>
  }

  /** The row of one container; None where building it throws: a `null`
      container, or networks the page cannot map. */
  function RowOf(c: Json): (r: Option<Row>)
    ensures r.Some? <==> c != JNull && NetworksOk(c)
  {
    if c == JNull then None
    else match Ports(c)
      case None => None
      case Some(p) =>
        var config := Member(c, "configuration");
        Some(Row(
          OrText(OptMember(config, "id"), "Unknown"),
          OrText(OptMember(OptMember(config, "image"), "reference"), "Unknown"),
          OrText(Member(c, "status"), "Unknown"),
          p,
          if Truthy(Member(c, "networks")) then Member(c, "networks").value else JArr([])))
  }

  /** The rows of what `get_container_status` returned; None where the page
      throws (the value is not an array, or a row throws). */
  function Transform(result: Json): (r: Option<seq<Row>>)
    ensures r.Some? <==> result.JArr? && forall k :: 0 <= k < |result.items| ==> result.items[k] != JNull && NetworksOk(result.items[k])
  {
    if result.JArr? then Seqs.MapAll(result.items, RowOf) else None
  }

  /** What `get_container_status` does. */
  datatype StatusCall = Returned(value: Json) | Failed(error: string)

  /** The message of the `TypeError` that building the row of `c` throws,
      or None: a `null` container throws at `container.configuration`,
      networks that are neither missing, `null` nor an array have no `map`,
      and a `null` network throws at `net.address`. */
  function RowError(c: Json): (e: Option<string>)
    ensures e.None? <==> RowOf(c).Some?
  {
    if c == JNull then Some(TypeErrorMessage(Some(JNull), "configuration"))
    else match Member(c, "networks")
      case None => None
      case Some(JNull) => None
      case Some(JArr(items)) => if JNull in items then Some(TypeErrorMessage(Some(JNull), "address")) else None
      case Some(_) => Some("container.networks?.map is not a function")
  }

  /** The first container from i on whose row throws, or the end. */
  function FirstThrowing(items: seq<Json>, i: nat): (k: nat)
    requires i <= |items|
    ensures i <= k <= |items|
    ensures forall j :: i <= j < k ==> RowError(items[j]).None?
    ensures k < |items| ==> RowError(items[k]).Some?
    decreases |items| - i
  {
    if i == |items| || RowError(items[i]).Some? then i else FirstThrowing(items, i + 1)
  }

  /** The message of the `TypeError` the transformation throws: `map`
      visits the containers in order, so it is the first container whose
      row throws that decides it. */
  function ThrownBy(result: Json): (m: string)
    requires Transform(result).None?
    ensures result == JNull ==> m == TypeErrorMessage(Some(JNull), "map")
    ensures result != JNull && !result.JArr? ==> m == "result.map is not a function"
    ensures result.JArr? ==>
      forall k :: 0 <= k < |result.items| && RowError(result.items[k]).Some? &&
                  (forall j :: 0 <= j < k ==> RowError(result.items[j]).None?) ==>
        m == RowError(result.items[k]).value
  {
    if result == JNull then TypeErrorMessage(Some(JNull), "map")
    else if !result.JArr? then "result.map is not a function"
    else
      SomeRowThrows(result.items);
      FirstThrowingIsFirst(result.items);
      RowError(result.items[FirstThrowing(result.items, 0)]).value
  }

  /** A container that throws while none before it does is the first. */
  lemma FirstThrowingIsFirst(items: seq<Json>)
    ensures forall k :: 0 <= k < |items| && RowError(items[k]).Some? &&
                        (forall j :: 0 <= j < k ==> RowError(items[j]).None?) ==>
      FirstThrowing(items, 0) == k
  {
  }

  /** When the containers do not all make rows, one of them throws. */
  lemma SomeRowThrows(items: seq<Json>)
    requires Seqs.MapAll(items, RowOf).None?
    ensures FirstThrowing(items, 0) < |items|
  {
    var w :| 0 <= w < |items| && RowOf(items[w]).None?;
    assert RowError(items[w]).Some?;
  }

  /** The table and the output panel after `fetchContainers`: the rows and
      no result, or no rows and the failure: the call's own error, or the
      `TypeError` the transformation throws. */
  function FetchContainers(call: StatusCall): (r: (seq<Row>, Option<CommandResult>))
    ensures r.1.None? <==> call.Returned? && Transform(call.value).Some?
    ensures r.1.None? ==> r.0 == Transform(call.value).value
    ensures r.1.Some? ==> r.0 == [] && !r.1.value.success && r.1.value.exitCode == 1
    ensures call.Failed? ==> r.1 == Some(CommandResult(false, "", call.error, 1))
    ensures call.Returned? && r.1.Some? ==>
      r.1.value == CommandResult(false, "", "TypeError: " + ThrownBy(call.value), 1)
  {
    if call.Failed? then ([], Some(CommandResult(false, "", call.error, 1)))
    else
      var t := Transform(call.value);
      if t.Some? then (t.value, None)
      else ([], Some(CommandResult(false, "", "TypeError: " + ThrownBy(call.value), 1)))
  }

  // ---------------------------------------------------------------------------
  // getStatusBadge
  // ---------------------------------------------------------------------------

  /** A badge: its text and its class (`""` for the plain badge). */
  datatype Badge = Badge(text: string, cls: string)

  /** `getStatusBadge(status)`: by case-insensitive precedence, running,
      exited, paused, else the status itself. */
  function StatusBadge(status: string): (r: Badge)
    ensures var l := Lower(status);
      && (r == Badge("Running", "status-running") <==> Contains(l, "running"))
      && (r.cls == "" <==> !Contains(l, "running") && !Contains(l, "exited") && !Contains(l, "paused"))
      && (r.cls == "" ==> r.text == status)
  {
    var l := Lower(status);
    if Contains(l, "running") then Badge("Running", "status-running")
    else if Contains(l, "exited") then Badge("Stopped", "status-stopped")
    else if Contains(l, "paused") then Badge("Paused", "status-paused")
    else Badge(status, "")
  }

  /** The dashboard's badge says what `formatContainerStatus` says for a
      status that mentions none of `up`, `stopped` and `restarting`, the
      words only the latter looks for. */
  lemma BadgeAgreesWithFormat(status: string)
    requires var l := Lower(status); !Contains(l, "up") && !Contains(l, "stopped") && !Contains(l, "restarting")
    ensures StatusBadge(status).text == StatusOf(status).text
    ensures StatusBadge(status).cls == "" <==> StatusOf(status).cls == "status-unknown"
    ensures StatusBadge(status).cls != "" ==> StatusBadge(status).cls == StatusOf(status).cls
  {
  }

  // ---------------------------------------------------------------------------
  // handleContainerAction
  // ---------------------------------------------------------------------------

  /** The result shown when the name or the action is missing. */
  const InvalidAction: CommandResult := CommandResult(false, "", "Invalid container name or action", 1)

  /** `handleContainerAction(name, action)`: the vector sent (None when the
      guard refuses), the result shown, and whether the table is fetched
      again, which only a success does. */
  function ContainerAction(name: string, action: string, inv: Invocation): (r: (Option<seq<string>>, CommandResult, bool))
    ensures r.0.None? <==> name == [] || action == []
    ensures r.0.None? ==> r.1 == InvalidAction && !r.2
    ensures r.0.Some? ==> r.0.value == [action, name] && r.1 == Pages.ResultOf(inv) && (r.2 <==> r.1.success)
  {
    if name == [] || action == [] then (None, InvalidAction, false)
    else
      var res := Pages.ResultOf(inv);
      (Some([action, name]), res, res.success)
  }

  /** The table and the panel once `handleContainerAction` has finished,
      given the table before it and what the fetch that a success triggers
      returns. A refused or failed action leaves its result on the panel
      and the table as it was; after a success the fetch decides both, so
      a fetch that succeeds clears the action's result from the panel. */
  function AfterContainerAction(name: string, action: string, inv: Invocation, rows: seq<Row>, refetch: StatusCall): (r: (seq<Row>, Option<CommandResult>))
    ensures var a := ContainerAction(name, action, inv);
      && (!a.1.success ==> r == (rows, Some(a.1)))
      && (a.1.success ==> r == FetchContainers(refetch))
    ensures r.1.None? <==>
      name != [] && action != [] && inv.Completed? && inv.result.success &&
      refetch.Returned? && Transform(refetch.value).Some?
  {
    var a := ContainerAction(name, action, inv);
    if a.2 then FetchContainers(refetch) else (rows, Some(a.1))
  }
}
