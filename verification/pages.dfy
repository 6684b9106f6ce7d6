/** What the route components share around one call of the command-line
    tool: the failure record their `catch` blocks build, and the shape of a
    form submission — a guard that stops it before anything is invoked, or
    the argument vector sent, the result shown and the form afterwards. */
module Pages {
  import opened Wrappers
  import opened JsValues
  import opened ContainerUtils

  /** The result a page shows for one invocation: what the tool returned,
      or, when the invocation rejected, a failure carrying the error text
      with exit code 1. */
  function ResultOf(inv: Invocation): (r: CommandResult)
    ensures inv.Completed? ==> r == inv.result
    ensures inv.Rejected? ==> !r.success && r.stdout == [] && r.stderr == inv.error && r.exitCode == 1
  {
    match inv
    case Completed(res) => res
    case Rejected(e) => CommandResult(false, "", e, 1)
  }

  /** `startContainerSystem` reports what a page shows for the same call,
      less the exit code. */
  lemma StartAgreesWithResultOf(inv: Invocation)
    ensures var r := ResultOf(inv); StartContainerSystem(inv) == StartResult(r.success, r.stdout, r.stderr)
  {
  }

  /** One submission of a form. */
  datatype Submission<F> = Aborted(alert: string) | Ran(argv: seq<string>, result: CommandResult, form: F)

  /** Submitting a form: `argv` is None when the page's guard refuses the
      input, and then nothing is invoked and the page alerts; otherwise the
      tool runs and the form is reset to `cleared` exactly when the result
      is a success. */
  function Submit<F>(argv: Option<seq<string>>, alert: string, inv: Invocation, form: F, cleared: F): (r: Submission<F>)
    ensures r.Aborted? <==> argv.None?
    ensures r.Aborted? ==> r.alert == alert
    ensures r.Ran? ==> r.argv == argv.value && r.result == ResultOf(inv)
    ensures r.Ran? && r.result.success ==> r.form == cleared
    ensures r.Ran? && !r.result.success ==> r.form == form
  {
    match argv
    case None => Aborted(alert)
    case Some(a) =>
      var res := ResultOf(inv);
      Ran(a, res, if res.success then cleared else form)
  }

  /** A rejected invocation never clears the form. */
  lemma RejectedKeepsForm<F>(argv: seq<string>, alert: string, e: string, form: F, cleared: F)
    ensures Submit(Some(argv), alert, Rejected(e), form, cleared) == Ran(argv, CommandResult(false, "", e, 1), form)
  {
  }

  /** A list the page fetches as JSON (`fetchContainers`, `fetchImages`),
      given `JSON.parse`: the parsed array; an empty list when the output
      is not a JSON array or the call rejects; the previous list when the
      call fails or prints nothing. */
  function JsonListAfter(prev: seq<Json>, inv: Invocation, parse: string -> Parsed): (r: seq<Json>)
    ensures inv.Rejected? ==> r == []
    ensures inv.Completed? && (!inv.result.success || inv.result.stdout == []) ==> r == prev
    ensures inv.Completed? && inv.result.success && inv.result.stdout != [] ==>
      if parse(inv.result.stdout).Parsed? && parse(inv.result.stdout).value.JArr?
      then r == parse(inv.result.stdout).value.items
      else r == []
  {
    match inv
    case Rejected(_) => []
    case Completed(res) =>
      if res.success && res.stdout != [] then
        match parse(res.stdout)
        case Parsed(JArr(items)) => items
        case _ => []
      else prev
  }
}
