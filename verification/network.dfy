/** The Network page (src/routes/Network.jsx), a page of the kind the
    integrator generates: the argument list `executeNetwork` sends is the
    command followed by a flag and a value for each truthy form entry, and
    each flag reads back as the form key it came from. */
module Network {
  import opened Wrappers
  import opened Seqs
  import opened JsValues
  import opened IntegratorCodegen
  import opened CommandPage

  /** A form entry, as `Object.entries` lists it. */
  type Entry = (string, Json)

  /** An entry the page sends: one with a truthy value. */
  predicate Sent(e: Entry) { Truthy(Some(e.1)) }

  /** The flag and the value an entry contributes. */
  function Pair(e: Entry): seq<Json> {
    [JStr(PageFlag(e.0)), e.1]
  }

  /** `[command, ...entries.filter(v).flatMap(([k, v]) => [flag(k), v])]`. */
  function ExecuteArgs(command: string, form: seq<Entry>): (r: seq<Json>)
    ensures |r| >= 1 && r[0] == JStr(command)
  {
    [JStr(command)] + FlatMap(Filter(form, Sent), Pair)
  }

  /** The list `executeNetwork` sends. */
  function NetworkArgs(form: seq<Entry>): (r: seq<Json>)
    ensures |r| >= 1 && r[0] == JStr("network")
  {
    ExecuteArgs("network", form)
  }

  lemma {:induction false} PairsAt(kept: seq<Entry>)
    ensures |FlatMap(kept, Pair)| == 2 * |kept|
    ensures forall j :: 0 <= j < |kept| ==>
      FlatMap(kept, Pair)[2 * j] == JStr(PageFlag(kept[j].0)) && FlatMap(kept, Pair)[2 * j + 1] == kept[j].1
    decreases |kept|
  {
    if |kept| > 0 {
      var n := |kept| - 1;
      PairsAt(kept[..n]);
      FlatMapSnoc(kept[..n], kept[n], Pair);
      assert kept[..n] + [kept[n]] == kept;
    }
  }

  /** The list is the command and then, for each truthy entry in order, its
      flag and its value; a dash-free key reads back from its flag through
      the integrator's field naming. */
  lemma ExecuteArgsLayout(command: string, form: seq<Entry>)
    ensures var kept := Filter(form, Sent); var r := ExecuteArgs(command, form);
      && |r| == 1 + 2 * |kept|
      && forall j :: 0 <= j < |kept| ==>
        && r[1 + 2 * j] == JStr(PageFlag(kept[j].0)) && r[2 + 2 * j] == kept[j].1
        && Truthy(Some(r[2 + 2 * j]))
        && ('-' !in kept[j].0 ==> FieldName(r[1 + 2 * j].s) == kept[j].0)
  {
    var kept := Filter(form, Sent);
    PairsAt(kept);
    forall j | 0 <= j < |kept| && '-' !in kept[j].0
      ensures FieldName(PageFlag(kept[j].0)) == kept[j].0
    {
      FieldNameOfPageFlag(kept[j].0);
    }
  }

  /** An entry with a falsy value sends nothing. */
  lemma FalsyEntryIgnored(command: string, form: seq<Entry>, e: Entry)
    requires !Sent(e)
    ensures ExecuteArgs(command, form + [e]) == ExecuteArgs(command, form)
  {
    FilterSnoc(form, e, Sent);
    assert Filter(form, Sent) + [] == Filter(form, Sent);
  }

  /** What `execute_container_command` does: it returns the output, or
      throws. */
  datatype Executed = Returned(output: string) | Threw(error: string)

  /** The page's output and error panels after a run: one holds the
      outcome, the other is cleared. */
  function AfterExecute(x: Executed): (r: (string, string))
    ensures x.Returned? ==> r == (x.output, "")
    ensures x.Threw? ==> r == ("", x.error)
  {
    match x
    case Returned(o) => (o, "")
    case Threw(e) => ("", e)
  }
}
