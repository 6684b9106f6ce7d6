/** The Run Container page (src/routes/RunContainer.jsx): the argument vector
    `handleSubmit` builds from the form, and a reader of such vectors that
    recovers what the form asked for. */
module RunContainer {
  import opened Wrappers
  import opened Text
  import opened Seqs
  import opened ContainerUtils
  import opened Pages

  /** The form's fields. */
  datatype RunForm = RunForm(
    name: string, image: string,
    detach: bool, interactive: bool, tty: bool, remove: bool,
    ports: string, volumes: string, environment: string, command: string)

  /** The form as it starts and as a successful run leaves it. */
  const DefaultForm: RunForm := RunForm("", "", true, false, false, false, "", "", "", "")

  predicate NonEmpty(s: string) { s != [] }

  // ---------------------------------------------------------------------------
  // The argument vector, as handleSubmit builds it
  // ---------------------------------------------------------------------------

  /** `addArg(flag, value)`: the flag and the trimmed value, for a value that
      is not blank. */
  function AddArg(flag: string, value: string): (r: seq<string>)
    ensures r == [] <==> IsBlank(value)
    ensures r != [] ==> |r| == 2 && r[0] == flag && r[1] != [] && Trim(r[1]) == r[1] && r[1] == Trim(value)
  {
    if IsBlank(value) then [] else TrimIdempotent(value); [flag, Trim(value)]
  }

  /** `addArg(flag, v)` for each value in turn. */
  function AddArgs(flag: string, values: seq<string>): seq<string>
    decreases |values|
  {
    if |values| == 0 then [] else AddArg(flag, values[0]) + AddArgs(flag, values[1..])
  }

  /** The entries of a comma-separated field: the pieces between commas,
      trimmed, without the empty ones, in input order. */
  function Entries(field: string): (r: seq<string>)
    ensures forall k :: 0 <= k < |r| ==> r[k] != [] && Trim(r[k]) == r[k]
  {
    if IsBlank(field) then []
    else
      var trimmed := Map(Split(field, ','), Trim);
      forall x | x in trimmed
        ensures Trim(x) == x
      {
        var j :| 0 <= j < |trimmed| && trimmed[j] == x;
        TrimIdempotent(Split(field, ',')[j]);
      }
      Filter(trimmed, NonEmpty)
  }

  /** The command-override words: the trimmed command split at single
      spaces, each piece trimmed, empty pieces dropped. */
  function Words(command: string): (r: seq<string>)
    ensures forall k :: 0 <= k < |r| ==> r[k] != []
  {
    if IsBlank(command) then [] else Filter(Map(Split(Trim(command), ' '), Trim), NonEmpty)
  }

  /** A switch, pushed when its box is ticked. */
  function Switch(on: bool, word: string): seq<string> {
    if on then [word] else []
  }

  /** The switches, in the order the page pushes them, before `tail`. */
  function SwitchesThen(f: RunForm, tail: seq<string>): seq<string> {
    Switch(f.detach, "--detach") + (Switch(f.interactive, "--interactive")
      + (Switch(f.tty, "--tty") + (Switch(f.remove, "--rm") + tail)))
  }

  /** The name option, pushed when a name was typed. */
  function NameArgs(f: RunForm): seq<string> {
    if IsBlank(f.name) then [] else AddArg("--name", Trim(f.name))
  }

  /** Every option, in the order the page pushes them, before `tail`. */
  function OptionsThen(f: RunForm, tail: seq<string>): (r: seq<string>)
    ensures EndsWith(r, tail)
  {
    var t3 := AddArgs("--env", Entries(f.environment)) + tail;
    var t2 := AddArgs("--volume", Entries(f.volumes)) + t3;
    var t1 := AddArgs("--publish", Entries(f.ports)) + t2;
    var sw := SwitchesThen(f, t1);
    EndsWithAppend(AddArgs("--env", Entries(f.environment)), tail, tail);
    EndsWithAppend(AddArgs("--volume", Entries(f.volumes)), t3, tail);
    EndsWithAppend(AddArgs("--publish", Entries(f.ports)), t2, tail);
    var s3 := Switch(f.remove, "--rm") + t1;
    var s2 := Switch(f.tty, "--tty") + s3;
    var s1 := Switch(f.interactive, "--interactive") + s2;
    EndsWithAppend(Switch(f.remove, "--rm"), t1, tail);
    EndsWithAppend(Switch(f.tty, "--tty"), s3, tail);
    EndsWithAppend(Switch(f.interactive, "--interactive"), s2, tail);
    EndsWithAppend(Switch(f.detach, "--detach"), s1, tail);
    EndsWithAppend(NameArgs(f), sw, tail);
    NameArgs(f) + sw
  }

  predicate EndsWith(s: seq<string>, t: seq<string>) {
    |s| >= |t| && s[|s| - |t|..] == t
  }

  lemma EndsWithAppend(a: seq<string>, b: seq<string>, t: seq<string>)
    requires EndsWith(b, t) || b == t
    ensures EndsWith(a + b, t)
  {
    assert (a + b)[|a + b| - |t|..] == b[|b| - |t|..];
  }

  /** `args` before the final validation: `run`, the options, the trimmed
      image and the command words. */
  function Assemble(f: RunForm): seq<string> {
    ["run"] + OptionsThen(f, [Trim(f.image)] + Words(f.command))
  }

  /** The argument vector `handleSubmit` invokes the tool with; None when a
      blank image stops it first. */
  function RunArgs(f: RunForm): (r: Option<seq<string>>)
    ensures r.None? <==> IsBlank(f.image)
  {
    if IsBlank(f.image) then None else Some(Filter(Assemble(f), NonEmpty))
  }

  /** A run vector: `run` first, no empty string, and `image` right before
      the command words `w`, which end it. */
  predicate Shaped(r: seq<string>, image: string, w: seq<string>) {
    && |r| >= |w| + 2 && r[0] == "run" && (forall k :: 0 <= k < |r| ==> r[k] != [])
    && r[|r| - |w| - 1] == image && r[|r| - |w|..] == w
  }

  /** The vector starts with `run`, holds no empty string, and the trimmed
      image comes right before the command words, which end it. */
  lemma RunArgsShape(f: RunForm)
    requires !IsBlank(f.image)
    ensures Shaped(RunArgs(f).value, Trim(f.image), Words(f.command))
  {
    AssembledShape(f);
    ValidationKeepsAll(f);
  }

  lemma AssembledShape(f: RunForm)
    requires !IsBlank(f.image)
    ensures Shaped(Assemble(f), Trim(f.image), Words(f.command))
  {
    AssembleEnds(f);
    AssembleNonEmpty(f);
    ShapedOf(Assemble(f), Trim(f.image), Words(f.command));
  }

  /** `run` first, then `image` right before the words `w`, which end it. */
  predicate RunEnds(a: seq<string>, image: string, w: seq<string>) {
    |a| >= |w| + 2 && a[0] == "run" && a[|a| - |w| - 1] == image && a[|a| - |w|..] == w
  }

  lemma ShapedOf(a: seq<string>, image: string, w: seq<string>)
    requires AllNonEmpty(a) && RunEnds(a, image, w)
    ensures Shaped(a, image, w)
  {
    assert forall k :: 0 <= k < |a| ==> a[k] in a;
  }

  predicate AllNonEmpty(a: seq<string>) {
    forall x :: x in a ==> x != []
  }

  lemma NonEmptyAppend(a: seq<string>, b: seq<string>)
    requires AllNonEmpty(a) && AllNonEmpty(b)
    ensures AllNonEmpty(a + b)
  {
  }

  /** `run` first, then the options, the image and the command words last. */
  lemma AssembleEnds(f: RunForm)
    ensures RunEnds(Assemble(f), Trim(f.image), Words(f.command))
  {
    var w := Words(f.command);
    var tail := [Trim(f.image)] + w;
    RunThen(OptionsThen(f, tail), Trim(f.image), w);
  }

  lemma RunThen(o: seq<string>, image: string, w: seq<string>)
    requires EndsWith(o, [image] + w)
    ensures RunEnds(["run"] + o, image, w)
  {
    var tail := [image] + w;
    EndsWithAppend(["run"], o, tail);
    var a := ["run"] + o;
    assert a[|a| - |tail|..] == tail;
    assert a[|a| - |w| - 1] == tail[0];
    assert a[|a| - |w|..] == tail[1..];
  }

  /** `OptionsThen`, group by group. */
  lemma OptionsLayout(f: RunForm, tail: seq<string>)
    ensures OptionsThen(f, tail) == NameArgs(f) + SwitchesThen(f, AddArgs("--publish", Entries(f.ports))
      + (AddArgs("--volume", Entries(f.volumes)) + (AddArgs("--env", Entries(f.environment)) + tail)))
  {
  }

  /** The final `filter(arg => arg.length > 0)` removes nothing: every piece
      pushed is already non-empty. */
  lemma ValidationKeepsAll(f: RunForm)
    requires !IsBlank(f.image)
    ensures Filter(Assemble(f), NonEmpty) == Assemble(f)
  {
    AssembleNonEmpty(f);
    KeepNonEmpty(Assemble(f));
  }

  lemma AssembleNonEmpty(f: RunForm)
    requires !IsBlank(f.image)
    ensures AllNonEmpty(Assemble(f))
  {
    var tail := [Trim(f.image)] + Words(f.command);
    assert forall x :: x in tail ==> x != [];
    OptionsNonEmpty(f, tail);
    NonEmptyAppend(["run"], OptionsThen(f, tail));
  }

  lemma KeepNonEmpty(a: seq<string>)
    requires forall x :: x in a ==> x != []
    ensures Filter(a, NonEmpty) == a
  {
    assert forall k :: 0 <= k < |a| ==> a[k] in a;
    FilterAll(a, NonEmpty);
  }

  lemma OptionsNonEmpty(f: RunForm, tail: seq<string>)
    requires forall x :: x in tail ==> x != []
    ensures forall x :: x in OptionsThen(f, tail) ==> x != []
  {
    var ps := Entries(f.ports);
    var vs := Entries(f.volumes);
    var es := Entries(f.environment);
    GroupNonEmpty("--publish", ps);
    GroupNonEmpty("--volume", vs);
    GroupNonEmpty("--env", es);
    var t3 := AddArgs("--env", es) + tail;
    NonEmptyAppend(AddArgs("--env", es), tail);
    var t2 := AddArgs("--volume", vs) + t3;
    NonEmptyAppend(AddArgs("--volume", vs), t3);
    var t1 := AddArgs("--publish", ps) + t2;
    NonEmptyAppend(AddArgs("--publish", ps), t2);
    SwitchesNonEmpty(f, t1);
    assert AllNonEmpty(NameArgs(f));
    NonEmptyAppend(NameArgs(f), SwitchesThen(f, t1));
    OptionsLayout(f, tail);
  }

  lemma GroupNonEmpty(flag: string, values: seq<string>)
    requires flag != []
    requires forall k :: 0 <= k < |values| ==> values[k] != [] && Trim(values[k]) == values[k]
    ensures AllNonEmpty(AddArgs(flag, values))
  {
    AddArgsArePairs(flag, values);
    PairsMembers(flag, values);
  }

  lemma SwitchesNonEmpty(f: RunForm, tail: seq<string>)
    requires AllNonEmpty(tail)
    ensures AllNonEmpty(SwitchesThen(f, tail))
  {
    var t3 := Switch(f.remove, "--rm") + tail;
    NonEmptyAppend(Switch(f.remove, "--rm"), tail);
    var t2 := Switch(f.tty, "--tty") + t3;
    NonEmptyAppend(Switch(f.tty, "--tty"), t3);
    var t1 := Switch(f.interactive, "--interactive") + t2;
    NonEmptyAppend(Switch(f.interactive, "--interactive"), t2);
    NonEmptyAppend(Switch(f.detach, "--detach"), t1);
  }

  // ---------------------------------------------------------------------------
  // Flag and value pairs
  // ---------------------------------------------------------------------------

  /** Each value preceded by the flag. */
  function Pairs(flag: string, values: seq<string>): (r: seq<string>)
    ensures |r| == 2 * |values|
    ensures forall k :: 0 <= k < |values| ==> r[2 * k] == flag && r[2 * k + 1] == values[k]
    decreases |values|
  {
    if |values| == 0 then []
    else
      var rest := Pairs(flag, values[1..]);
      var r := [flag, values[0]] + rest;
      forall k | 1 <= k < |values|
        ensures r[2 * k] == flag && r[2 * k + 1] == values[k]
      {
        assert values[1..][k - 1] == values[k];
        assert r[2 * k] == rest[2 * (k - 1)];
        assert r[2 * k + 1] == rest[2 * (k - 1) + 1];
      }
      r
  }

  lemma {:induction false} PairsMembers(flag: string, values: seq<string>)
    requires flag != [] && forall k :: 0 <= k < |values| ==> values[k] != []
    ensures forall x :: x in Pairs(flag, values) ==> x != []
  {
    var r := Pairs(flag, values);
    forall x | x in r
      ensures x != []
    {
      var i :| 0 <= i < |r| && r[i] == x;
      if i % 2 == 0 {
        assert r[2 * (i / 2)] == flag;
      } else {
        assert r[2 * (i / 2) + 1] == values[i / 2];
      }
    }
  }

  /** `addArg` over entries that are trimmed and non-empty pushes each one
      with its flag: the guard inside `addArg` never fires. */
  lemma {:induction false} AddArgsArePairs(flag: string, values: seq<string>)
    requires forall k :: 0 <= k < |values| ==> values[k] != [] && Trim(values[k]) == values[k]
    ensures AddArgs(flag, values) == Pairs(flag, values)
    decreases |values|
  {
    if |values| > 0 {
      var v := values[0];
      assert !IsBlank(v) by {
        assert IsBlank(v) ==> Trim(v) == [];
      }
      assert forall k :: 0 <= k < |values| - 1 ==> values[1..][k] == values[k + 1];
      AddArgsArePairs(flag, values[1..]);
    }
  }

  // ---------------------------------------------------------------------------
  // Reading an argument vector back
  // ---------------------------------------------------------------------------

  /** What a run request asks for. */
  datatype RunSpec = RunSpec(
    name: Option<string>,
    detach: bool, interactive: bool, tty: bool, remove: bool,
    publish: seq<string>, volumes: seq<string>, env: seq<string>,
    image: string, command: seq<string>)

  /** What the form asks for: a name only when one was typed, the boxes
      ticked, the entries of each comma-separated field, the trimmed image
      and the command words. */
  function Requested(f: RunForm): RunSpec {
    RunSpec(if IsBlank(f.name) then None else Some(Trim(f.name)),
            f.detach, f.interactive, f.tty, f.remove,
            Entries(f.ports), Entries(f.volumes), Entries(f.environment),
            Trim(f.image), Words(f.command))
  }

  const NoOptions: RunSpec := RunSpec(None, false, false, false, false, [], [], [], "", [])

  /** The option words of a run request. */
  predicate IsSwitch(a: string) {
    a == "--detach" || a == "--interactive" || a == "--tty" || a == "--rm"
  }

  predicate TakesValue(a: string) {
    a == "--name" || a == "--publish" || a == "--volume" || a == "--env"
  }

  function SetSwitch(acc: RunSpec, a: string): RunSpec
    requires IsSwitch(a)
  {
    if a == "--detach" then acc.(detach := true)
    else if a == "--interactive" then acc.(interactive := true)
    else if a == "--tty" then acc.(tty := true)
    else acc.(remove := true)
  }

  function AddValue(acc: RunSpec, a: string, v: string): RunSpec
    requires TakesValue(a)
  {
    if a == "--name" then acc.(name := Some(v))
    else if a == "--publish" then acc.(publish := acc.publish + [v])
    else if a == "--volume" then acc.(volumes := acc.volumes + [v])
    else acc.(env := acc.env + [v])
  }

  /** Options are read until the first word that is not one: that word is
      the image and the rest is the command. */
  function ReadOptions(argv: seq<string>, acc: RunSpec): Option<RunSpec>
    decreases |argv|
  {
    if |argv| == 0 then None
    else if IsSwitch(argv[0]) then ReadOptions(argv[1..], SetSwitch(acc, argv[0]))
    else if TakesValue(argv[0]) then
      if |argv| < 2 then None else ReadOptions(argv[2..], AddValue(acc, argv[0], argv[1]))
    else Some(acc.(image := argv[0], command := argv[1..]))
  }

  /** Reads a `run` argument vector. */
  function ParseRunArgs(argv: seq<string>): Option<RunSpec> {
    if |argv| == 0 || argv[0] != "run" then None else ReadOptions(argv[1..], NoOptions)
  }

  /** Every value of a repeated flag, appended in order. */
  function AddValues(acc: RunSpec, a: string, vs: seq<string>): RunSpec
    requires a == "--publish" || a == "--volume" || a == "--env"
  {
    if a == "--publish" then acc.(publish := acc.publish + vs)
    else if a == "--volume" then acc.(volumes := acc.volumes + vs)
    else acc.(env := acc.env + vs)
  }

  lemma {:induction false} ReadPairs(a: string, vs: seq<string>, tail: seq<string>, acc: RunSpec)
    requires a == "--publish" || a == "--volume" || a == "--env"
    ensures ReadOptions(Pairs(a, vs) + tail, acc) == ReadOptions(tail, AddValues(acc, a, vs))
    decreases |vs|
  {
    if |vs| == 0 {
      assert Pairs(a, vs) + tail == tail;
      assert acc.publish + vs == acc.publish && acc.volumes + vs == acc.volumes && acc.env + vs == acc.env;
    } else {
      var rest := Pairs(a, vs[1..]) + tail;
      assert Pairs(a, vs) + tail == [a, vs[0]] + rest;
      assert ([a, vs[0]] + rest)[2..] == rest;
      ReadPairs(a, vs[1..], tail, AddValue(acc, a, vs[0]));
      AddValuesStep(acc, a, vs[0], vs[1..]);
      assert [vs[0]] + vs[1..] == vs;
    }
  }

  lemma AddValuesStep(acc: RunSpec, a: string, v: string, rest: seq<string>)
    requires a == "--publish" || a == "--volume" || a == "--env"
    ensures AddValues(AddValue(acc, a, v), a, rest) == AddValues(acc, a, [v] + rest)
  {
    assert acc.publish + [v] + rest == acc.publish + ([v] + rest);
    assert acc.volumes + [v] + rest == acc.volumes + ([v] + rest);
    assert acc.env + [v] + rest == acc.env + ([v] + rest);
  }

  lemma ReadSwitch(a: string, on: bool, tail: seq<string>, acc: RunSpec)
    requires IsSwitch(a)
    ensures ReadOptions(Switch(on, a) + tail, acc) == ReadOptions(tail, if on then SetSwitch(acc, a) else acc)
  {
    if on {
      assert ([a] + tail)[1..] == tail;
    } else {
      assert [] + tail == tail;
    }
  }

  /** The switches the form ticks, read in order. */
  lemma ReadSwitches(f: RunForm, tail: seq<string>, acc: RunSpec)
    requires !acc.detach && !acc.interactive && !acc.tty && !acc.remove
    ensures ReadOptions(SwitchesThen(f, tail), acc)
         == ReadOptions(tail, acc.(detach := f.detach, interactive := f.interactive, tty := f.tty, remove := f.remove))
  {
    var t3 := Switch(f.remove, "--rm") + tail;
    var t2 := Switch(f.tty, "--tty") + t3;
    var t1 := Switch(f.interactive, "--interactive") + t2;
    var acc1 := if f.detach then SetSwitch(acc, "--detach") else acc;
    ReadSwitch("--detach", f.detach, t1, acc);
    var acc2 := if f.interactive then SetSwitch(acc1, "--interactive") else acc1;
    ReadSwitch("--interactive", f.interactive, t2, acc1);
    var acc3 := if f.tty then SetSwitch(acc2, "--tty") else acc2;
    ReadSwitch("--tty", f.tty, t3, acc2);
    ReadSwitch("--rm", f.remove, tail, acc3);
  }

  /** Reading the vector `handleSubmit` builds gives back what the form asked
      for, as long as the image is not itself one of the option words. */
  lemma RunArgsRoundTrip(f: RunForm)
    requires !IsBlank(f.image)
    requires !IsSwitch(Trim(f.image)) && !TakesValue(Trim(f.image))
    ensures ParseRunArgs(RunArgs(f).value) == Some(Requested(f))
  {
    ValidationKeepsAll(f);
    var q := Requested(f);
    var t4 := [q.image] + q.command;
    var t1 := Pairs("--publish", q.publish) + (Pairs("--volume", q.volumes) + (Pairs("--env", q.env) + t4));
    AddArgsArePairs("--publish", q.publish);
    AddArgsArePairs("--volume", q.volumes);
    AddArgsArePairs("--env", q.env);
    OptionsLayout(f, t4);
    assert RunArgs(f).value[1..] == NameArgs(f) + SwitchesThen(f, t1);
    ReadName(f, SwitchesThen(f, t1));
    ReadBody(f, q.name, q.publish, q.volumes, q.env, q.image, q.command);
  }

  /** Everything after the name option reads back in order. */
  lemma ReadBody(f: RunForm, name: Option<string>, ps: seq<string>, vs: seq<string>, es: seq<string>,
                 image: string, words: seq<string>)
    requires !IsSwitch(image) && !TakesValue(image)
    ensures ReadOptions(SwitchesThen(f, Pairs("--publish", ps) + (Pairs("--volume", vs) + (Pairs("--env", es) + ([image] + words)))),
                        NoOptions.(name := name))
         == Some(RunSpec(name, f.detach, f.interactive, f.tty, f.remove, ps, vs, es, image, words))
  {
    var t4 := [image] + words;
    var t3 := Pairs("--env", es) + t4;
    var t2 := Pairs("--volume", vs) + t3;
    var t1 := Pairs("--publish", ps) + t2;
    var acc0 := NoOptions.(name := name);
    ReadSwitches(f, t1, acc0);
    var acc1 := acc0.(detach := f.detach, interactive := f.interactive, tty := f.tty, remove := f.remove);
    ReadPairs("--publish", ps, t2, acc1);
    var acc2 := AddValues(acc1, "--publish", ps);
    ReadPairs("--volume", vs, t3, acc2);
    var acc3 := AddValues(acc2, "--volume", vs);
    ReadPairs("--env", es, t4, acc3);
    assert t4[1..] == words;
    assert [] + ps == ps && [] + vs == vs && [] + es == es;
  }

  /** The name option reads back as the trimmed name, when one was typed. */
  lemma ReadName(f: RunForm, tail: seq<string>)
    ensures ReadOptions(NameArgs(f) + tail, NoOptions) == ReadOptions(tail, NoOptions.(name := Requested(f).name))
  {
    if !IsBlank(f.name) {
      TrimIdempotent(f.name);
      assert NameArgs(f) == ["--name", Trim(f.name)];
      assert (NameArgs(f) + tail)[2..] == tail;
    } else {
      assert NameArgs(f) + tail == tail;
    }
  }

  // ---------------------------------------------------------------------------
  // Submitting
  // ---------------------------------------------------------------------------

  /** `handleSubmit`: a blank image alerts and invokes nothing; otherwise
      the tool runs with `RunArgs(form)` and the form returns to its
      defaults exactly when the run succeeds. */
  function HandleSubmit(form: RunForm, inv: Invocation): (r: Submission<RunForm>)
    ensures r.Aborted? <==> IsBlank(form.image)
    ensures r.Ran? ==> r.argv == RunArgs(form).value && r.result == ResultOf(inv)
    ensures r.Ran? ==> r.form == (if r.result.success then DefaultForm else form)
  {
    Submit(RunArgs(form), "Please specify an image name", inv, form, DefaultForm)
  }
}
