/** The text the release integrator (scripts/integrate-release.js) generates
    from an analysis: command stubs and flag validation for the CLI utilities,
    form fields for new flags, and the naming rules for pages and navigation. */
module IntegratorCodegen {
  import opened Wrappers
  import opened Text
  import opened Seqs

  // ---------------------------------------------------------------------------
  // Command stubs and flag validation (updateContainerUtils)
  // ---------------------------------------------------------------------------

  /** The method a command's stub defines: `execute` and the command with its
      first character upper-cased. */
  function StubName(cmd: string): (r: string)
    ensures |r| == 7 + |cmd| && r[..7] == "execute"
    ensures |cmd| > 0 ==> r[7] == ToUpperChar(cmd[0]) && r[8..] == cmd[1..]
  {
    "execute" + Capitalize(cmd)
  }

  /** The header line by which a stub declares its method. */
  function StubHeader(cmd: string): string {
    Fill(["  async ", "(options = {}) {\n"], [StubName(cmd)])
  }

  /** The text of a command's stub around its header line. */
  const StubIntroSegments: seq<string> := ["\n  // Auto-generated support for container ", "\n"]
  const StubBodySegments: seq<string> := [
    "    const args = ['",
    "'];\n"
    + "    \n"
    + "    // Add common flags\n"
    + "    if (options.format) args.push('--format', options.format);\n"
    + "    if (options.all) args.push('--all');\n"
    + "    if (options.verbose) args.push('--verbose');\n"
    + "    \n"
    + "    return await this.executeCommand(args, options);\n"
    + "  },\n"
  ]

  /** The generated method for one command. */
  function CommandStub(cmd: string): (r: string)
    ensures Contains(r, StubHeader(cmd))
  {
    var intro := Fill(StubIntroSegments, [cmd]);
    var body := Fill(StubBodySegments, [cmd]);
    ContainsMiddle(intro, StubHeader(cmd), body);
    intro + StubHeader(cmd) + body
  }

  /** The stubs of all the commands, in command order: every command's
      method header is among them. */
  function CommandMappings(cmds: seq<string>): (r: string)
    ensures forall k :: 0 <= k < |cmds| ==> Contains(r, StubHeader(cmds[k]))
  {
    StubsHoldHeaders(cmds);
    FlatMap(cmds, CommandStub)
  }

  lemma StubsHoldHeaders(cmds: seq<string>)
    ensures forall k :: 0 <= k < |cmds| ==> Contains(FlatMap(cmds, CommandStub), StubHeader(cmds[k]))
  {
    forall k | 0 <= k < |cmds|
      ensures Contains(FlatMap(cmds, CommandStub), StubHeader(cmds[k]))
    {
      FlatMapSplit(cmds, CommandStub, k);
      var stub := CommandStub(cmds[k]);
      ContainsMiddle(FlatMap(cmds[..k], CommandStub), stub, FlatMap(cmds[k + 1..], CommandStub));
      ContainsTrans(FlatMap(cmds, CommandStub), stub, StubHeader(cmds[k]));
    }
  }

  /** Each stub sits between the stubs of the commands before and after it. */
  lemma StubForEveryCommand(cmds: seq<string>, k: int)
    requires 0 <= k < |cmds|
    ensures CommandMappings(cmds)
            == CommandMappings(cmds[..k]) + CommandStub(cmds[k]) + CommandMappings(cmds[k + 1..])
  {
    FlatMapSplit(cmds, CommandStub, k);
  }

  /** One entry of the supported-flags table. */
  function FlagEntry(flag: string): string {
    "'" + flag + "': true"
  }

  /** The text of the generated `validateFlags` method around the release
      tag and the table entries. */
  const FlagValidationSegments: seq<string> := [
    "\n  // Auto-generated flag validation for ",
    "\n"
    + "  validateFlags(command, flags) {\n"
    + "    const supportedFlags = {\n"
    + "      ",
    "\n"
    + "    };\n"
    + "    \n"
    + "    return flags.filter(flag => supportedFlags[flag] || flag.startsWith('--'));\n"
    + "  },\n"
  ]

  /** The generated `validateFlags` method, which names the release and lists
      every new flag as supported. */
  function FlagValidation(flags: seq<string>, tag: string): (r: string)
    ensures Contains(r, tag)
    ensures forall k :: 0 <= k < |flags| ==> Contains(r, FlagEntry(flags[k]))
  {
    var entries := Join(Map(flags, FlagEntry), ",\n      ");
    FlagTableHolds(flags, tag, entries);
    Fill(FlagValidationSegments, [tag, entries])
  }

  lemma FlagTableHolds(flags: seq<string>, tag: string, entries: string)
    requires entries == Join(Map(flags, FlagEntry), ",\n      ")
    ensures Contains(Fill(FlagValidationSegments, [tag, entries]), tag)
    ensures forall k :: 0 <= k < |flags| ==> Contains(Fill(FlagValidationSegments, [tag, entries]), FlagEntry(flags[k]))
  {
    var r := Fill(FlagValidationSegments, [tag, entries]);
    FillTwoHoles(FlagValidationSegments, tag, entries);
    forall k | 0 <= k < |flags|
      ensures Contains(r, FlagEntry(flags[k]))
    {
      JoinContains(Map(flags, FlagEntry), ",\n      ", k);
      ContainsTrans(r, entries, FlagEntry(flags[k]));
    }
  }

  // ---------------------------------------------------------------------------
  // Form fields for new flags (updateRunContainerForm, updateBuildImageForm)
  // ---------------------------------------------------------------------------

  /** `s.replace(p, '')` for a string pattern: the first occurrence removed. */
  function RemoveFirst(s: string, p: string): (r: string)
    ensures !Contains(s, p) ==> r == s
    ensures Contains(s, p) ==> |r| == |s| - |p|
  {
    match IndexOf(s, p)
    case None => s
    case Some(i) => s[..i] + s[i + |p|..]
  }

  /** `s.replace(/-([a-z])/g, g => g[1].toUpperCase())`, scanning left to
      right and resuming after each replaced pair. */
  function CamelCase(s: string): (r: string)
    ensures |r| <= |s|
    ensures (forall i :: 0 <= i < |s| ==> s[i] != '-') ==> r == s
    decreases |s|
  {
    if |s| == 0 then []
    else if |s| >= 2 && s[0] == '-' && IsLower(s[1]) then [ToUpperChar(s[1])] + CamelCase(s[2..])
    else [s[0]] + CamelCase(s[1..])
  }

  /** The form field a flag is bound to: the first `--` dropped, then
      camel-cased. */
  function FieldName(flag: string): string {
    CamelCase(RemoveFirst(flag, "--"))
  }

  /** `s.replace(/-/g, ' ')`. */
  function DashesToSpaces(s: string): (r: string)
    ensures |r| == |s|
    ensures forall i :: 0 <= i < |s| ==> r[i] == (if s[i] == '-' then ' ' else s[i])
  {
    seq(|s|, i requires 0 <= i < |s| => if s[i] == '-' then ' ' else s[i])
  }

  /** `s.slice(n)`. */
  function Slice(s: string, n: nat): string {
    if n <= |s| then s[n..] else ""
  }

  /** `flag.charAt(2).toUpperCase() + flag.slice(3).replace(/-/g, ' ')`. */
  function FieldLabel(flag: string): string {
    (if |flag| > 2 then [ToUpperChar(flag[2])] else "") + DashesToSpaces(Slice(flag, 3))
  }

  /** The two forms that receive fields: their indentation and state names. */
  datatype Form = RunForm | BuildForm

  function Indent(form: Form): string {
    match form
    case RunForm => "          "
    case BuildForm => "            "
  }

  function StateName(form: Form): string {
    match form
    case RunForm => "formData"
    case BuildForm => "buildFormData"
  }

  function SetterName(form: Form): string {
    match form
    case RunForm => "setFormData"
    case BuildForm => "setBuildFormData"
  }

  /** The state binding of a field: `value={<state>.<field> || ''}`. */
  function ValueBinding(form: Form, field: string): string {
    "value={" + StateName(form) + "." + field + " || ''}"
  }

  /** The text of a flag's input before its state binding, around the
      indentation, flag, tag and label. */
  const FieldHeadSegments: seq<string> := [
    "\n",
    "{/* Auto-generated for ",
    " - ",
    " */}\n",
    "<div className=\"space-y-2\">\n",
    "  <label className=\"text-sm font-medium text-gray-700\">\n",
    "    ",
    "\n",
    "  </label>\n",
    "  <input\n",
    "    type=\"text\"\n",
    "    "
  ]

  /** The text of a flag's input after its state binding, around the
      indentation, setter, state and field names and the flag. */
  const FieldTailSegments: seq<string> := [
    "\n",
    "    onChange={(e) => ",
    "({ ...",
    ", ",
    ": e.target.value })}\n",
    "    className=\"w-full px-3 py-2 border border-gray-300 rounded-md focus:ring-2 focus:ring-blue-500\"\n",
    "    placeholder=\"Enter ",
    " value\"\n",
    "  />\n",
    "</div>"
  ]

  /** The generated input for one flag. */
  function FieldBlock(form: Form, flag: string, tag: string): (r: string)
    ensures Contains(r, ValueBinding(form, FieldName(flag)))
  {
    var b := Indent(form);
    var field := FieldName(flag);
    var head := Fill(FieldHeadSegments, [b, flag, tag, b, b, b, FieldLabel(flag), b, b, b, b]);
    var tail := Fill(FieldTailSegments, [b, SetterName(form), StateName(form), field, b, b, Slice(flag, 2), b, b]);
    var v := ValueBinding(form, field);
    ContainsMiddle(head, v, tail);
    head + v + tail
  }

  /** The generated inputs for the flags, one per flag, joined by newlines. */
  function FieldBlocks(form: Form, flags: seq<string>, tag: string): string {
    Join(Map(flags, f => FieldBlock(form, f, tag)), "\n")
  }

  /** The flags the build form takes: those mentioning build, image or tag. */
  predicate IsBuildFlag(flag: string) {
    Contains(flag, "build") || Contains(flag, "image") || Contains(flag, "tag")
  }

  function BuildFlags(flags: seq<string>): (r: seq<string>)
    ensures forall f :: f in r <==> f in flags && IsBuildFlag(f)
  {
    FilterMembers(flags, IsBuildFlag);
    Filter(flags, IsBuildFlag)
  }

  // ---------------------------------------------------------------------------
  // Pages and navigation (addNewCommandSupport and what it calls)
  // ---------------------------------------------------------------------------

  const PageWorthy: seq<string> := ["build", "run", "logs", "images", "system", "registry", "network"]
  const MajorCommands: seq<string> := ["build", "run", "logs", "images", "system", "registry", "network", "volume"]

  /** `needsUIPage`: the lower-cased command contains a page-worthy keyword. */
  predicate NeedsUIPage(cmd: string) {
    exists k :: 0 <= k < |PageWorthy| && Contains(Lower(cmd), PageWorthy[k])
  }

  /** `isMajorCommand`: the lower-cased command is one of the major commands. */
  predicate IsMajorCommand(cmd: string) {
    Lower(cmd) in MajorCommands
  }

  /** Every major command other than `volume` also gets a page; `volume` gets
      a navigation entry but no page. */
  lemma MajorCommandsArePageWorthy(cmd: string)
    ensures IsMajorCommand(cmd) && Lower(cmd) != "volume" ==> NeedsUIPage(cmd)
    ensures Lower(cmd) == "volume" ==> IsMajorCommand(cmd) && !NeedsUIPage(cmd)
  {
    var l := Lower(cmd);
    if IsMajorCommand(cmd) && l != "volume" {
      var k :| 0 <= k < |MajorCommands| && MajorCommands[k] == l;
      assert k < 7 && PageWorthy[k] == l;
      assert OccursAt(l, PageWorthy[k], 0);
    }
    if l == "volume" {
      assert MajorCommands[7] == l;
      forall k | 0 <= k < |PageWorthy|
        ensures !Contains(l, PageWorthy[k])
      {
        forall i | 0 <= i <= |l| - |PageWorthy[k]|
          ensures !OccursAt(l, PageWorthy[k], i)
        {
          assert l[i] != PageWorthy[k][0] || l[i + 1] != PageWorthy[k][1];
        }
      }
    }
  }

  /** The page a command gets: the command with its first character upper-cased. */
  function PageName(cmd: string): (r: string)
    ensures |r| == |cmd|
    ensures |cmd| > 0 ==> r[0] == ToUpperChar(cmd[0]) && r[1..] == cmd[1..]
  {
    Capitalize(cmd)
  }

  function PageFile(cmd: string): string {
    PageName(cmd) + ".jsx"
  }

  /** The text of a navigation entry around its route and label: the link's
      target attribute, its classes and icon, the label's span, and the
      `New` badge. */
  const NavLinkOpen: string := "        <Link\n          "
  const NavLinkMiddle: string :=
    "\n"
    + "          className=\"flex items-center space-x-3 px-4 py-2 rounded-lg hover:bg-gray-100 transition-colors\"\n"
    + "        >\n"
    + "          <span className=\"text-gray-600\">\U{1F527}</span>\n"
    + "          "
  const NavLinkClose: string :=
    "\n"
    + "          <span className=\"ml-auto text-xs bg-green-100 text-green-800 px-2 py-1 rounded\">New</span>\n"
    + "        </Link>"
  const NavItemSegments: seq<string> := [
    NavLinkOpen + "to=\"/",
    "\"" + NavLinkMiddle + "<span>",
    "</span>" + NavLinkClose
  ]

  /** The navigation entry of a major command: a link to its lower-cased
      route, labelled with its page name. */
  function NavItem(cmd: string): (r: string)
    ensures Contains(r, "to=\"/" + Lower(cmd) + "\"")
    ensures Contains(r, "<span>" + PageName(cmd) + "</span>")
  {
    FillTwo(NavItemSegments, Lower(cmd), PageName(cmd));
    FramedHoles(NavLinkOpen, "to=\"/", Lower(cmd), "\"", NavLinkMiddle, "<span>", PageName(cmd), "</span>", NavLinkClose);
    Fill(NavItemSegments, [Lower(cmd), PageName(cmd)])
  }

  /** Whether a command gets a page or a navigation entry does not depend on
      the case it is written in. */
  lemma PageAndNavIgnoreCase(cmd: string)
    ensures NeedsUIPage(Lower(cmd)) <==> NeedsUIPage(cmd)
    ensures IsMajorCommand(Lower(cmd)) <==> IsMajorCommand(cmd)
  {
    LowerIdempotent(cmd);
  }
}
