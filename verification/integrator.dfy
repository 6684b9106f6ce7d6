/** The release integrator (scripts/integrate-release.js) as operations on the
    project's files: a map from path to text. A missing key is a file that
    cannot be read; every step that fails to read its file logs the failure
    and leaves the files as they were. */
module Integrator {
  import opened Wrappers
  import opened Text
  import opened Seqs
  import opened Splice
  import opened ReleaseAnalysis
  import opened ReleaseReport
  import opened IntegratorCodegen
  import opened CommandPage
  import opened RoutesIndex
  import opened VersionBump
  import opened ReleaseNotes

  /** The files the integrator reads or writes. */
  datatype Path =
    | UtilsFile        // src/utils/containerUtils.js
    | SidebarFile      // src/components/Sidebar.jsx
    | RoutesIndexFile  // src/routes/index.js
    | PackageFile      // package.json
    | TauriFile        // src-tauri/tauri.conf.json
    | NotesFile        // RELEASE_NOTES.md
    | Page(name: string)               // src/routes/<name>.jsx
    | Backup(tag: string, file: Path)  // backups/pre-<tag>/<file>

  /** The two forms are pages too: a command named `run-container` would
      find its page already there. */
  const RunFormFile: Path := Page("RunContainer")
  const BuildFormFile: Path := Page("BuildImage")

  /** The project-relative path a `Path` stands for. */
  function PathText(p: Path): string {
    match p
    case UtilsFile => "src/utils/containerUtils.js"
    case SidebarFile => "src/components/Sidebar.jsx"
    case RoutesIndexFile => "src/routes/index.js"
    case PackageFile => "package.json"
    case TauriFile => "src-tauri/tauri.conf.json"
    case NotesFile => "RELEASE_NOTES.md"
    case Page(name) => "src/routes/" + name + ".jsx"
    case Backup(tag, file) => "backups/pre-" + tag + "/" + PathText(file)
  }

  /** A project's files and their text; a missing key is a file that cannot
      be read. */
  type Files = map<Path, string>

  /** The file at `p`, if there was one, is still there, unchanged. */
  predicate Keeps(before: Files, after: Files, p: Path) {
    p in before ==> p in after && after[p] == before[p]
  }

  /** The file at `p` is as it was, or still absent. */
  predicate Unchanged(before: Files, after: Files, p: Path) {
    (p in before <==> p in after) && (p in before ==> after[p] == before[p])
  }

  /** Only the paths in `touched` may change or appear; nothing disappears. */
  ghost predicate OnlyTouches(before: Files, after: Files, touched: set<Path>) {
    && (forall k :: k in before ==> k in after)
    && (forall k :: k !in touched ==> Unchanged(before, after, k))
  }

  lemma OnlyTouchesTrans(a: Files, b: Files, c: Files, t1: set<Path>, t2: set<Path>)
    requires OnlyTouches(a, b, t1) && OnlyTouches(b, c, t2)
    ensures OnlyTouches(a, c, t1 + t2)
  {
    forall k | k !in t1 + t2
      ensures Unchanged(a, c, k)
    {
      assert Unchanged(a, b, k) && Unchanged(b, c, k);
    }
  }

  // ---------------------------------------------------------------------------
  // createBackup
  // ---------------------------------------------------------------------------

  const BackupFiles: seq<Path> := [UtilsFile, RunFormFile, BuildFormFile, SidebarFile, PackageFile, TauriFile]

  function BackupPaths(tag: string): set<Path> {
    set k | 0 <= k < |BackupFiles| :: Backup(tag, BackupFiles[k])
  }

  /** `createBackup()`: each file of the list that can be read is copied
      into the backup directory of the release; one that cannot is skipped. */
  method CreateBackup(fs: Files, tag: string) returns (r: Files)
    ensures OnlyTouches(fs, r, BackupPaths(tag))
    ensures forall k :: 0 <= k < |BackupFiles| && BackupFiles[k] in fs ==>
      Backup(tag, BackupFiles[k]) in r && r[Backup(tag, BackupFiles[k])] == fs[BackupFiles[k]]
  {
    r := fs;
    for i := 0 to |BackupFiles|
      invariant forall k :: k in fs ==> k in r
      invariant forall k :: k in r && (k !in fs || r[k] != fs[k]) ==>
        k.Backup? && k.tag == tag && k.file in BackupFiles[..i]
      invariant forall j :: 0 <= j < i && BackupFiles[j] in fs ==>
        Backup(tag, BackupFiles[j]) in r && r[Backup(tag, BackupFiles[j])] == fs[BackupFiles[j]]
    {
      var x := BackupFiles[i];
      if x in r {
        r := r[Backup(tag, x) := r[x]];
      }
    }
    BackupFrame(fs, tag, r);
  }

  lemma BackupFrame(fs: Files, tag: string, r: Files)
    requires forall k :: k in r && (k !in fs || r[k] != fs[k]) ==>
      k.Backup? && k.tag == tag && k.file in BackupFiles[..|BackupFiles|]
    ensures forall k :: k in r && k !in BackupPaths(tag) ==> k in fs && r[k] == fs[k]
  {
    forall k | k in r && (k !in fs || r[k] != fs[k])
      ensures k in BackupPaths(tag)
    {
      var j :| 0 <= j < |BackupFiles| && BackupFiles[j] == k.file;
      assert k == Backup(tag, BackupFiles[j]);
    }
  }

  // ---------------------------------------------------------------------------
  // updateContainerUtils
  // ---------------------------------------------------------------------------

  /** The utilities text after the update, as written: stubs for the
      commands, then the flag validation, each spliced in before the last
      closing brace that a semicolon follows. The two splices amount to one:
      the generated code goes in as a single block there, and nothing changes
      when the file has no such brace. */
  function UtilsTextAsWritten(c: string, cmds: seq<string>, flags: seq<string>, tag: string): (r: string)
    ensures r == InsertBeforeLast(c, "};", UtilsBlock(cmds, flags, tag))
  {
    var x := CommandMappings(cmds);
    var y := FlagValidation(flags, tag);
    var c1 := if |cmds| > 0 then InsertBeforeLast(c, "};", x) else c;
    if |cmds| > 0 && |flags| > 0 then
      InsertBeforeLastTwice(c, "};", x, y);
      InsertBeforeLast(c1, "};", y)
    else if |cmds| > 0 then
      assert x + "" == x;
      c1
    else if |flags| > 0 then
      assert "" + y == y;
      InsertBeforeLast(c1, "};", y)
    else
      InsertNothing(c, "};");
      c1
  }

  /** The commands that are turned into code: those that are `\w` words, so
      that the generated method, page and component names are identifiers. */
  function CodeCommands(cmds: seq<string>): (r: seq<string>)
    ensures forall c :: c in r <==> c in cmds && IsWord(c)
  {
    FilterMembers(cmds, IsWord);
    Filter(cmds, IsWord)
  }

  /** Which integrator the steps follow: the script as written, or with its
      two defects corrected, so that only commands that are words get stubs,
      pages and navigation entries, and a new page is exported on a line of
      its own instead of being appended to the first export list. */
  datatype Variant = AsWritten | Corrected

  /** The commands the integrator generates code for: all of them as written,
      only the words when corrected. */
  function Supported(v: Variant, cmds: seq<string>): seq<string> {
    if v.AsWritten? then cmds else CodeCommands(cmds)
  }

  /** The routes index after registering a page. */
  function IndexUpdate(v: Variant, s: string, page: string): string {
    if v.AsWritten? then UpdateRoutesIndex(s, page) else UpdateRoutesIndexFixed(s, page)
  }

  /** The generated code: the stubs, if there are commands, followed by the
      flag validation, if there are flags. */
  function UtilsBlock(cmds: seq<string>, flags: seq<string>, tag: string): string {
    (if |cmds| > 0 then CommandMappings(cmds) else "") + (if |flags| > 0 then FlagValidation(flags, tag) else "")
  }

  /** Text without a closing brace in it, such as a method name, survives the
      update. */
  lemma UtilsTextKeeps(c: string, cmds: seq<string>, flags: seq<string>, tag: string, m: string)
    requires Contains(c, m) && CloseBrace !in m
    ensures Contains(UtilsTextAsWritten(c, cmds, flags, tag), m)
  {
    InsertBeforeLastKeeps(c, "};", UtilsBlock(cmds, flags, tag), m);
  }

  /** When the file has a closing brace that a semicolon follows, every
      command gets its stub. */
  lemma StubPresent(c: string, cmds: seq<string>, flags: seq<string>, tag: string, k: int)
    requires Contains(c, "};") && 0 <= k < |cmds|
    ensures Contains(UtilsTextAsWritten(c, cmds, flags, tag), StubHeader(cmds[k]))
  {
    StubInBlock(cmds, flags, tag, k);
    InsertedSnippetPresent(c, "};", UtilsBlock(cmds, flags, tag), StubHeader(cmds[k]));
  }

  lemma StubInBlock(cmds: seq<string>, flags: seq<string>, tag: string, k: int)
    requires 0 <= k < |cmds|
    ensures Contains(UtilsBlock(cmds, flags, tag), StubHeader(cmds[k]))
  {
    StubForEveryCommand(cmds, k);
    var x := CommandMappings(cmds);
    var y := if |flags| > 0 then FlagValidation(flags, tag) else "";
    ContainsPrefix(x, y);
    ContainsTrans(x + y, x, StubHeader(cmds[k]));
  }

  /** When the file has a closing brace that a semicolon follows, every
      command that is a word gets its stub, and every generated method name is
      an identifier. */
  lemma UtilsTextHasStubs(c: string, cmds: seq<string>, flags: seq<string>, tag: string, k: int)
    requires Contains(c, "};") && 0 <= k < |cmds| && IsWord(cmds[k])
    ensures Contains(UtilsTextAsWritten(c, Supported(Corrected, cmds), flags, tag), StubHeader(cmds[k]))
    ensures IsWord(StubName(cmds[k]))
  {
    var cc := CodeCommands(cmds);
    assert cmds[k] in cc;
    var j :| 0 <= j < |cc| && cc[j] == cmds[k];
    StubPresent(c, cc, flags, tag, j);
    StubNameIsWord(cmds[k]);
  }

  lemma StubNameIsWord(cmd: string)
    requires IsWord(cmd)
    ensures IsWord(StubName(cmd))
  {
    var r := StubName(cmd);
    forall i | 0 <= i < |r|
      ensures IsWordChar(r[i])
    {
      if i < 7 {
        assert r[i] == "execute"[i];
      } else if i == 7 {
        assert IsWordChar(cmd[0]);
      } else {
        assert r[i] == r[8..][i - 8] == cmd[1..][i - 8];
      }
    }
  }

  /** As written, a release whose notes mention a new command puts the
      placeholder among the commands, and its stub declares a method whose
      name is not an identifier. */
  lemma SentinelStubIsNotAnIdentifier(c: string, cmds: seq<string>, flags: seq<string>, tag: string)
    requires Contains(c, "};") && NewCommandSentinel in cmds
    ensures Contains(UtilsTextAsWritten(c, cmds, flags, tag), StubHeader(NewCommandSentinel))
    ensures !IsWord(StubName(NewCommandSentinel))
  {
    var k :| 0 <= k < |cmds| && cmds[k] == NewCommandSentinel;
    StubPresent(c, cmds, flags, tag, k);
    SentinelStubName();
  }

  lemma SentinelStubName()
    ensures !IsWord(StubName(NewCommandSentinel))
  {
    var name := StubName(NewCommandSentinel);
    assert name[8..][2] == NewCommandSentinel[1..][2];
    assert name[10] == '-';
  }


  /** `updateContainerUtils()`: as written, a stub for every command of the
      analysis, the placeholder included; corrected, for the commands that are
      words. */
  method UpdateContainerUtils(v: Variant, fs: Files, a: Analysis, tag: string) returns (r: Files)
    ensures OnlyTouches(fs, r, {UtilsFile})
    ensures UtilsFile in fs ==>
      r[UtilsFile] == UtilsTextAsWritten(fs[UtilsFile], Supported(v, a.commands), a.flags, tag)
  {
    r := fs;
    if UtilsFile in fs {
      r := fs[UtilsFile := UtilsTextAsWritten(fs[UtilsFile], Supported(v, a.commands), a.flags, tag)];
    }
  }

  // ---------------------------------------------------------------------------
  // updateUIComponents
  // ---------------------------------------------------------------------------

  /** `updateRunContainerForm()`: an input per flag before the submit button. */
  method UpdateRunContainerForm(fs: Files, flags: seq<string>, tag: string) returns (r: Files)
    ensures OnlyTouches(fs, r, {RunFormFile})
    ensures RunFormFile in fs ==>
      r[RunFormFile] == InsertBeforeFirstMatch(SubmitButton, fs[RunFormFile], FieldBlocks(RunForm, flags, tag) + "\n\n        ")
  {
    r := fs;
    if RunFormFile in fs {
      r := fs[RunFormFile := InsertBeforeFirstMatch(SubmitButton, fs[RunFormFile], FieldBlocks(RunForm, flags, tag) + "\n\n        ")];
    }
  }

  /** `updateBuildImageForm()`: an input per build flag before the build
      button; the file is left alone when no flag is a build flag. */
  method UpdateBuildImageForm(fs: Files, flags: seq<string>, tag: string) returns (r: Files)
    ensures OnlyTouches(fs, r, {BuildFormFile})
    ensures BuildFlags(flags) == [] ==> r == fs
    ensures BuildFormFile in fs && BuildFlags(flags) != [] ==>
      r[BuildFormFile] == InsertBeforeFirstMatch(BuildButton, fs[BuildFormFile], FieldBlocks(BuildForm, BuildFlags(flags), tag) + "\n\n          ")
  {
    r := fs;
    var b := BuildFlags(flags);
    if b != [] && BuildFormFile in fs {
      r := fs[BuildFormFile := InsertBeforeFirstMatch(BuildButton, fs[BuildFormFile], FieldBlocks(BuildForm, b, tag) + "\n\n          ")];
    }
  }

  /** `createCommandPage(command)`: an existing page is kept and the index is
      left alone; otherwise the page is written and registered in the index:
      as written, by the regular-expression rewrite of the first export list;
      corrected, by an export line of its own. */
  method CreateCommandPage(v: Variant, fs: Files, cmd: string, tag: string) returns (r: Files)
    ensures OnlyTouches(fs, r, {Page(PageName(cmd)), RoutesIndexFile})
    ensures forall p :: p != RoutesIndexFile ==> Keeps(fs, r, p)
    ensures Page(PageName(cmd)) in r
    ensures Page(PageName(cmd)) in fs ==> r == fs
    ensures Page(PageName(cmd)) !in fs ==> r[Page(PageName(cmd))] == PageTemplate(cmd, PageName(cmd), tag)
    ensures Page(PageName(cmd)) !in fs && RoutesIndexFile in fs ==>
      r[RoutesIndexFile] == IndexUpdate(v, fs[RoutesIndexFile], PageName(cmd))
  {
    var name := PageName(cmd);
    r := fs;
    if Page(name) !in fs {
      r := r[Page(name) := PageTemplate(cmd, name, tag)];
      if RoutesIndexFile in r {
        r := r[RoutesIndexFile := IndexUpdate(v, r[RoutesIndexFile], name)];
      }
    }
  }

  /** `updateSidebar(command)`: the navigation entry before the last `</nav>`. */
  method UpdateSidebar(fs: Files, cmd: string) returns (r: Files)
    ensures OnlyTouches(fs, r, {SidebarFile})
    ensures SidebarFile in fs ==>
      r[SidebarFile] == InsertBeforeLast(fs[SidebarFile], "</nav>", NavItem(cmd) + "\n      ")
  {
    r := fs;
    if SidebarFile in fs {
      r := fs[SidebarFile := InsertBeforeLast(fs[SidebarFile], "</nav>", NavItem(cmd) + "\n      ")];
    }
  }

  /** The paths a list of commands may create pages at. */
  function PagePaths(cmds: seq<string>): set<Path> {
    set k | 0 <= k < |cmds| :: Page(PageName(cmds[k]))
  }

  /** What `addNewCommandSupport()` does for one command: a page when it is
      page-worthy, a navigation entry when it is a major command. */
  method SupportCommand(v: Variant, fs: Files, cmd: string, tag: string) returns (r: Files)
    ensures OnlyTouches(fs, r, {Page(PageName(cmd)), RoutesIndexFile, SidebarFile})
    ensures forall p :: p != RoutesIndexFile && p != SidebarFile ==> Keeps(fs, r, p)
    ensures NeedsUIPage(cmd) ==> Page(PageName(cmd)) in r
    ensures !NeedsUIPage(cmd) && !IsMajorCommand(cmd) ==> r == fs
  {
    var f := fs;
    if NeedsUIPage(cmd) {
      f := CreateCommandPage(v, fs, cmd, tag);
    }
    r := f;
    if IsMajorCommand(cmd) {
      r := UpdateSidebar(f, cmd);
    }
    OnlyTouchesTrans(fs, f, r, {Page(PageName(cmd)), RoutesIndexFile}, {SidebarFile});
    forall p | p != RoutesIndexFile && p != SidebarFile
      ensures Keeps(fs, r, p)
    {
      assert Keeps(fs, f, p) && Unchanged(f, r, p);
    }
  }

  /** `addNewCommandSupport()`: the commands in order. No file other than
      the routes index and the sidebar is overwritten, so an existing page is
      never replaced, and every page-worthy command ends up with a page. */
  method AddNewCommandSupport(v: Variant, fs: Files, cmds: seq<string>, tag: string) returns (r: Files)
    ensures OnlyTouches(fs, r, PagePaths(cmds) + {RoutesIndexFile, SidebarFile})
    ensures forall p :: p != RoutesIndexFile && p != SidebarFile ==> Keeps(fs, r, p)
    ensures forall k :: 0 <= k < |cmds| && NeedsUIPage(cmds[k]) ==> Page(PageName(cmds[k])) in r
  {
    r := fs;
    for i := 0 to |cmds|
      invariant OnlyTouches(fs, r, PagePaths(cmds[..i]) + {RoutesIndexFile, SidebarFile})
      invariant forall p :: p != RoutesIndexFile && p != SidebarFile ==> Keeps(fs, r, p)
      invariant forall k :: 0 <= k < i && NeedsUIPage(cmds[k]) ==> Page(PageName(cmds[k])) in r
    {
      var f := r;
      r := SupportCommand(v, f, cmds[i], tag);
      assert cmds[..i + 1] == cmds[..i] + [cmds[i]];
      SupportFoldStep(fs, f, r, cmds[..i], cmds[i]);
    }
    assert cmds[..|cmds|] == cmds;
  }

  /** One step of `AddNewCommandSupport`'s loop, from the contracts of the
      steps so far and of the next command's step. */
  lemma SupportFoldStep(fs: Files, f: Files, r: Files, prev: seq<string>, last: string)
    requires OnlyTouches(fs, f, PagePaths(prev) + {RoutesIndexFile, SidebarFile})
    requires forall p :: p != RoutesIndexFile && p != SidebarFile ==> Keeps(fs, f, p)
    requires forall k :: 0 <= k < |prev| && NeedsUIPage(prev[k]) ==> Page(PageName(prev[k])) in f
    requires OnlyTouches(f, r, {Page(PageName(last)), RoutesIndexFile, SidebarFile})
    requires forall p :: p != RoutesIndexFile && p != SidebarFile ==> Keeps(f, r, p)
    requires NeedsUIPage(last) ==> Page(PageName(last)) in r
    ensures OnlyTouches(fs, r, PagePaths(prev + [last]) + {RoutesIndexFile, SidebarFile})
    ensures forall p :: p != RoutesIndexFile && p != SidebarFile ==> Keeps(fs, r, p)
    ensures forall k :: 0 <= k < |prev| + 1 && NeedsUIPage((prev + [last])[k]) ==>
      Page(PageName((prev + [last])[k])) in r
  {
    var cmds := prev + [last];
    PagePathsGrow(prev, last);
    OnlyTouchesTrans(fs, f, r, PagePaths(prev) + {RoutesIndexFile, SidebarFile},
                     {Page(PageName(last)), RoutesIndexFile, SidebarFile});
    forall p | p != RoutesIndexFile && p != SidebarFile
      ensures Keeps(fs, r, p)
    {
      assert Keeps(fs, f, p) && Keeps(f, r, p);
    }
    forall k | 0 <= k < |cmds| && NeedsUIPage(cmds[k])
      ensures Page(PageName(cmds[k])) in r
    {
      if k < |prev| {
        assert cmds[k] == prev[k];
        assert Page(PageName(prev[k])) in f;
      }
    }
  }

  lemma PagePathsGrow(prev: seq<string>, last: string)
    ensures PagePaths(prev + [last]) == PagePaths(prev) + {Page(PageName(last))}
  {
    var cmds := prev + [last];
    forall p | p in PagePaths(prev)
      ensures p in PagePaths(cmds)
    {
      var k :| 0 <= k < |prev| && p == Page(PageName(prev[k]));
      assert cmds[k] == prev[k];
    }
    assert cmds[|prev|] == last;
  }

  /** The files the form and navigation updates may rewrite. */
  const UIFiles: set<Path> := {RunFormFile, BuildFormFile, RoutesIndexFile, SidebarFile}

  /** `updateUIComponents()`: the forms when there are new flags, pages and
      navigation when there are new commands; as written, every command of
      the analysis is considered. */
  method UpdateUIComponents(v: Variant, fs: Files, a: Analysis, tag: string) returns (r: Files)
    ensures OnlyTouches(fs, r, UIFiles + PagePaths(Supported(v, a.commands)))
    ensures forall p :: p !in UIFiles ==> Keeps(fs, r, p)
    ensures forall k :: 0 <= k < |Supported(v, a.commands)| && NeedsUIPage(Supported(v, a.commands)[k]) ==>
      Page(PageName(Supported(v, a.commands)[k])) in r
  {
    var f := fs;
    if |a.flags| > 0 {
      var g := UpdateRunContainerForm(fs, a.flags, tag);
      f := UpdateBuildImageForm(g, a.flags, tag);
      OnlyTouchesTrans(fs, g, f, {RunFormFile}, {BuildFormFile});
    }
    var cmds := Supported(v, a.commands);
    r := f;
    if |a.commands| > 0 {
      r := AddNewCommandSupport(v, f, cmds, tag);
    }
    UIStep(fs, f, r, cmds, |a.commands| > 0);
  }

  /** `UpdateUIComponents` from the contracts of its two parts; without
      commands there is nothing to support. */
  lemma UIStep(fs: Files, f: Files, r: Files, cmds: seq<string>, any: bool)
    requires OnlyTouches(fs, f, {RunFormFile, BuildFormFile})
    requires !any ==> r == f && cmds == []
    requires any ==> OnlyTouches(f, r, PagePaths(cmds) + {RoutesIndexFile, SidebarFile})
    requires any ==> forall p :: p != RoutesIndexFile && p != SidebarFile ==> Keeps(f, r, p)
    requires any ==> forall k :: 0 <= k < |cmds| && NeedsUIPage(cmds[k]) ==> Page(PageName(cmds[k])) in r
    ensures OnlyTouches(fs, r, UIFiles + PagePaths(cmds))
    ensures forall p :: p !in UIFiles ==> Keeps(fs, r, p)
    ensures forall k :: 0 <= k < |cmds| && NeedsUIPage(cmds[k]) ==> Page(PageName(cmds[k])) in r
  {
    if any {
      OnlyTouchesTrans(fs, f, r, {RunFormFile, BuildFormFile}, PagePaths(cmds) + {RoutesIndexFile, SidebarFile});
      assert {RunFormFile, BuildFormFile} + (PagePaths(cmds) + {RoutesIndexFile, SidebarFile})
             == UIFiles + PagePaths(cmds);
      forall p | p !in UIFiles
        ensures Keeps(fs, r, p)
      {
        assert Unchanged(fs, f, p) && Keeps(f, r, p);
      }
    } else {
      forall p | p !in UIFiles
        ensures Keeps(fs, r, p)
      {
        assert Unchanged(fs, f, p);
      }
    }
  }

  // ---------------------------------------------------------------------------
  // updateVersionInfo
  // ---------------------------------------------------------------------------

  /** The fields of package.json the update reads and writes; `version` is
      `None` when it is missing or not a string, and `others` stands for the
      remaining members, which the update passes through. */
  datatype Package = Package(version: Option<string>, description: Option<string>, others: string)

  /** The fields of tauri.conf.json the update reads and writes; `bundle` is
      `None` when there is no bundle object. */
  datatype TauriConfig = TauriConfig(version: Option<string>, bundle: Option<Bundle>, others: string)
  datatype Bundle = Bundle(longDescription: Option<string>, others: string)

  /** `JSON.parse` (failing on malformed text) and `JSON.stringify(data, null, 2)`
      for the two files. */
  datatype JsonCodec = JsonCodec(
    parsePackage: string -> Option<Package>,
    printPackage: Package -> string,
    parseTauri: string -> Option<TauriConfig>,
    printTauri: TauriConfig -> string)

  function PackageDescription(tag: string): string {
    "Modern GUI for Apple Container CLI (supports " + tag + ")"
  }

  const LongDescriptionHead: string :=
    "A modern, intuitive desktop application for managing Apple's container CLI with comprehensive support for "
  const LongDescriptionTail: string :=
    " features. Includes container lifecycle management, Docker Hub integration, real-time image discovery,"
    + " one-click pulls, persistent state management, real-time logs, and system control."

  function LongDescription(tag: string): string {
    LongDescriptionHead + tag + LongDescriptionTail
  }

  /** The new package.json text, or `None` when reading the version throws
      (malformed JSON, or a version that is missing or not a string). */
  function NewPackageText(text: string, tag: string, json: JsonCodec): Option<string> {
    match json.parsePackage(text)
    case None => None
    case Some(p) =>
      match p.version
      case None => None
      case Some(v) => Some(json.printPackage(Package(Some(BumpVersion(v)), Some(PackageDescription(tag)), p.others)))
  }

  /** The new tauri.conf.json text, or `None` when the update throws; without
      a bundle object the assignment to its long description throws. */
  function NewTauriText(text: string, tag: string, json: JsonCodec): Option<string> {
    match json.parseTauri(text)
    case None => None
    case Some(t) =>
      if t.version.None? || t.bundle.None? then None
      else
        Some(json.printTauri(TauriConfig(Some(BumpVersion(t.version.value)),
                                         Some(Bundle(Some(LongDescription(tag)), t.bundle.value.others)),
                                         t.others)))
  }

  /** `updateVersionInfo()`: package.json, then tauri.conf.json, each on its
      own; a file that cannot be read, or whose update throws, is left alone. */
  method UpdateVersionInfo(fs: Files, tag: string, json: JsonCodec) returns (r: Files)
    ensures OnlyTouches(fs, r, {PackageFile, TauriFile})
    ensures PackageFile in fs ==> r[PackageFile] == NewPackageText(fs[PackageFile], tag, json).GetOr(fs[PackageFile])
    ensures TauriFile in fs ==> r[TauriFile] == NewTauriText(fs[TauriFile], tag, json).GetOr(fs[TauriFile])
  {
    r := fs;
    if PackageFile in fs {
      var text := NewPackageText(fs[PackageFile], tag, json);
      if text.Some? {
        r := r[PackageFile := text.value];
      }
    }
    if TauriFile in fs {
      var text := NewTauriText(fs[TauriFile], tag, json);
      if text.Some? {
        r := r[TauriFile := text.value];
      }
    }
  }

  /** A conforming version is written back bumped: the same major and minor
      numbers, the patch number one higher, and still conforming. */
  lemma PackageVersionBumped(text: string, tag: string, json: JsonCodec)
    requires json.parsePackage(text).Some?
    requires var p := json.parsePackage(text).value; p.version.Some? && IsSemVer(p.version.value)
    ensures var p := json.parsePackage(text).value;
      var v := p.version.value;
      && NewPackageText(text, tag, json)
         == Some(json.printPackage(Package(Some(BumpVersion(v)), Some(PackageDescription(tag)), p.others)))
      && IsSemVer(BumpVersion(v)) && Major(BumpVersion(v)) == Major(v) && Minor(BumpVersion(v)) == Minor(v)
      && Patch(BumpVersion(v)) == Patch(v) + 1
  {
    BumpKeepsSemVer(json.parsePackage(text).value.version.value);
  }

  /** The same for tauri.conf.json, whose long description names the release. */
  lemma TauriVersionBumped(text: string, tag: string, json: JsonCodec)
    requires json.parseTauri(text).Some?
    requires var t := json.parseTauri(text).value; t.version.Some? && t.bundle.Some? && IsSemVer(t.version.value)
    ensures var t := json.parseTauri(text).value;
      var v := t.version.value;
      && NewTauriText(text, tag, json)
         == Some(json.printTauri(TauriConfig(Some(BumpVersion(v)),
                                             Some(Bundle(Some(LongDescription(tag)), t.bundle.value.others)),
                                             t.others)))
      && IsSemVer(BumpVersion(v)) && Major(BumpVersion(v)) == Major(v) && Minor(BumpVersion(v)) == Minor(v)
      && Patch(BumpVersion(v)) == Patch(v) + 1
  {
    BumpKeepsSemVer(json.parseTauri(text).value.version.value);
  }

  // ---------------------------------------------------------------------------
  // integrate
  // ---------------------------------------------------------------------------

  /** `generateReleaseNotes()`: RELEASE_NOTES.md is (over)written. */
  method WriteReleaseNotes(fs: Files, rep: Report, now: string) returns (r: Files)
    ensures OnlyTouches(fs, r, {NotesFile})
    ensures NotesFile in r && r[NotesFile] == GenerateReleaseNotes(rep, now)
  {
    r := fs[NotesFile := GenerateReleaseNotes(rep, now)];
  }

  /** The files afterwards, and whether the test run (an outside process
      whose verdict is a parameter) passed. */
  datatype Outcome = Outcome(files: Files, testsPassed: bool)

  /** Every path the integration may write: the backups, the utilities, the
      UI files and new pages, the two version files and the release notes. */
  function Touched(v: Variant, rep: Report): set<Path> {
    BackupPaths(rep.release.tag) + {UtilsFile} + (UIFiles + PagePaths(Supported(v, rep.analysis.commands)))
    + {PackageFile, TauriFile} + {NotesFile}
  }

  /** `integrate()`: backup, utilities, UI, version, release notes, then the
      test run; `AsWritten` is the script itself. */
  method Integrate(v: Variant, fs: Files, rep: Report, now: string, json: JsonCodec, testsPass: bool) returns (o: Outcome)
    ensures o.testsPassed == testsPass
    // nothing outside the backups, the fixed targets and the new pages changes
    ensures OnlyTouches(fs, o.files, Touched(v, rep))
    // the backups hold the files as they were before
    ensures forall k :: 0 <= k < |BackupFiles| && BackupFiles[k] in fs ==>
      Backup(rep.release.tag, BackupFiles[k]) in o.files
      && o.files[Backup(rep.release.tag, BackupFiles[k])] == fs[BackupFiles[k]]
    // the utilities get the generated code
    ensures UtilsFile in fs ==>
      o.files[UtilsFile]
      == UtilsTextAsWritten(fs[UtilsFile], Supported(v, rep.analysis.commands), rep.analysis.flags, rep.release.tag)
    // an existing page other than the two forms is never overwritten, and
    // every page-worthy command has a page
    ensures forall p: Path :: p.Page? && p !in UIFiles ==> Keeps(fs, o.files, p)
    ensures forall k :: 0 <= k < |Supported(v, rep.analysis.commands)|
                        && NeedsUIPage(Supported(v, rep.analysis.commands)[k]) ==>
      Page(PageName(Supported(v, rep.analysis.commands)[k])) in o.files
    // the versions are bumped and the release notes written
    ensures PackageFile in fs ==>
      o.files[PackageFile] == NewPackageText(fs[PackageFile], rep.release.tag, json).GetOr(fs[PackageFile])
    ensures TauriFile in fs ==>
      o.files[TauriFile] == NewTauriText(fs[TauriFile], rep.release.tag, json).GetOr(fs[TauriFile])
    ensures NotesFile in o.files && o.files[NotesFile] == GenerateReleaseNotes(rep, now)
  {
    var tag := rep.release.tag;
    var f1 := CreateBackup(fs, tag);
    var f2 := UpdateContainerUtils(v, f1, rep.analysis, tag);
    var f3 := UpdateUIComponents(v, f2, rep.analysis, tag);
    var f4 := UpdateVersionInfo(f3, tag, json);
    var f5 := WriteReleaseNotes(f4, rep, now);
    IntegrateFrame(fs, f1, f2, f3, f4, f5, BackupPaths(tag), UIFiles + PagePaths(Supported(v, rep.analysis.commands)));
    IntegrateKeeps(fs, f1, f2, f3, f4, f5, rep);
    BackupsSurvive(fs, f1, f5, tag);
    o := Outcome(f5, testsPass);
  }

  /** The frame of `Integrate`, from the frames of its steps. */
  lemma IntegrateFrame(fs: Files, f1: Files, f2: Files, f3: Files, f4: Files, f5: Files,
                       backups: set<Path>, ui: set<Path>)
    requires OnlyTouches(fs, f1, backups)
    requires OnlyTouches(f1, f2, {UtilsFile})
    requires OnlyTouches(f2, f3, ui)
    requires OnlyTouches(f3, f4, {PackageFile, TauriFile})
    requires OnlyTouches(f4, f5, {NotesFile})
    ensures OnlyTouches(fs, f5, backups + {UtilsFile} + ui + {PackageFile, TauriFile} + {NotesFile})
  {
    OnlyTouchesTrans(fs, f1, f2, backups, {UtilsFile});
    OnlyTouchesTrans(fs, f2, f3, backups + {UtilsFile}, ui);
    OnlyTouchesTrans(fs, f3, f4, backups + {UtilsFile} + ui, {PackageFile, TauriFile});
    OnlyTouchesTrans(fs, f4, f5, backups + {UtilsFile} + ui + {PackageFile, TauriFile}, {NotesFile});
  }

  lemma BackupsSurvive(fs: Files, f1: Files, f5: Files, tag: string)
    requires forall k :: 0 <= k < |BackupFiles| && BackupFiles[k] in fs ==>
      Backup(tag, BackupFiles[k]) in f1 && f1[Backup(tag, BackupFiles[k])] == fs[BackupFiles[k]]
    requires forall p: Path :: p.Backup? ==> Keeps(f1, f5, p)
    ensures forall k :: 0 <= k < |BackupFiles| && BackupFiles[k] in fs ==>
      Backup(tag, BackupFiles[k]) in f5 && f5[Backup(tag, BackupFiles[k])] == fs[BackupFiles[k]]
  {
    forall k | 0 <= k < |BackupFiles| && BackupFiles[k] in fs
      ensures Backup(tag, BackupFiles[k]) in f5 && f5[Backup(tag, BackupFiles[k])] == fs[BackupFiles[k]]
    {
      assert Keeps(f1, f5, Backup(tag, BackupFiles[k]));
    }
  }

  /** What `Integrate` keeps: the backups once made, the pages other than
      the forms, and each fixed file between the steps that write it. */
  lemma IntegrateKeeps(fs: Files, f1: Files, f2: Files, f3: Files, f4: Files, f5: Files, rep: Report)
    requires OnlyTouches(fs, f1, BackupPaths(rep.release.tag))
    requires OnlyTouches(f1, f2, {UtilsFile})
    requires forall p :: p !in UIFiles ==> Keeps(f2, f3, p)
    requires OnlyTouches(f3, f4, {PackageFile, TauriFile})
    requires OnlyTouches(f4, f5, {NotesFile})
    ensures forall p: Path :: p.Backup? ==> Keeps(f1, f5, p)
    ensures forall p: Path :: p.Page? && p !in UIFiles ==> Keeps(fs, f5, p)
    ensures Unchanged(fs, f1, UtilsFile) && Keeps(f2, f5, UtilsFile)
    ensures Keeps(fs, f3, PackageFile) && Unchanged(f4, f5, PackageFile)
    ensures Keeps(fs, f3, TauriFile) && Unchanged(f4, f5, TauriFile)
  {
    forall p: Path | p.Backup?
      ensures Keeps(f1, f5, p)
    {
      assert Unchanged(f1, f2, p) && Keeps(f2, f3, p) && Unchanged(f3, f4, p) && Unchanged(f4, f5, p);
    }
    forall p: Path | p.Page? && p !in UIFiles
      ensures Keeps(fs, f5, p)
    {
      assert Unchanged(fs, f1, p) && Unchanged(f1, f2, p) && Keeps(f2, f3, p);
      assert Unchanged(f3, f4, p) && Unchanged(f4, f5, p);
    }
    assert Keeps(f2, f3, UtilsFile) && Unchanged(f3, f4, UtilsFile) && Unchanged(f4, f5, UtilsFile);
    assert Unchanged(fs, f1, PackageFile) && Unchanged(f1, f2, PackageFile) && Keeps(f2, f3, PackageFile);
    assert Unchanged(fs, f1, TauriFile) && Unchanged(f1, f2, TauriFile) && Keeps(f2, f3, TauriFile);
  }
}
