/** The release-notes analyser of the release monitor (scripts/monitor-releases.js):
    how the body of one GitHub release is read, line by line, into features,
    breaking changes, CLI commands, flags, deprecations and bug fixes. */
module ReleaseAnalysis {
  import opened Wrappers
  import opened Text
  import opened Seqs

  /** The fields of a GitHub release that the monitor reads. A missing or
      `null` body is `None`. */
  datatype Release = Release(
    id: int,
    tagName: string,
    name: string,
    publishedAt: string,
    htmlUrl: string,
    prerelease: bool,
    draft: bool,
    body: Option<string>)

  /** What the analyser extracts from one release. */
  datatype Analysis = Analysis(
    version: string,
    releaseDate: string,
    isPrerelease: bool,
    isDraft: bool,
    features: seq<string>,
    breakingChanges: seq<string>,
    commands: seq<string>,
    flags: seq<string>,
    deprecations: seq<string>,
    bugFixes: seq<string>)

  /** The placeholder command recorded when a line talks about a new command
      without naming it. */
  const NewCommandSentinel: string := "new-command-detected"

  const Sparkles: string := "\U{2728}"
  const PartyPopper: string := "\U{1F389}"
  const Rocket: string := "\U{1F680}"
  const GlowingStar: string := "\U{2B50}"
  const Collision: string := "\U{1F4A5}"
  const WarningSign: string := "\U{26A0}\U{FE0F}"
  const Siren: string := "\U{1F6A8}"
  const Bug: string := "\U{1F41B}"
  const Wrench: string := "\U{1F527}"

  // ---------------------------------------------------------------------------
  // The line classifiers (each is the `some(pattern.test)` of one bucket)
  // ---------------------------------------------------------------------------

  predicate IsColonOrSpace(c: char) { c == ':' || IsSpace(c) }

  /** `p[:\s]` matches at position i of the lower-cased line l. */
  predicate TaggedAt(l: string, p: string, i: int) {
    OccursAt(l, p, i) && i + |p| < |l| && IsColonOrSpace(l[i + |p|])
  }

  /** The case-insensitive pattern `/p[:\s]/i` matches somewhere in t. */
  predicate HasTag(t: string, p: string) {
    exists i :: 0 <= i < |t| && TaggedAt(Lower(t), p, i)
  }

  /** `p.{k}q` matches at position i of l. */
  predicate GapMatchAt(l: string, p: string, q: string, i: int, k: int) {
    0 <= k && OccursAt(l, p, i) && OccursAt(l, q, i + |p| + k) && OnOneLine(l, i + |p|, i + |p| + k)
  }

  /** The case-insensitive pattern `/p.{0,n}q/i` matches somewhere in t. */
  predicate GapMatch(t: string, p: string, n: nat, q: string) {
    exists i, k :: 0 <= i < |t| && 0 <= k <= n && GapMatchAt(Lower(t), p, q, i, k)
  }

  /** The feature patterns: `/(?:new|added|feature|implement|introduce)/i`, four
      emoji, and `/feat(?:ure)?[:\s]/i`. */
  predicate IsFeatureLine(t: string) {
    || ContainsCI(t, "new") || ContainsCI(t, "added") || ContainsCI(t, "feature")
    || ContainsCI(t, "implement") || ContainsCI(t, "introduce")
    || Contains(t, Sparkles) || Contains(t, PartyPopper) || Contains(t, Rocket) || Contains(t, GlowingStar)
    || HasTag(t, "feat") || HasTag(t, "feature")
  }

  /** The breaking-change patterns: `/breaking.{0,10}change/i`, three emoji, and
      `/BREAKING[:\s]/i` together with `/breaking[:\s]/i`, which under the `i`
      flag are one pattern. */
  predicate IsBreakingLine(t: string) {
    || GapMatch(t, "breaking", 10, "change")
    || Contains(t, Collision) || Contains(t, WarningSign) || Contains(t, Siren)
    || HasTag(t, "breaking")
  }

  /** `/deprecat/i`, `/remov/i`, `/discontinu/i`. */
  predicate IsDeprecationLine(t: string) {
    ContainsCI(t, "deprecat") || ContainsCI(t, "remov") || ContainsCI(t, "discontinu")
  }

  /** `/fix/i`, `/bug/i`, two emoji, `/resolve/i`. */
  predicate IsBugFixLine(t: string) {
    || ContainsCI(t, "fix") || ContainsCI(t, "bug")
    || Contains(t, Bug) || Contains(t, Wrench)
    || ContainsCI(t, "resolve")
  }

  /** `/new.{0,20}command/i`: the line announces a command without naming it. */
  predicate MentionsNewCommand(t: string) {
    GapMatch(t, "new", 20, "command")
  }

  // ---------------------------------------------------------------------------
  // The global patterns, scanned as `matchAll` does: a match is looked for at
  // every position from left to right, and after a match the scan resumes where
  // the match ended.
  // ---------------------------------------------------------------------------

  /** The characters s[lo..hi] captured by a group. */
  datatype Span = Span(lo: nat, hi: nat)

  /** The capture of `/container\s+(\w+)/` when a match starts at i. Since `\s`
      and `\w` share no character, the greedy `\s+` never gives anything back,
      and the capture is the whole word run after the spaces. */
  function ContainerWordAt(s: string, i: nat): (r: Option<Span>)
    requires i <= |s|
    ensures r.Some? ==> i < r.value.lo < r.value.hi <= |s| && IsWord(s[r.value.lo..r.value.hi])
  {
    if OccursAt(s, "container", i) && i + 9 < |s| && IsSpace(s[i + 9]) then
      var q := SkipSpaces(s, i + 9);
      if q < |s| && IsWordChar(s[q]) then Some(Span(q, WordEnd(s, q))) else None
    else None
  }

  /** Every capture of `/container\s+(\w+)/g` in s[i..]. */
  function ContainerWordsFrom(s: string, i: nat): (r: seq<string>)
    requires i <= |s|
    ensures forall k :: 0 <= k < |r| ==> IsWord(r[k]) && Contains(s, r[k])
    decreases |s| - i
  {
    if i == |s| then []
    else
      match ContainerWordAt(s, i)
      case Some(sp) =>
        assert OccursAt(s, s[sp.lo..sp.hi], sp.lo);
        [s[sp.lo..sp.hi]] + ContainerWordsFrom(s, sp.hi)
      case None => ContainerWordsFrom(s, i + 1)
  }

  /** The capture of ``/`container\s+([^`]+)`/`` when a match starts at i. The
      group runs to the first backtick b after the keyword; when everything
      before b is whitespace, `\s+` gives back its last character so that the
      group is not empty. */
  function BacktickCommandAt(s: string, i: nat): (r: Option<Span>)
    requires i <= |s|
    ensures r.Some? ==> i < r.value.lo < r.value.hi < |s| && s[r.value.hi] == '`'
    ensures r.Some? ==> forall j :: r.value.lo <= j < r.value.hi ==> s[j] != '`'
  {
    if OccursAt(s, "`container", i) && i + 10 < |s| && IsSpace(s[i + 10]) then
      match IndexOfFrom(s, "`", i + 10)
      case None => None
      case Some(b) =>
        OccursChar(s, '`', b);
        var m := SkipSpaces(s, i + 10);
        var j := if m < b then m else b - 1;
        if i + 10 < j then
          assert forall k :: i + 10 <= k < b ==> !OccursAt(s, "`", k);
          assert forall k :: i + 10 <= k < b ==> s[k] != '`' by {
            forall k | i + 10 <= k < b
              ensures s[k] != '`'
            {
              OccursChar(s, '`', k);
            }
          }
          Some(Span(j, b))
        else None
    else None
  }

  /** Every capture of ``/`container\s+([^`]+)`/g`` in s[i..]. */
  function BacktickCommandsFrom(s: string, i: nat): (r: seq<string>)
    requires i <= |s|
    ensures forall k :: 0 <= k < |r| ==> r[k] != [] && '`' !in r[k] && Contains(s, r[k])
    decreases |s| - i
  {
    if i == |s| then []
    else
      match BacktickCommandAt(s, i)
      case Some(sp) =>
        assert OccursAt(s, s[sp.lo..sp.hi], sp.lo);
        [s[sp.lo..sp.hi]] + BacktickCommandsFrom(s, sp.hi + 1)
      case None => BacktickCommandsFrom(s, i + 1)
  }

  /** The capture of `/--(\w+)/` when a match starts at i. */
  function FlagAt(s: string, i: nat): (r: Option<Span>)
    requires i <= |s|
    ensures r.Some? ==> r.value.lo == i + 2 < r.value.hi <= |s| && IsWord(s[r.value.lo..r.value.hi])
    ensures r.Some? ==> s[i] == '-' && s[i + 1] == '-'
  {
    if i + 2 < |s| && s[i] == '-' && s[i + 1] == '-' && IsWordChar(s[i + 2]) then
      Some(Span(i + 2, WordEnd(s, i + 2)))
    else None
  }

  /** Every capture of `/--(\w+)/g` in s[i..]. */
  function FlagWordsFrom(s: string, i: nat): (r: seq<string>)
    requires i <= |s|
    ensures forall k :: 0 <= k < |r| ==> IsWord(r[k]) && Contains(s, "--" + r[k])
    decreases |s| - i
  {
    if i == |s| then []
    else
      match FlagAt(s, i)
      case Some(sp) =>
        assert s[i..sp.hi] == "--" + s[sp.lo..sp.hi] by {
          assert s[i..sp.hi] == s[i..i + 2] + s[i + 2..sp.hi];
        }
        assert OccursAt(s, "--" + s[sp.lo..sp.hi], i);
        [s[sp.lo..sp.hi]] + FlagWordsFrom(s, sp.hi)
      case None => FlagWordsFrom(s, i + 1)
  }

  /** A flag as the analyser records it: `--` and a word. */
  predicate IsFlag(f: string) {
    |f| > 2 && f[..2] == "--" && IsWord(f[2..])
  }

  /** The commands one trimmed line contributes, in the order they are pushed. */
  function LineCommands(t: string): seq<string> {
    ContainerWordsFrom(t, 0) + BacktickCommandsFrom(t, 0)
    + (if MentionsNewCommand(t) then [NewCommandSentinel] else [])
  }

  /** The flags one trimmed line contributes, in the order they are pushed. */
  function LineFlags(t: string): (r: seq<string>)
    ensures forall k :: 0 <= k < |r| ==> IsFlag(r[k]) && Contains(t, r[k])
  {
    var ws := FlagWordsFrom(t, 0);
    seq(|ws|, k requires 0 <= k < |ws| => "--" + ws[k])
  }

  // ---------------------------------------------------------------------------
  // The analysis
  // ---------------------------------------------------------------------------

  /** `[t]` when t belongs in the bucket, `[]` otherwise. */
  function KeepIf(p: string -> bool, t: string): seq<string> {
    if p(t) then [t] else []
  }

  /** What one line of the body adds: a blank line adds nothing, any other line
      is trimmed and offered to every bucket independently. */
  function ScanLine(a: Analysis, line: string): Analysis {
    var t := Trim(line);
    if t == [] then a
    else
      a.(features := a.features + KeepIf(IsFeatureLine, t),
         breakingChanges := a.breakingChanges + KeepIf(IsBreakingLine, t),
         commands := AddAll(a.commands, LineCommands(t)),
         flags := AddAll(a.flags, LineFlags(t)),
         deprecations := a.deprecations + KeepIf(IsDeprecationLine, t),
         bugFixes := a.bugFixes + KeepIf(IsBugFixLine, t))
  }

  /** The `forEach` over the lines, front to back. */
  function ScanLines(a: Analysis, lines: seq<string>): Analysis
    decreases |lines|
  {
    if |lines| == 0 then a else ScanLine(ScanLines(a, lines[..|lines| - 1]), lines[|lines| - 1])
  }

  /** The trimmed non-blank lines, in order: what the analyser actually reads. */
  function NonBlankLines(lines: seq<string>): (ts: seq<string>)
    ensures forall k :: 0 <= k < |ts| ==> ts[k] != [] && Trim(ts[k]) == ts[k]
    decreases |lines|
  {
    if |lines| == 0 then []
    else
      var t := Trim(lines[|lines| - 1]);
      TrimIdempotent(lines[|lines| - 1]);
      NonBlankLines(lines[..|lines| - 1]) + (if t == [] then [] else [t])
  }

  /** `release.body || ''`. */
  function BodyText(r: Release): string {
    r.body.GetOr("")
  }

  function Lines(body: string): seq<string> {
    Split(body, '\n')
  }

  function EmptyAnalysis(r: Release): Analysis {
    Analysis(r.tagName, r.publishedAt, r.prerelease, r.draft, [], [], [], [], [], [])
  }

  /** `analyzeReleaseNotes(release)`. */
  function AnalyzeReleaseNotes(r: Release): (a: Analysis)
    ensures a.version == r.tagName && a.releaseDate == r.publishedAt
    ensures a.isPrerelease == r.prerelease && a.isDraft == r.draft
  {
    ScanLinesHeader(EmptyAnalysis(r), Lines(BodyText(r)));
    ScanLines(EmptyAnalysis(r), Lines(BodyText(r)))
  }

  lemma {:induction false} ScanLinesHeader(a: Analysis, lines: seq<string>)
    ensures var r := ScanLines(a, lines);
      r.version == a.version && r.releaseDate == a.releaseDate
      && r.isPrerelease == a.isPrerelease && r.isDraft == a.isDraft
    decreases |lines|
  {
    if |lines| > 0 {
      ScanLinesHeader(a, lines[..|lines| - 1]);
    }
  }

  // ---------------------------------------------------------------------------
  // The analysis against its reference definition
  // ---------------------------------------------------------------------------

  /** The four buckets that collect whole lines. */
  datatype LineBucket = Features | BreakingChanges | Deprecations | BugFixes

  function BucketOf(a: Analysis, b: LineBucket): seq<string> {
    match b
    case Features => a.features
    case BreakingChanges => a.breakingChanges
    case Deprecations => a.deprecations
    case BugFixes => a.bugFixes
  }

  function Classifier(b: LineBucket): string -> bool {
    match b
    case Features => IsFeatureLine
    case BreakingChanges => IsBreakingLine
    case Deprecations => IsDeprecationLine
    case BugFixes => IsBugFixLine
  }

  /** One step of the fold adds the trimmed line to a line bucket exactly when
      it is non-blank and matches the bucket's patterns. */
  lemma ScanLineBucket(a: Analysis, line: string, b: LineBucket)
    ensures var t := Trim(line);
      BucketOf(ScanLine(a, line), b) == BucketOf(a, b) + (if t == [] then [] else KeepIf(Classifier(b), t))
  {
  }

  /** Each line bucket of the fold is a filter of the non-blank lines. */
  lemma {:induction false} ScanLinesBucket(a: Analysis, lines: seq<string>, b: LineBucket)
    ensures BucketOf(ScanLines(a, lines), b) == BucketOf(a, b) + Filter(NonBlankLines(lines), Classifier(b))
    decreases |lines|
  {
    if |lines| > 0 {
      var init := lines[..|lines| - 1];
      var last := lines[|lines| - 1];
      ScanLinesBucket(a, init, b);
      ScanLineBucket(ScanLines(a, init), last, b);
      FilterStep(BucketOf(ScanLines(a, init), b), BucketOf(ScanLines(a, lines), b), BucketOf(a, b),
                 NonBlankLines(init), Trim(last), Classifier(b));
    }
  }

  /** The step of `ScanLinesBucket` on the lists alone. */
  lemma FilterStep(before: seq<string>, after: seq<string>, base: seq<string>, ts0: seq<string>, t: string,
                   p: string -> bool)
    requires before == base + Filter(ts0, p)
    requires after == before + (if t == [] then [] else KeepIf(p, t))
    ensures after == base + Filter(ts0 + (if t == [] then [] else [t]), p)
  {
    if t != [] {
      FilterSnoc(ts0, t, p);
    } else {
      assert ts0 + [] == ts0;
    }
  }

  /** One step of the fold pushes the tokens of the trimmed line, unless blank. */
  lemma ScanLineTokens(a: Analysis, line: string)
    ensures var t := Trim(line);
      var r := ScanLine(a, line);
      && r.commands == AddAll(a.commands, if t == [] then [] else LineCommands(t))
      && r.flags == AddAll(a.flags, if t == [] then [] else LineFlags(t))
  {
  }

  /** The commands and flags of the fold are the first occurrences of the tokens
      the non-blank lines contribute. */
  lemma {:induction false} ScanLinesTokens(a: Analysis, lines: seq<string>)
    ensures var ts := NonBlankLines(lines);
      var r := ScanLines(a, lines);
      && r.commands == AddAll(a.commands, FlatMap(ts, LineCommands))
      && r.flags == AddAll(a.flags, FlatMap(ts, LineFlags))
    decreases |lines|
  {
    if |lines| > 0 {
      var init := lines[..|lines| - 1];
      var t := Trim(lines[|lines| - 1]);
      var ts0 := NonBlankLines(init);
      ScanLinesTokens(a, init);
      ScanLineTokens(ScanLines(a, init), lines[|lines| - 1]);
      if t != [] {
        assert NonBlankLines(lines) == ts0 + [t];
        FlatMapSnoc(ts0, t, LineCommands);
        FlatMapSnoc(ts0, t, LineFlags);
        AddAllAppend(a.commands, FlatMap(ts0, LineCommands), LineCommands(t));
        AddAllAppend(a.flags, FlatMap(ts0, LineFlags), LineFlags(t));
      } else {
        assert NonBlankLines(lines) == ts0;
      }
    }
  }

  /** The reference definition of the analysis of a release: each of the four
      line buckets is the non-blank trimmed lines that match its patterns, in
      body order; commands and flags are the tokens of those lines, each kept
      at its first occurrence. */
  lemma AnalysisSpec(r: Release)
    ensures var ts := NonBlankLines(Lines(BodyText(r)));
      var a := AnalyzeReleaseNotes(r);
      && a.features == Filter(ts, IsFeatureLine)
      && a.breakingChanges == Filter(ts, IsBreakingLine)
      && a.deprecations == Filter(ts, IsDeprecationLine)
      && a.bugFixes == Filter(ts, IsBugFixLine)
      && a.commands == Fresh([], FlatMap(ts, LineCommands))
      && a.flags == Fresh([], FlatMap(ts, LineFlags))
  {
    var lines := Lines(BodyText(r));
    var ts := NonBlankLines(lines);
    var e := EmptyAnalysis(r);
    ScanLinesBucket(e, lines, Features);
    ScanLinesBucket(e, lines, BreakingChanges);
    ScanLinesBucket(e, lines, Deprecations);
    ScanLinesBucket(e, lines, BugFixes);
    ScanLinesTokens(e, lines);
    AddAllIsFresh([], FlatMap(ts, LineCommands));
    AddAllIsFresh([], FlatMap(ts, LineFlags));
  }

  /** Every non-blank line is a piece of the body. */
  lemma {:induction false} NonBlankLinesOccur(body: string, lines: seq<string>)
    requires forall k :: 0 <= k < |lines| ==> Contains(body, lines[k])
    ensures forall t :: t in NonBlankLines(lines) ==> Contains(body, t)
    decreases |lines|
  {
    if |lines| > 0 {
      var l := lines[|lines| - 1];
      NonBlankLinesOccur(body, lines[..|lines| - 1]);
      ContainsTrim(l);
      ContainsTrans(body, l, Trim(l));
    }
  }

  /** The lines the analyser reads are non-empty, trimmed pieces of the body. */
  lemma BodyLinesOccur(body: string)
    ensures forall t :: t in NonBlankLines(Lines(body)) ==> Contains(body, t) && t != [] && Trim(t) == t
  {
    var lines := Lines(body);
    forall k | 0 <= k < |lines|
      ensures Contains(body, lines[k])
    {
      SplitPiecesOccur(body, '\n', k);
    }
    NonBlankLinesOccur(body, lines);
  }

  /** Each line bucket holds exactly the non-blank trimmed lines that match its
      patterns. */
  lemma BucketMembers(r: Release)
    ensures var ts := NonBlankLines(Lines(BodyText(r)));
      var a := AnalyzeReleaseNotes(r);
      && (forall t :: t in a.features <==> t in ts && IsFeatureLine(t))
      && (forall t :: t in a.breakingChanges <==> t in ts && IsBreakingLine(t))
      && (forall t :: t in a.deprecations <==> t in ts && IsDeprecationLine(t))
      && (forall t :: t in a.bugFixes <==> t in ts && IsBugFixLine(t))
  {
    var ts := NonBlankLines(Lines(BodyText(r)));
    AnalysisSpec(r);
    FilterMembers(ts, IsFeatureLine);
    FilterMembers(ts, IsBreakingLine);
    FilterMembers(ts, IsDeprecationLine);
    FilterMembers(ts, IsBugFixLine);
  }

  /** Every flag the given lines contribute is `--` and a word, found in body. */
  lemma FlagTokensOccur(body: string, ts: seq<string>)
    requires forall t :: t in ts ==> Contains(body, t)
    ensures forall f :: f in FlatMap(ts, LineFlags) ==> IsFlag(f) && Contains(body, f)
  {
    forall f | f in FlatMap(ts, LineFlags)
      ensures IsFlag(f) && Contains(body, f)
    {
      FlatMapMember(ts, LineFlags, f);
      var i :| 0 <= i < |ts| && f in LineFlags(ts[i]);
      ContainsTrans(body, ts[i], f);
    }
  }

  /** No flag is recorded twice; every flag is `--` followed by a word, and
      appears in the body. */
  lemma FlagsWellFormed(r: Release)
    ensures var a := AnalyzeReleaseNotes(r);
      NoDup(a.flags) && forall f :: f in a.flags ==> IsFlag(f) && Contains(BodyText(r), f)
  {
    var body := BodyText(r);
    var ts := NonBlankLines(Lines(body));
    AnalysisSpec(r);
    FreshMembers([], FlatMap(ts, LineFlags));
    BodyLinesOccur(body);
    FlagTokensOccur(body, ts);
  }

  /** Every command the given lines contribute, but the placeholder, is found
      in body. */
  lemma CommandTokensOccur(body: string, ts: seq<string>)
    requires forall t :: t in ts ==> Contains(body, t)
    ensures forall c :: c in FlatMap(ts, LineCommands) ==> c == NewCommandSentinel || Contains(body, c)
  {
    forall c | c in FlatMap(ts, LineCommands) && c != NewCommandSentinel
      ensures Contains(body, c)
    {
      FlatMapMember(ts, LineCommands, c);
      var i :| 0 <= i < |ts| && c in LineCommands(ts[i]);
      var t := ts[i];
      assert c in ContainerWordsFrom(t, 0) || c in BacktickCommandsFrom(t, 0);
      ContainsTrans(body, t, c);
    }
  }

  /** No command is recorded twice, and every command other than the
      placeholder appears in the body. */
  lemma CommandsWellFormed(r: Release)
    ensures var a := AnalyzeReleaseNotes(r);
      NoDup(a.commands)
      && forall c :: c in a.commands ==> c == NewCommandSentinel || Contains(BodyText(r), c)
  {
    var body := BodyText(r);
    var ts := NonBlankLines(Lines(body));
    AnalysisSpec(r);
    FreshMembers([], FlatMap(ts, LineCommands));
    BodyLinesOccur(body);
    CommandTokensOccur(body, ts);
  }

  /** The placeholder names no real command: it is not a `\w` word, and a line
      that contains it mentions a new command. */
  lemma SentinelText(t: string)
    ensures !IsWord(NewCommandSentinel)
    ensures Contains(t, NewCommandSentinel) ==> MentionsNewCommand(t)
  {
    SentinelParts();
    if Contains(t, NewCommandSentinel) {
      var i :| 0 <= i <= |t| - |NewCommandSentinel| && OccursAt(t, NewCommandSentinel, i);
      var l := Lower(t);
      SentinelLowered(t, i);
      OccursInSlice(l, i, i + 20, "new", 0);
      OccursInSlice(l, i, i + 20, "command", 4);
      assert l[i + 3] == l[i..i + 20][3] == '-';
      assert OnOneLine(l, i + 3, i + 4);
      assert GapMatchAt(l, "new", "command", i, 1);
    }
  }

  /** The placeholder reads `new`, a dash, then `command`. */
  lemma SentinelParts()
    ensures |NewCommandSentinel| == 20 && NewCommandSentinel[3] == '-'
    ensures OccursAt(NewCommandSentinel, "new", 0) && OccursAt(NewCommandSentinel, "command", 4)
  {
    assert NewCommandSentinel[..3] == "new";
    assert NewCommandSentinel[4..11] == "command";
  }

  /** The placeholder is lower case, so lower-casing a text leaves it in place. */
  lemma SentinelLowered(t: string, i: int)
    requires OccursAt(t, NewCommandSentinel, i)
    ensures |Lower(t)| == |t| && Lower(t)[i..i + 20] == NewCommandSentinel
  {
    var l := Lower(t);
    forall k | 0 <= k < 20
      ensures l[i + k] == NewCommandSentinel[k]
    {
      assert t[i + k] == t[i..i + 20][k] == NewCommandSentinel[k];
    }
  }

  lemma {:induction false} FlatMapContains<T, U>(xs: seq<T>, f: T -> seq<U>, k: int, u: U)
    requires 0 <= k < |xs| && u in f(xs[k])
    ensures u in FlatMap(xs, f)
    decreases |xs|
  {
    if k < |xs| - 1 {
      FlatMapContains(xs[..|xs| - 1], f, k, u);
    }
  }

  /** The placeholder is among the tokens of the given lines exactly when one
      of them announces a new command. */
  lemma SentinelTokenIff(ts: seq<string>)
    ensures NewCommandSentinel in FlatMap(ts, LineCommands)
      <==> exists k :: 0 <= k < |ts| && MentionsNewCommand(ts[k])
  {
    if NewCommandSentinel in FlatMap(ts, LineCommands) {
      FlatMapMember(ts, LineCommands, NewCommandSentinel);
      var k :| 0 <= k < |ts| && NewCommandSentinel in LineCommands(ts[k]);
      SentinelInLine(ts[k]);
    }
    if exists k :: 0 <= k < |ts| && MentionsNewCommand(ts[k]) {
      var k :| 0 <= k < |ts| && MentionsNewCommand(ts[k]);
      SentinelInLine(ts[k]);
      FlatMapContains(ts, LineCommands, k, NewCommandSentinel);
    }
  }

  /** A line contributes the placeholder exactly when it announces a new
      command: the other tokens are pieces of the line, and one equal to
      the placeholder would announce it too. */
  lemma SentinelInLine(t: string)
    ensures NewCommandSentinel in LineCommands(t) <==> MentionsNewCommand(t)
  {
    var c := NewCommandSentinel;
    if c in ContainerWordsFrom(t, 0) + BacktickCommandsFrom(t, 0) {
      assert c in ContainerWordsFrom(t, 0) || c in BacktickCommandsFrom(t, 0);
      SentinelText(t);
    }
  }

  /** The placeholder is among the commands exactly when some non-blank line
      announces a new command. */
  lemma SentinelIffMentioned(r: Release)
    ensures var ts := NonBlankLines(Lines(BodyText(r)));
      NewCommandSentinel in AnalyzeReleaseNotes(r).commands
      <==> exists k :: 0 <= k < |ts| && MentionsNewCommand(ts[k])
  {
    var ts := NonBlankLines(Lines(BodyText(r)));
    AnalysisSpec(r);
    FreshMembers([], FlatMap(ts, LineCommands));
    SentinelTokenIff(ts);
  }

  /** A body that is missing, empty or only whitespace yields six empty lists. */
  lemma BlankBodyFindsNothing(r: Release)
    requires IsBlank(BodyText(r))
    ensures var a := AnalyzeReleaseNotes(r);
      a.features == [] && a.breakingChanges == [] && a.commands == []
      && a.flags == [] && a.deprecations == [] && a.bugFixes == []
  {
    var body := BodyText(r);
    var ts := NonBlankLines(Lines(body));
    BodyLinesOccur(body);
    if ts != [] {
      BlankInfix(body, ts[0]);
      assert false;
    }
    AnalysisSpec(r);
  }

  /** Indentation and blank lines do not matter: releases with the same
      non-blank trimmed lines get the same analysis. */
  lemma SameLinesSameAnalysis(r1: Release, r2: Release)
    requires r1.tagName == r2.tagName && r1.publishedAt == r2.publishedAt
    requires r1.prerelease == r2.prerelease && r1.draft == r2.draft
    requires NonBlankLines(Lines(BodyText(r1))) == NonBlankLines(Lines(BodyText(r2)))
    ensures AnalyzeReleaseNotes(r1) == AnalyzeReleaseNotes(r2)
  {
    AnalysisSpec(r1);
    AnalysisSpec(r2);
  }
}
