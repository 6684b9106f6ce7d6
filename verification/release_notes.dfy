/** The release notes the integrator (scripts/integrate-release.js,
    `generateReleaseNotes`) writes: a fixed page with one bulleted section per
    analysis list, each falling back to a fixed line when its list is empty. */
module ReleaseNotes {
  import opened Text
  import opened Seqs
  import opened ReleaseAnalysis
  import opened ReleaseReport

  /** How each section renders one item. */
  datatype Bullet = Plain | CommandCode | FlagCode

  function BulletLine(b: Bullet, item: string): string {
    match b
    case Plain => "- " + item
    case CommandCode => "- `container " + item + "`"
    case FlagCode => "- `" + item + "`"
  }

  /** A section body: one bullet line per item, or the fallback line. */
  function Section(items: seq<string>, b: Bullet, fallback: string): string {
    if |items| > 0 then Join(Map(items, item => BulletLine(b, item)), "\n") else fallback
  }

  const FeaturesFallback: string := "- Updated compatibility with latest Apple Container CLI"
  const CommandsFallback: string := "- No new commands in this release"
  const FlagsFallback: string := "- No new flags in this release"
  const BreakingFallback: string := "- No breaking changes in this release"
  const BugFixesFallback: string := "- General stability improvements"

  function FeaturesSection(a: Analysis): string { Section(a.features, Plain, FeaturesFallback) }
  function CommandsSection(a: Analysis): string { Section(a.commands, CommandCode, CommandsFallback) }
  function FlagsSection(a: Analysis): string { Section(a.flags, FlagCode, FlagsFallback) }
  function BreakingSection(a: Analysis): string { Section(a.breakingChanges, Plain, BreakingFallback) }
  function BugFixesSection(a: Analysis): string { Section(a.bugFixes, Plain, BugFixesFallback) }

  /** `new Date().toISOString().split('T')[0]`, given the ISO time stamp. */
  function DatePart(iso: string): string {
    Split(iso, 'T')[0]
  }

  /** The text of the page's opening around the tag, date, tag and release URL. */
  const NotesHeadSegments: seq<string> := [
    "# Container GUI Release Notes\n\n"
    + "## Latest Update: Support for Apple Container ",
    "\n\n"
    + "**Release Date:** ",
    "\n"
    + "**Container CLI Version:** ",
    "\n"
    + "**Release URL:** ",
    "\n\n"
    + "### \U{1F389} New Features Added\n\n"
  ]

  const CommandsHeading: string := "\n\n### \U{1F527} New Commands Supported\n\n"
  const FlagsHeading: string := "\n\n### \U{1F6A9} New Flags & Options\n\n"
  const BreakingHeading: string := "\n\n### ⚠️ Breaking Changes\n\n"
  const BugFixesHeading: string := "\n\n### \U{1F41B} Bug Fixes\n\n"

  /** The text of the page's closing around the tag (twice) and the time stamp. */
  const NotesTailSegments: seq<string> := [
    "\n\n### \U{1F4DA} Documentation Updates\n\n"
    + "- Updated to reflect ",
    " compatibility\n"
    + "- Added support documentation for new features\n"
    + "- Enhanced troubleshooting guides\n\n"
    + "### \U{1F504} Integration Details\n\n"
    + "**Automatic Updates:**\n"
    + "- CLI command mappings updated\n"
    + "- UI forms enhanced with new options\n"
    + "- Error handling improved for new features\n"
    + "- Backward compatibility maintained\n\n"
    + "**Manual Testing Required:**\n"
    + "- Test new commands in the GUI\n"
    + "- Verify flag behavior matches CLI\n"
    + "- Check for any UI/UX improvements needed\n\n"
    + "---\n\n"
    + "*This release was automatically generated from Apple Container ",
    " release analysis.*\n"
    + "*Generated on: ",
    "*\n"
  ]

  /** The page, as the pieces it is written from; the five section bodies are
      pieces 1, 3, 5, 7 and 9. */
  function NotesPieces(rep: Report, now: string): (r: seq<string>)
    ensures |r| == 11
    ensures r[1] == FeaturesSection(rep.analysis) && r[3] == CommandsSection(rep.analysis)
    ensures r[5] == FlagsSection(rep.analysis) && r[7] == BreakingSection(rep.analysis)
    ensures r[9] == BugFixesSection(rep.analysis)
  {
    var tag := rep.release.tag;
    var a := rep.analysis;
    [ Fill(NotesHeadSegments, [tag, DatePart(now), tag, rep.release.url]),
      FeaturesSection(a),
      CommandsHeading,
      CommandsSection(a),
      FlagsHeading,
      FlagsSection(a),
      BreakingHeading,
      BreakingSection(a),
      BugFixesHeading,
      BugFixesSection(a),
      Fill(NotesTailSegments, [tag, tag, now])
    ]
  }

  function Identity(s: string): string { s }

  /** `generateReleaseNotes()`: the text written to RELEASE_NOTES.md, given the
      report and the ISO time stamp of the run. Every piece of the page
      appears in it. */
  function GenerateReleaseNotes(rep: Report, now: string): (r: string)
    ensures forall k :: 0 <= k < |NotesPieces(rep, now)| ==> Contains(r, NotesPieces(rep, now)[k])
  {
    var pieces := NotesPieces(rep, now);
    EveryPieceInNotes(pieces);
    FlatMap(pieces, Identity)
  }

  /** Each piece is in the concatenation of all of them. */
  lemma EveryPieceInNotes(pieces: seq<string>)
    ensures forall k :: 0 <= k < |pieces| ==> Contains(FlatMap(pieces, Identity), pieces[k])
  {
    forall k | 0 <= k < |pieces|
      ensures Contains(FlatMap(pieces, Identity), pieces[k])
    {
      FlatMapSplit(pieces, Identity, k);
      ContainsMiddle(FlatMap(pieces[..k], Identity), pieces[k], FlatMap(pieces[k + 1..], Identity));
    }
  }

  /** A section lists each of its items, one per line, and nothing else:
      splitting it at line breaks gives back the bullet lines. An empty list
      gives the fallback line alone. */
  lemma SectionLines(items: seq<string>, b: Bullet, fallback: string)
    requires forall k :: 0 <= k < |items| ==> '\n' !in items[k]
    ensures items == [] ==> Section(items, b, fallback) == fallback
    ensures items != [] ==>
      Split(Section(items, b, fallback), '\n') == Map(items, item => BulletLine(b, item))
  {
    if items != [] {
      var lines := Map(items, item => BulletLine(b, item));
      forall k | 0 <= k < |lines|
        ensures '\n' !in lines[k]
      {
        assert lines[k] == BulletLine(b, items[k]);
      }
      SplitJoin(lines, '\n');
    }
  }

  /** Each item of a section is among its lines. */
  lemma SectionListsItem(items: seq<string>, b: Bullet, fallback: string, k: int)
    requires 0 <= k < |items|
    ensures Contains(Section(items, b, fallback), BulletLine(b, items[k]))
  {
    var lines := Map(items, item => BulletLine(b, item));
    JoinContains(lines, "\n", k);
  }

  /** The notes list every feature, command, flag, breaking change and bug
      fix of the analysis, each on its bullet line. */
  lemma NotesListEverything(rep: Report, now: string)
    ensures var notes := GenerateReleaseNotes(rep, now);
      var a := rep.analysis;
      && (forall k :: 0 <= k < |a.features| ==> Contains(notes, BulletLine(Plain, a.features[k])))
      && (forall k :: 0 <= k < |a.commands| ==> Contains(notes, BulletLine(CommandCode, a.commands[k])))
      && (forall k :: 0 <= k < |a.flags| ==> Contains(notes, BulletLine(FlagCode, a.flags[k])))
      && (forall k :: 0 <= k < |a.breakingChanges| ==> Contains(notes, BulletLine(Plain, a.breakingChanges[k])))
      && (forall k :: 0 <= k < |a.bugFixes| ==> Contains(notes, BulletLine(Plain, a.bugFixes[k])))
  {
    var notes := GenerateReleaseNotes(rep, now);
    var a := rep.analysis;
    var p := NotesPieces(rep, now);
    forall k | 0 <= k < |a.features|
      ensures Contains(notes, BulletLine(Plain, a.features[k]))
    {
      SectionListsItem(a.features, Plain, FeaturesFallback, k);
      ContainsTrans(notes, p[1], BulletLine(Plain, a.features[k]));
    }
    forall k | 0 <= k < |a.commands|
      ensures Contains(notes, BulletLine(CommandCode, a.commands[k]))
    {
      SectionListsItem(a.commands, CommandCode, CommandsFallback, k);
      ContainsTrans(notes, p[3], BulletLine(CommandCode, a.commands[k]));
    }
    forall k | 0 <= k < |a.flags|
      ensures Contains(notes, BulletLine(FlagCode, a.flags[k]))
    {
      SectionListsItem(a.flags, FlagCode, FlagsFallback, k);
      ContainsTrans(notes, p[5], BulletLine(FlagCode, a.flags[k]));
    }
    forall k | 0 <= k < |a.breakingChanges|
      ensures Contains(notes, BulletLine(Plain, a.breakingChanges[k]))
    {
      SectionListsItem(a.breakingChanges, Plain, BreakingFallback, k);
      ContainsTrans(notes, p[7], BulletLine(Plain, a.breakingChanges[k]));
    }
    forall k | 0 <= k < |a.bugFixes|
      ensures Contains(notes, BulletLine(Plain, a.bugFixes[k]))
    {
      SectionListsItem(a.bugFixes, Plain, BugFixesFallback, k);
      ContainsTrans(notes, p[9], BulletLine(Plain, a.bugFixes[k]));
    }
  }

  /** An empty list shows its fallback line instead. */
  lemma NotesShowFallbacks(rep: Report, now: string)
    ensures var notes := GenerateReleaseNotes(rep, now);
      var a := rep.analysis;
      && (a.features == [] ==> Contains(notes, FeaturesFallback))
      && (a.commands == [] ==> Contains(notes, CommandsFallback))
      && (a.flags == [] ==> Contains(notes, FlagsFallback))
      && (a.breakingChanges == [] ==> Contains(notes, BreakingFallback))
      && (a.bugFixes == [] ==> Contains(notes, BugFixesFallback))
  {
  }
}
