/** How the integrator (scripts/integrate-release.js, `updateRoutesIndex`)
    registers a generated page in src/routes/index.js: an import line, and the
    page name appended to the first `export { ... }` list, rewritten with
    `String.prototype.replace` and its `$` replacement patterns. */
module RoutesIndex {
  import opened Wrappers
  import opened Text

  // ---------------------------------------------------------------------------
  // The import line
  // ---------------------------------------------------------------------------

  function ImportLine(page: string): string {
    "import " + page + " from './" + page + "';"
  }

  /** The import line is put in front unless the index already contains it. */
  function AddImport(s: string, page: string): (r: string)
    ensures Contains(r, ImportLine(page))
    ensures Contains(s, ImportLine(page)) ==> r == s
    ensures !Contains(s, ImportLine(page)) ==> r == ImportLine(page) + "\n" + s
  {
    var line := ImportLine(page);
    if Contains(s, line) then s
    else
      ContainsMiddle([], line, "\n" + s);
      assert [] + line + ("\n" + s) == line + "\n" + s;
      line + "\n" + s
  }

  /** Adding the import twice adds it once. */
  lemma AddImportIdempotent(s: string, page: string)
    ensures AddImport(AddImport(s, page), page) == AddImport(s, page)
  {
  }

  // ---------------------------------------------------------------------------
  // The export list: `export`, white space, an opening brace, and a capture
  // that runs up to the first closing brace
  // ---------------------------------------------------------------------------

  /** The pattern matches at i: `export`, optional white space, an opening
      brace, and a closing brace somewhere after it. */
  predicate ExportAt(s: string, i: int) {
    OccursAt(s, "export", i) && BraceAfter(s, i + 6)
  }

  /** From i on: optional white space, an opening brace, and a closing brace
      somewhere after it. */
  predicate BraceAfter(s: string, i: int)
    requires 0 <= i <= |s|
  {
    var a := SkipSpaces(s, i);
    a < |s| && s[a] == OpenBrace && CloseBrace in s[a + 1..]
  }

  /** Where a match at `start` has its opening brace, its capture and its
      closing brace: the capture runs from the first character after the
      opening brace that is not white space to the first closing brace. */
  datatype ExportMatch = ExportMatch(start: nat, open: nat, capLo: nat, close: nat)

  function ExportParts(s: string, i: nat): (m: ExportMatch)
    requires ExportAt(s, i)
    ensures m.start == i && i + 6 <= m.open < m.capLo <= m.close < |s|
    ensures s[m.open] == OpenBrace && s[m.close] == CloseBrace && CloseBrace !in s[m.open + 1..m.close]
    ensures IsBlank(s[i + 6..m.open]) && IsBlank(s[m.open + 1..m.capLo])
    ensures m.capLo < m.close ==> !IsSpace(s[m.capLo])
  {
    var a := SkipSpaces(s, i + 6);
    var c := CloseFrom(s, a + 1);
    var b := SkipSpaces(s, a + 1);
    assert !IsSpace(s[c]);
    SkippedIsBlank(s, i + 6);
    SkippedIsBlank(s, a + 1);
    ExportMatch(i, a, b, c)
  }

  /** The first closing brace at or after lo: where the capture, which holds
      no closing brace, stops. */
  function CloseFrom(s: string, lo: nat): (c: nat)
    requires lo <= |s| && CloseBrace in s[lo..]
    ensures lo <= c < |s| && s[c] == CloseBrace && CloseBrace !in s[lo..c]
  {
    var t := s[lo..];
    var k := IndexOfChar(t, CloseBrace).value;
    assert t[k] == s[lo + k] && t[..k] == s[lo..lo + k];
    lo + k
  }

  /** The leftmost match at or after i, tried position by position as a
      regular expression search does. */
  function FindExportFrom(s: string, i: nat): (r: Option<ExportMatch>)
    requires i <= |s|
    ensures r.Some? ==> i <= r.value.start <= r.value.capLo <= r.value.close < |s|
    decreases |s| - i
  {
    if i == |s| then None
    else if ExportAt(s, i) then Some(ExportParts(s, i))
    else FindExportFrom(s, i + 1)
  }

  /** `content.match(exportPattern)`: the leftmost match in the whole text. */
  function FindExport(s: string): (r: Option<ExportMatch>)
    ensures r.Some? ==> r.value.start <= r.value.capLo <= r.value.close < |s|
  {
    FindExportFrom(s, 0)
  }

  /** The search finds the pattern where it first matches, and finds nothing
      only when the pattern matches nowhere. */
  lemma {:induction false} FindExportIsLeftmost(s: string, i: nat)
    requires i <= |s|
    ensures var r := FindExportFrom(s, i);
      r.Some? ==> ExportAt(s, r.value.start) && r.value == ExportParts(s, r.value.start)
    ensures var r := FindExportFrom(s, i);
      r.Some? ==> forall j :: i <= j < r.value.start ==> !ExportAt(s, j)
    ensures FindExportFrom(s, i).None? <==> forall j :: i <= j < |s| ==> !ExportAt(s, j)
    decreases |s| - i
  {
    if i < |s| && !ExportAt(s, i) {
      FindExportIsLeftmost(s, i + 1);
      var r := FindExportFrom(s, i + 1);
      assert FindExportFrom(s, i) == r;
      var end := if r.Some? then r.value.start else |s|;
      forall j | i <= j < end
        ensures !ExportAt(s, j)
      {
        if j == i {
          assert !ExportAt(s, i);
        }
      }
    }
  }

  // ---------------------------------------------------------------------------
  // Replacement patterns (GetSubstitution, one capture group)
  // ---------------------------------------------------------------------------

  /** The replacement text with `$$`, `$&`, `` $` ``, `$'` and the references
      to the one capture group (`$1`, `$01`, and `$1` followed by a digit)
      expanded; every other `$` stands for itself. */
  function Substitute(r: string, matched: string, before: string, after: string, cap: string): string
    decreases |r|
  {
    if |r| == 0 then []
    else if r[0] != '$' || |r| == 1 then [r[0]] + Substitute(r[1..], matched, before, after, cap)
    else if r[1] == '$' then "$" + Substitute(r[2..], matched, before, after, cap)
    else if r[1] == '&' then matched + Substitute(r[2..], matched, before, after, cap)
    else if r[1] == '`' then before + Substitute(r[2..], matched, before, after, cap)
    else if r[1] == '\'' then after + Substitute(r[2..], matched, before, after, cap)
    else if |r| >= 3 && r[1] == '0' && r[2] == '1' then cap + Substitute(r[3..], matched, before, after, cap)
    else if r[1] == '1' then cap + Substitute(r[2..], matched, before, after, cap)
    else "$" + Substitute(r[1..], matched, before, after, cap)
  }

  /** Without a `$`, the replacement text is inserted as it is. */
  lemma {:induction false} SubstituteLiteral(r: string, matched: string, before: string, after: string, cap: string)
    requires '$' !in r
    ensures Substitute(r, matched, before, after, cap) == r
    decreases |r|
  {
    if |r| > 0 {
      assert '$' !in r[1..];
      SubstituteLiteral(r[1..], matched, before, after, cap);
    }
  }

  /** A `$&` in the replacement text brings back the matched text. */
  lemma SubstituteWholeMatch(matched: string, before: string, after: string, cap: string)
    ensures Substitute("$&", matched, before, after, cap) == matched
  {
    assert "$&"[2..] == [];
  }

  // ---------------------------------------------------------------------------
  // The rewrite as written
  // ---------------------------------------------------------------------------

  /** The new list: the old entries, trimmed, then the page. */
  function NewExports(exports: string, page: string): string {
    if exports != [] then exports + ",\n  " + page else page
  }

  function ExportBlock(entries: string): string {
    "export {\n  " + entries + "\n}"
  }

  lemma BlockLiteral(exports: string, page: string)
    requires '$' !in exports && '$' !in page
    ensures '$' !in ExportBlock(NewExports(exports, page))
  {
    var e := NewExports(exports, page);
    assert '$' !in e;
    assert '$' !in "export {\n  " && '$' !in "\n}";
  }

  /** The export step: the first match replaced by a block listing the old
      entries and the page. Without `$` in the old entries or the page name,
      the text around the first list is kept, so what follows that list still
      follows it after the page is added: when the list is a re-export
      `export { ... } from '<module>'`, the page ends up re-exported from that
      other module. */
  function AddExport(s: string, page: string): (r: string)
    ensures FindExport(s).None? ==> r == s
    ensures FindExport(s).Some? && '$' !in Entries(s, FindExport(s).value) && '$' !in page ==>
      var m := FindExport(s).value;
      && r == s[..m.start] + ExportBlock(NewExports(Entries(s, m), page)) + s[m.close + 1..]
      && Contains(r, page + "\n}" + s[m.close + 1..])
  {
    match FindExport(s)
    case None => s
    case Some(m) =>
      if '$' !in Entries(s, m) && '$' !in page then ReplaceMatchShape(s, m, page); ReplaceMatch(s, m, page)
      else ReplaceMatch(s, m, page)
  }

  /** The old entries of a match: its capture, trimmed. */
  function Entries(s: string, m: ExportMatch): string
    requires m.capLo <= m.close <= |s|
  {
    Trim(s[m.capLo..m.close])
  }

  /** `content.replace(exportPattern, ...)` once the match is known. */
  function ReplaceMatch(s: string, m: ExportMatch, page: string): string
    requires m.start <= m.capLo <= m.close < |s|
  {
    var block := ExportBlock(NewExports(Entries(s, m), page));
    s[..m.start] + Substitute(block, s[m.start..m.close + 1], s[..m.start], s[m.close + 1..], s[m.capLo..m.close])
    + s[m.close + 1..]
  }

  lemma ReplaceMatchShape(s: string, m: ExportMatch, page: string)
    requires m.start <= m.capLo <= m.close < |s|
    requires '$' !in Entries(s, m) && '$' !in page
    ensures ReplaceMatch(s, m, page) == s[..m.start] + ExportBlock(NewExports(Entries(s, m), page)) + s[m.close + 1..]
    ensures Contains(ReplaceMatch(s, m, page), page + "\n}" + s[m.close + 1..])
  {
    var block := ExportBlock(NewExports(Entries(s, m), page));
    BlockLiteral(Entries(s, m), page);
    SubstituteLiteral(block, s[m.start..m.close + 1], s[..m.start], s[m.close + 1..], s[m.capLo..m.close]);
    BlockEndsWithPage(ReplaceMatch(s, m, page), s[..m.start], Entries(s, m), page, s[m.close + 1..]);
  }

  /** `updateRoutesIndex(pageName)` on the text of the index: the import line
      is added, and then the page is appended to the first export list, with
      what followed that list still following it. An index without an export
      list only gains the import. */
  function UpdateRoutesIndex(s: string, page: string): (r: string)
    ensures var t := AddImport(s, page);
      FindExport(t).None? ==> r == t && Contains(r, ImportLine(page))
    ensures var t := AddImport(s, page);
      FindExport(t).Some? && '$' !in Entries(t, FindExport(t).value) && '$' !in page ==>
        Contains(r, page + "\n}" + t[FindExport(t).value.close + 1..])
  {
    AddExport(AddImport(s, page), page)
  }

  lemma BlockEndsWithPage(x: string, before: string, entries: string, page: string, after: string)
    requires x == before + ExportBlock(NewExports(entries, page)) + after
    ensures Contains(x, page + "\n}" + after)
  {
    var head := before + "export {\n  " + (if entries != [] then entries + ",\n  " else "");
    var tail := page + "\n}" + after;
    assert x == head + tail + [];
    ContainsMiddle(head, tail, []);
  }

  /** An index that opens with a re-export `export { <entries> }<rest>`,
      as src/routes/index.js does: the page is appended to those entries, so
      whatever `<rest>` says (` from './Dashboard'`) now applies to it too. */
  lemma ReExportCounterexample(entries: string, rest: string, page: string)
    requires entries != [] && !IsSpace(entries[0]) && !IsSpace(entries[|entries| - 1])
    requires CloseBrace !in entries && '$' !in entries && '$' !in page
    ensures AddExport("export {" + entries + "}" + rest, page)
            == "export {\n  " + entries + ",\n  " + page + "\n}" + rest
  {
    var s := "export {" + entries + "}" + rest;
    var n := |entries|;
    LeadingBlockMatches(entries, rest);
    var m := ExportMatch(0, 7, 8, 8 + n);
    EntriesOfLeadingBlock(entries, rest);
    assert s[..0] == [] && s[9 + n..] == rest;
    ReExportText(AddExport(s, page), entries, page, rest);
  }

  lemma ReExportText(x: string, entries: string, page: string, rest: string)
    requires entries != []
    requires x == [] + ExportBlock(NewExports(entries, page)) + rest
    ensures x == "export {\n  " + entries + ",\n  " + page + "\n}" + rest
  {
  }

  lemma EntriesOfLeadingBlock(entries: string, rest: string)
    requires entries != [] && !IsSpace(entries[0]) && !IsSpace(entries[|entries| - 1])
    ensures Entries("export {" + entries + "}" + rest, ExportMatch(0, 7, 8, 8 + |entries|)) == entries
  {
    var s := "export {" + entries + "}" + rest;
    assert s[8..8 + |entries|] == entries;
    TrimNonBlankKeepsText(entries);
  }

  lemma LeadingBlockMatches(entries: string, rest: string)
    requires entries != [] && !IsSpace(entries[0]) && CloseBrace !in entries
    ensures FindExport("export {" + entries + "}" + rest) == Some(ExportMatch(0, 7, 8, 8 + |entries|))
  {
    var s := "export {" + entries + "}" + rest;
    var n := |entries|;
    assert s[..6] == "export";
    assert IsSpace(s[6]) && !IsSpace(s[7]);
    assert SkipSpaces(s, 7) == 7;
    assert SkipSpaces(s, 6) == 7;
    var t := s[8..];
    assert t[..n] == entries && t[n] == CloseBrace;
    assert IndexOfChar(t, CloseBrace) == Some(n);
    assert s[8] == entries[0];
    assert SkipSpaces(s, 8) == 8;
    assert ExportAt(s, 0);
  }

  // ---------------------------------------------------------------------------
  // The rewrite as intended
  // ---------------------------------------------------------------------------

  /** A local export of the imported page. */
  function ExportLine(page: string): string {
    "export { " + page + " };"
  }

  /** The export step as intended: the imported page is exported on a line of
      its own, unless that line is already there. */
  function AddExportFixed(s: string, page: string): (r: string)
    ensures Contains(r, ExportLine(page))
    ensures Contains(s, ExportLine(page)) ==> r == s
    ensures !Contains(s, ExportLine(page)) ==> r == s + "\n" + ExportLine(page)
  {
    var line := ExportLine(page);
    if Contains(s, line) then s
    else
      ContainsMiddle(s + "\n", line, []);
      assert s + "\n" + line + [] == s + "\n" + line;
      s + "\n" + line
  }

  /** The corrected export step keeps all the text it was given. */
  lemma AddExportFixedKeeps(s: string, page: string, m: string)
    requires Contains(s, m)
    ensures Contains(AddExportFixed(s, page), m)
  {
    var r := AddExportFixed(s, page);
    if r != s {
      ContainsMiddle([], s, "\n" + ExportLine(page));
      assert [] + s + ("\n" + ExportLine(page)) == r;
      ContainsTrans(r, s, m);
    }
  }

  /** `updateRoutesIndex(pageName)` with the export step corrected. */
  function UpdateRoutesIndexFixed(s: string, page: string): (r: string)
    ensures Contains(r, ImportLine(page)) && Contains(r, ExportLine(page))
  {
    var t := AddImport(s, page);
    AddExportFixedKeeps(t, page, ImportLine(page));
    AddExportFixed(t, page)
  }

  /** The corrected update never touches the existing text: the index before
      is a piece of the index after, and a second update changes nothing. */
  lemma FixedUpdateKeepsIndex(s: string, page: string)
    ensures Contains(UpdateRoutesIndexFixed(s, page), s)
    ensures UpdateRoutesIndexFixed(UpdateRoutesIndexFixed(s, page), page) == UpdateRoutesIndexFixed(s, page)
  {
    var line := ImportLine(page);
    var t := AddImport(s, page);
    if Contains(s, line) {
      ContainsMiddle([], s, []);
      assert [] + s + [] == s;
    } else {
      ContainsMiddle(line + "\n", s, []);
      assert line + "\n" + s + [] == t;
    }
    AddExportFixedKeeps(t, page, s);
  }
}
