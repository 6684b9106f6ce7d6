/** The two ways the integrator (scripts/integrate-release.js) splices generated
    text into an existing source file: before the last occurrence of a fixed
    anchor (a closing brace and semicolon, or `</nav>`), and before the first match of a button pattern. */
module Splice {
  import opened Wrappers
  import opened Text

  // ---------------------------------------------------------------------------
  // Before the last anchor
  // ---------------------------------------------------------------------------

  ghost predicate IsLastOccurrence(s: string, p: string, i: int) {
    OccursAt(s, p, i) && forall j :: i < j ==> !OccursAt(s, p, j)
  }

  /** `i = s.lastIndexOf(anchor); if (i !== -1) s = s.slice(0, i) + snippet + s.slice(i)`. */
  function InsertBeforeLast(s: string, anchor: string, snippet: string): (r: string)
    ensures !Contains(s, anchor) ==> r == s
    ensures Contains(s, anchor) ==>
      exists i :: IsLastOccurrence(s, anchor, i) && r == s[..i] + snippet + s[i..]
  {
    match LastIndexOf(s, anchor)
    case None => s
    case Some(i) => s[..i] + snippet + s[i..]
  }

  /** After the insertion, the anchor's last occurrence is the original one,
      moved right by the length of the snippet. */
  lemma LastOccurrenceShifts(s: string, anchor: string, snippet: string, i: int)
    requires IsLastOccurrence(s, anchor, i)
    ensures IsLastOccurrence(s[..i] + snippet + s[i..], anchor, i + |snippet|)
  {
    var t := s[..i] + snippet + s[i..];
    var d := |snippet|;
    assert t[i + d..] == s[i..];
    assert t[i + d..i + d + |anchor|] == s[i..i + |anchor|];
    forall j | i + d < j
      ensures !OccursAt(t, anchor, j)
    {
      if j + |anchor| <= |t| {
        assert t[j..j + |anchor|] == s[j - d..j - d + |anchor|];
        assert !OccursAt(s, anchor, j - d);
      }
    }
  }

  /** Two insertions before the last anchor, one after the other, are one
      insertion of both snippets in the same order. */
  lemma InsertBeforeLastTwice(s: string, anchor: string, x: string, y: string)
    ensures InsertBeforeLast(InsertBeforeLast(s, anchor, x), anchor, y)
            == InsertBeforeLast(s, anchor, x + y)
  {
    match LastIndexOf(s, anchor)
    case None =>
    case Some(i) =>
      var t := s[..i] + x + s[i..];
      assert InsertBeforeLast(s, anchor, x) == t;
      LastOccurrenceShifts(s, anchor, x, i);
      LastIndexOfIs(t, anchor, i + |x|);
      assert t[..i + |x|] == s[..i] + x;
      assert t[i + |x|..] == s[i..];
      assert InsertBeforeLast(t, anchor, y) == s[..i] + x + y + s[i..];
  }

  /** The last occurrence is what `lastIndexOf` finds. */
  lemma LastIndexOfIs(s: string, p: string, i: int)
    requires IsLastOccurrence(s, p, i)
    ensures LastIndexOf(s, p) == Some(i)
  {
    assert Contains(s, p);
  }

  /** Text in which the anchor's first character does not occur survives the
      insertion: an occurrence cannot straddle the insertion point, where the
      anchor begins. */
  lemma InsertBeforeLastKeeps(s: string, anchor: string, snippet: string, m: string)
    requires Contains(s, m) && anchor != [] && anchor[0] !in m
    ensures Contains(InsertBeforeLast(s, anchor, snippet), m)
  {
    match LastIndexOf(s, anchor)
    case None =>
    case Some(i) =>
      var t := s[..i] + snippet + s[i..];
      var j :| 0 <= j <= |s| - |m| && OccursAt(s, m, j);
      assert s[i] == anchor[0] by {
        assert s[i..i + |anchor|][0] == s[i];
      }
      forall k | j <= k < j + |m|
        ensures s[k] != anchor[0]
      {
        assert s[k] == s[j..j + |m|][k - j];
      }
      if j + |m| <= i {
        assert t[j..j + |m|] == s[j..j + |m|];
        assert OccursAt(t, m, j);
      } else {
        assert t[j + |snippet|..j + |snippet| + |m|] == s[j..j + |m|];
        assert OccursAt(t, m, j + |snippet|);
      }
  }

  /** Inserting nothing changes nothing. */
  lemma InsertNothing(s: string, anchor: string)
    ensures InsertBeforeLast(s, anchor, "") == s
  {
    match LastIndexOf(s, anchor)
    case None =>
    case Some(i) =>
      assert s[..i] + "" + s[i..] == s;
  }

  /** When the anchor is present, whatever the snippet contains ends up in
      the text. */
  lemma InsertedSnippetPresent(s: string, anchor: string, snippet: string, m: string)
    requires Contains(s, anchor) && Contains(snippet, m)
    ensures Contains(InsertBeforeLast(s, anchor, snippet), m)
  {
    match LastIndexOf(s, anchor)
    case None =>
    case Some(i) =>
      ContainsMiddle(s[..i], snippet, s[i..]);
      ContainsTrans(s[..i] + snippet + s[i..], snippet, m);
  }

  // ---------------------------------------------------------------------------
  // Before the first match of a button pattern
  // ---------------------------------------------------------------------------

  /** The two button patterns the form updates look for. */
  datatype ButtonPattern =
    | SubmitButton  // /<button[^>]*type="submit"[^>]*>/
    | BuildButton   // /<button[^>]*onClick.*buildImage[^>]*>/

  const SubmitType: string := "type=\"submit\""

  /** The pieces of a match of the submit pattern at i: `type="submit"` at j,
      the closing `>` at m. */
  predicate SubmitParts(s: string, i: int, j: int, m: int) {
    && 0 <= i && i + 7 <= j && j + |SubmitType| <= m < |s|
    && OccursAt(s, "<button", i) && Avoids(s, '>', i + 7, j)
    && OccursAt(s, SubmitType, j) && Avoids(s, '>', j + |SubmitType|, m) && s[m] == '>'
  }

  /** The pieces of a match of the build pattern at i: `onClick` at j,
      `buildImage` at k, the closing `>` at m. */
  predicate BuildParts(s: string, i: int, j: int, k: int, m: int) {
    && 0 <= i && i + 7 <= j && j + 7 <= k && k + 10 <= m < |s|
    && OccursAt(s, "<button", i) && Avoids(s, '>', i + 7, j)
    && OccursAt(s, "onClick", j) && OnOneLine(s, j + 7, k)
    && OccursAt(s, "buildImage", k) && Avoids(s, '>', k + 10, m) && s[m] == '>'
  }

  /** The pattern matches starting at position i of s. */
  predicate MatchesAt(p: ButtonPattern, s: string, i: int) {
    match p
    case SubmitButton => exists j, m :: 0 <= j < m < |s| && SubmitParts(s, i, j, m)
    case BuildButton => exists j, k, m :: 0 <= j < k < m < |s| && BuildParts(s, i, j, k, m)
  }

  /** The leftmost match at or after i. */
  function FirstMatchFrom(p: ButtonPattern, s: string, i: nat): (r: Option<nat>)
    requires i <= |s|
    ensures r.Some? ==> i <= r.value < |s| && MatchesAt(p, s, r.value)
    ensures r.Some? ==> forall j :: i <= j < r.value ==> !MatchesAt(p, s, j)
    ensures r.None? ==> forall j :: i <= j < |s| ==> !MatchesAt(p, s, j)
  {
    var at: nat -> bool := j => MatchesAt(p, s, j);
    assert forall j: nat :: at(j) == MatchesAt(p, s, j);
    FirstFrom(|s|, at, i)
  }


  /** `content.match(pattern)`, then inserting before `content.indexOf(match[0])`.
      The first occurrence of the matched text is the match itself: an earlier
      occurrence would be an earlier match. */
  function InsertBeforeFirstMatch(p: ButtonPattern, s: string, snippet: string): (r: string)
    ensures (forall j :: 0 <= j ==> !MatchesAt(p, s, j)) ==> r == s
    ensures forall i :: (0 <= i < |s| && MatchesAt(p, s, i) && (forall j :: 0 <= j < i ==> !MatchesAt(p, s, j))
      ==> r == s[..i] + snippet + s[i..])
  {
    match FirstMatchFrom(p, s, 0)
    case None => s
    case Some(i) => s[..i] + snippet + s[i..]
  }

  /** t holds the text of s from i on, shifted right by d. */
  predicate ShiftedFrom(s: string, t: string, i: int, d: int) {
    0 <= i && 0 <= i + d && |t| == |s| + d && forall x :: i <= x < |s| ==> t[x + d] == s[x]
  }

  lemma OccursShifted(s: string, t: string, i: int, d: int, p: string, j: int)
    requires ShiftedFrom(s, t, i, d) && i <= j && OccursAt(s, p, j)
    ensures OccursAt(t, p, j + d)
  {
    forall k | 0 <= k < |p|
      ensures t[j + d..j + d + |p|][k] == p[k]
    {
      assert s[j..j + |p|][k] == p[k];
    }
  }

  /** Whether a match starts at a position depends only on the text from there on. */
  lemma MatchesAtSuffix(p: ButtonPattern, s: string, i: nat, t: string, i': nat)
    requires i <= |s| && i' <= |t| && s[i..] == t[i'..]
    ensures MatchesAt(p, s, i) ==> MatchesAt(p, t, i')
  {
    var d := i' - i;
    forall x | i <= x < |s|
      ensures t[x + d] == s[x]
    {
      assert s[i..][x - i] == t[i'..][x - i];
    }
    assert |s[i..]| == |t[i'..]|;
    assert ShiftedFrom(s, t, i, d);
    if MatchesAt(p, s, i) {
      match p
      case SubmitButton => SubmitShifted(s, t, i, d);
      case BuildButton => BuildShifted(s, t, i, d);
    }
  }

  lemma SubmitShifted(s: string, t: string, i: int, d: int)
    requires ShiftedFrom(s, t, i, d) && MatchesAt(SubmitButton, s, i)
    ensures MatchesAt(SubmitButton, t, i + d)
  {
    var j, m :| 0 <= j < m < |s| && SubmitParts(s, i, j, m);
    OccursShifted(s, t, i, d, "<button", i);
    OccursShifted(s, t, i, d, SubmitType, j);
    assert t[m + d] == s[m];
    assert Avoids(t, '>', i + d + 7, j + d) by {
      forall x | i + d + 7 <= x < j + d
        ensures t[x] != '>'
      {
        assert t[(x - d) + d] == s[x - d];
      }
    }
    assert Avoids(t, '>', j + d + |SubmitType|, m + d) by {
      forall x | j + d + |SubmitType| <= x < m + d
        ensures t[x] != '>'
      {
        assert t[(x - d) + d] == s[x - d];
      }
    }
    assert SubmitParts(t, i + d, j + d, m + d);
  }

  lemma BuildShifted(s: string, t: string, i: int, d: int)
    requires ShiftedFrom(s, t, i, d) && MatchesAt(BuildButton, s, i)
    ensures MatchesAt(BuildButton, t, i + d)
  {
    var j, k, m :| 0 <= j < k < m < |s| && BuildParts(s, i, j, k, m);
    OccursShifted(s, t, i, d, "<button", i);
    OccursShifted(s, t, i, d, "onClick", j);
    OccursShifted(s, t, i, d, "buildImage", k);
    assert t[m + d] == s[m];
    assert Avoids(t, '>', i + d + 7, j + d) by {
      forall x | i + d + 7 <= x < j + d
        ensures t[x] != '>'
      {
        assert t[(x - d) + d] == s[x - d];
      }
    }
    assert OnOneLine(t, j + d + 7, k + d) by {
      forall x | j + d + 7 <= x < k + d
        ensures !IsLineTerminator(t[x])
      {
        assert t[(x - d) + d] == s[x - d];
      }
    }
    assert Avoids(t, '>', k + d + 10, m + d) by {
      forall x | k + d + 10 <= x < m + d
        ensures t[x] != '>'
      {
        assert t[(x - d) + d] == s[x - d];
      }
    }
    assert BuildParts(t, i + d, j + d, k + d, m + d);
  }

  /** The generated block lands immediately before the button it was aimed
      at: after the insertion a match starts right where the block ends. */
  lemma SnippetPrecedesButton(p: ButtonPattern, s: string, snippet: string, i: nat)
    requires i < |s| && MatchesAt(p, s, i)
    ensures MatchesAt(p, s[..i] + snippet + s[i..], i + |snippet|)
  {
    var t := s[..i] + snippet + s[i..];
    assert t[i + |snippet|..] == s[i..];
    MatchesAtSuffix(p, s, i, t, i + |snippet|);
  }
}
