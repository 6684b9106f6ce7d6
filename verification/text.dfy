/** The JavaScript string primitives the application builds on — `\s`, `\w`,
    `trim`, `includes`, `indexOf`, `lastIndexOf`, `split`, `join`, ASCII case
    conversion and number rendering — stated over strings of code points. */
module Text {
  import opened Wrappers

  // ---------------------------------------------------------------------------
  // Character classes
  // ---------------------------------------------------------------------------

  /** The `\s` class of JavaScript regular expressions, which is also the set of
      code points that `String.prototype.trim` removes: the WhiteSpace and
      LineTerminator code points of ECMA-262. */
  predicate IsSpace(c: char) {
    || c == '\t' || c == '\n' || c == '\U{B}' || c == '\U{C}' || c == '\r' || c == ' '
    || c == '\U{A0}' || c == '\U{1680}' || ('\U{2000}' <= c <= '\U{200A}')
    || c == '\U{2028}' || c == '\U{2029}' || c == '\U{202F}' || c == '\U{205F}'
    || c == '\U{3000}' || c == '\U{FEFF}'
  }

  /** The code points that the regular-expression `.` does not match. */
  predicate IsLineTerminator(c: char) {
    c == '\n' || c == '\r' || c == '\U{2028}' || c == '\U{2029}'
  }

  predicate IsDigit(c: char) { '0' <= c <= '9' }
  predicate IsUpper(c: char) { 'A' <= c <= 'Z' }
  predicate IsLower(c: char) { 'a' <= c <= 'z' }

  /** The opening and the closing curly brace. */
  const OpenBrace: char := '\U{7B}'
  const CloseBrace: char := '\U{7D}'

  /** The `\w` class: ASCII letters, digits and underscore. */
  predicate IsWordChar(c: char) { IsUpper(c) || IsLower(c) || IsDigit(c) || c == '_' }

  function ToLowerChar(c: char): char {
    if IsUpper(c) then (c as int + 32) as char else c
  }

  function ToUpperChar(c: char): char {
    if IsLower(c) then (c as int - 32) as char else c
  }

  /** ASCII lower-casing, which is what a case-insensitive match of an
      all-ASCII pattern compares. */
  function Lower(s: string): (r: string)
    ensures |r| == |s|
    ensures forall i :: 0 <= i < |s| ==> r[i] == ToLowerChar(s[i])
  {
    seq(|s|, i requires 0 <= i < |s| => ToLowerChar(s[i]))
  }

  /** `s.charAt(0).toUpperCase() + s.slice(1)` on ASCII letters. */
  function Capitalize(s: string): (r: string)
    ensures |r| == |s|
    ensures |s| > 0 ==> r[0] == ToUpperChar(s[0]) && r[1..] == s[1..]
  {
    if |s| == 0 then s else [ToUpperChar(s[0])] + s[1..]
  }

  /** A non-empty run of `\w` characters, the capture of `(\w+)`. */
  predicate IsWord(s: string) {
    |s| > 0 && forall i :: 0 <= i < |s| ==> IsWordChar(s[i])
  }

  /** The end of the run of `\w` characters that starts at i: where a greedy
      `\w+` or `\w*` stops. */
  function WordEnd(s: string, i: nat): (k: nat)
    requires i <= |s|
    ensures i <= k <= |s|
    ensures forall j :: i <= j < k ==> IsWordChar(s[j])
    ensures k < |s| ==> !IsWordChar(s[k])
    decreases |s| - i
  {
    if i < |s| && IsWordChar(s[i]) then WordEnd(s, i + 1) else i
  }

  predicate IsBlank(s: string) {
    forall i :: 0 <= i < |s| ==> IsSpace(s[i])
  }

  /** A non-empty run of ASCII digits, the `\d+` of a regular expression. */
  predicate IsDigits(s: string) {
    |s| > 0 && forall i :: 0 <= i < |s| ==> IsDigit(s[i])
  }

  // ---------------------------------------------------------------------------
  // Substrings
  // ---------------------------------------------------------------------------

  predicate OccursAt(s: string, p: string, i: int) {
    0 <= i && i + |p| <= |s| && s[i..i + |p|] == p
  }

  /** A one-character pattern occurs exactly where that character stands. */
  lemma OccursChar(s: string, c: char, i: int)
    ensures OccursAt(s, [c], i) <==> 0 <= i < |s| && s[i] == c
  {
    if 0 <= i < |s| {
      assert s[i..i + 1] == [s[i]];
    }
  }

  /** No line terminator among s[a..b]: what `.{n}` or `.*` demands of the
      characters it covers. */
  predicate OnOneLine(s: string, a: int, b: int)
    requires 0 <= a <= b <= |s|
  {
    forall j :: a <= j < b ==> !IsLineTerminator(s[j])
  }

  /** The character c does not occur among s[a..b]: what `[^c]*` demands. */
  predicate Avoids(s: string, c: char, a: int, b: int)
    requires 0 <= a <= b <= |s|
  {
    forall j :: a <= j < b ==> s[j] != c
  }

  /** `s.includes(p)`. */
  predicate Contains(s: string, p: string) {
    exists i :: 0 <= i <= |s| - |p| && OccursAt(s, p, i)
  }

  /** `s.startsWith(p)`. */
  predicate StartsWith(s: string, p: string) {
    OccursAt(s, p, 0)
  }

  /** Case-insensitive `includes` of a lower-case ASCII pattern. */
  predicate ContainsCI(s: string, p: string) {
    Contains(Lower(s), p)
  }

  /** The least position from i on, below n, at which p holds: how a regular
      expression search tries each starting position from left to right. */
  function FirstFrom(n: nat, p: nat -> bool, i: nat): (r: Option<nat>)
    requires i <= n
    ensures r.Some? ==> i <= r.value < n && p(r.value)
    ensures r.Some? ==> forall j :: i <= j < r.value ==> !p(j)
    ensures r.None? ==> forall j :: i <= j < n ==> !p(j)
    decreases n - i
  {
    if i == n then None
    else if p(i) then Some(i)
    else FirstFrom(n, p, i + 1)
  }

  function IndexOfFrom(s: string, p: string, i: nat): (r: Option<nat>)
    requires i <= |s|
    ensures r.Some? ==> i <= r.value && OccursAt(s, p, r.value)
    ensures r.Some? ==> forall j :: i <= j < r.value ==> !OccursAt(s, p, j)
    ensures r.None? ==> forall j :: i <= j ==> !OccursAt(s, p, j)
    decreases |s| - i
  {
    if OccursAt(s, p, i) then Some(i)
    else if i == |s| then None
    else IndexOfFrom(s, p, i + 1)
  }

  /** `s.indexOf(p)`, with None for -1. */
  function IndexOf(s: string, p: string): (r: Option<nat>)
    ensures r.Some? ==> OccursAt(s, p, r.value) && forall j :: 0 <= j < r.value ==> !OccursAt(s, p, j)
    ensures r.None? <==> !Contains(s, p)
  {
    IndexOfFrom(s, p, 0)
  }

  function LastIndexAtOrBefore(s: string, p: string, i: nat): (r: Option<nat>)
    ensures r.Some? ==> r.value <= i && OccursAt(s, p, r.value)
    ensures r.Some? ==> forall j :: r.value < j <= i ==> !OccursAt(s, p, j)
    ensures r.None? ==> forall j :: 0 <= j <= i ==> !OccursAt(s, p, j)
    decreases i
  {
    if OccursAt(s, p, i) then Some(i)
    else if i == 0 then None
    else LastIndexAtOrBefore(s, p, i - 1)
  }

  /** `s.lastIndexOf(p)`, with None for -1. */
  function LastIndexOf(s: string, p: string): (r: Option<nat>)
    ensures r.Some? ==> OccursAt(s, p, r.value) && forall j :: r.value < j ==> !OccursAt(s, p, j)
    ensures r.None? <==> !Contains(s, p)
  {
    LastIndexAtOrBefore(s, p, |s|)
  }

  /** An occurrence inside a slice is an occurrence in the whole string. */
  lemma OccursInSlice(s: string, a: int, b: int, p: string, i: int)
    requires 0 <= a <= b <= |s|
    requires OccursAt(s[a..b], p, i)
    ensures OccursAt(s, p, a + i)
  {
    assert i + |p| <= b - a;
    forall k | 0 <= k < |p|
      ensures s[a + i + k] == p[k]
    {
      assert s[a..b][i..i + |p|][k] == p[k];
    }
    assert s[a + i..a + i + |p|] == p;
  }

  lemma ContainsInfix(s: string, a: int, b: int, p: string)
    requires 0 <= a <= b <= |s|
    requires Contains(s[a..b], p)
    ensures Contains(s, p)
  {
    var i :| 0 <= i <= b - a - |p| && OccursAt(s[a..b], p, i);
    OccursInSlice(s, a, b, p, i);
  }

  /** Containment is transitive. */
  lemma ContainsTrans(a: string, b: string, c: string)
    requires Contains(a, b) && Contains(b, c)
    ensures Contains(a, c)
  {
    var i :| 0 <= i <= |a| - |b| && OccursAt(a, b, i);
    assert a[i..i + |b|] == b;
    ContainsInfix(a, i, i + |b|, c);
  }

  /** The middle of a concatenation is contained in it. */
  lemma ContainsMiddle(a: string, m: string, b: string)
    ensures Contains(a + m + b, m)
  {
    assert (a + m + b)[|a|..|a| + |m|] == m;
    assert OccursAt(a + m + b, m, |a|);
  }

  /** The front of a concatenation is contained in it. */
  lemma ContainsPrefix(a: string, b: string)
    ensures Contains(a + b, a)
  {
    assert (a + b)[..|a|] == a;
    assert OccursAt(a + b, a, 0);
  }

  /** A piece of a blank text is blank. */
  lemma BlankInfix(s: string, p: string)
    requires IsBlank(s) && Contains(s, p)
    ensures IsBlank(p)
  {
    var i :| 0 <= i <= |s| - |p| && OccursAt(s, p, i);
    forall k | 0 <= k < |p|
      ensures IsSpace(p[k])
    {
      assert p[k] == s[i + k];
    }
  }

  // ---------------------------------------------------------------------------
  // trim
  // ---------------------------------------------------------------------------

  function SkipSpaces(s: string, i: nat): (k: nat)
    requires i <= |s|
    ensures i <= k <= |s|
    ensures forall j :: i <= j < k ==> IsSpace(s[j])
    ensures k < |s| ==> !IsSpace(s[k])
    decreases |s| - i
  {
    if i < |s| && IsSpace(s[i]) then SkipSpaces(s, i + 1) else i
  }

  /** What `SkipSpaces` skips is white space. */
  lemma SkippedIsBlank(s: string, i: nat)
    requires i <= |s|
    ensures IsBlank(s[i..SkipSpaces(s, i)])
  {
    var k := SkipSpaces(s, i);
    forall j | 0 <= j < k - i
      ensures IsSpace(s[i..k][j])
    {
      assert s[i..k][j] == s[i + j];
    }
  }

  function SkipSpacesBack(s: string, lo: nat, e: nat): (k: nat)
    requires lo <= e <= |s|
    ensures lo <= k <= e
    ensures forall j :: k <= j < e ==> IsSpace(s[j])
    ensures k > lo ==> !IsSpace(s[k - 1])
    decreases e
  {
    if e > lo && IsSpace(s[e - 1]) then SkipSpacesBack(s, lo, e - 1) else e
  }

  /** `s.trim()`: the text between the leading and the trailing run of spaces. */
  function Trim(s: string): (r: string)
    ensures IsBlank(s) <==> r == []
    ensures r != [] ==> !IsSpace(r[0]) && !IsSpace(r[|r| - 1])
  {
    var a := SkipSpaces(s, 0);
    var b := SkipSpacesBack(s, a, |s|);
    assert IsBlank(s) ==> a == |s|;
    assert a < |s| ==> a < b;
    s[a..b]
  }

  /** What `trim` drops is white space on either side of the text it keeps. */
  lemma TrimMargins(s: string)
    ensures exists a :: OccursAt(s, Trim(s), a) && IsBlank(s[..a]) && IsBlank(s[a + |Trim(s)|..])
  {
    var a := SkipSpaces(s, 0);
    var b := SkipSpacesBack(s, a, |s|);
    var r := s[a..b];
    assert Trim(s) == r;
    assert OccursAt(s, r, a);
    assert IsBlank(s[..a]) by {
      forall j | 0 <= j < a
        ensures IsSpace(s[..a][j])
      {
        assert s[..a][j] == s[j];
      }
    }
    assert IsBlank(s[a + |r|..]) by {
      forall j | 0 <= j < |s| - b
        ensures IsSpace(s[b..][j])
      {
        assert s[b..][j] == s[b + j];
      }
      assert s[a + |r|..] == s[b..];
    }
  }

  lemma TrimIdempotent(s: string)
    ensures Trim(Trim(s)) == Trim(s)
  {
    var t := Trim(s);
    if t != [] {
      assert SkipSpaces(t, 0) == 0;
      assert SkipSpacesBack(t, 0, |t|) == |t|;
    }
  }

  lemma TrimNonBlankKeepsText(s: string)
    requires s != [] && !IsSpace(s[0]) && !IsSpace(s[|s| - 1])
    ensures Trim(s) == s
  {
    assert SkipSpaces(s, 0) == 0;
    assert SkipSpacesBack(s, 0, |s|) == |s|;
  }

  lemma ContainsTrim(s: string)
    ensures Contains(s, Trim(s))
  {
    assert OccursAt(s, Trim(s), SkipSpaces(s, 0));
  }

  // ---------------------------------------------------------------------------
  // split / join
  // ---------------------------------------------------------------------------

  function IndexOfChar(s: string, c: char): (r: Option<nat>)
    ensures r.Some? ==> r.value < |s| && s[r.value] == c && c !in s[..r.value]
    ensures r.None? ==> c !in s
  {
    if |s| == 0 then None
    else if s[0] == c then Some(0)
    else match IndexOfChar(s[1..], c)
      case None => None
      case Some(k) =>
        assert s[..k + 1] == [s[0]] + s[1..][..k];
        Some(k + 1)
  }

  /** `parts.join(sep)`. */
  function Join(parts: seq<string>, sep: string): string
  {
    if |parts| == 0 then ""
    else if |parts| == 1 then parts[0]
    else parts[0] + sep + Join(parts[1..], sep)
  }

  /** Every part is contained in the join. */
  lemma {:induction false} JoinContains(parts: seq<string>, sep: string, k: int)
    requires 0 <= k < |parts|
    ensures Contains(Join(parts, sep), parts[k])
    decreases |parts|
  {
    if |parts| == 1 {
      ContainsMiddle([], parts[0], []);
      assert [] + parts[0] + [] == parts[0];
    } else if k == 0 {
      ContainsMiddle([], parts[0], sep + Join(parts[1..], sep));
      assert [] + parts[0] + (sep + Join(parts[1..], sep)) == Join(parts, sep);
    } else {
      JoinContains(parts[1..], sep, k - 1);
      var rest := Join(parts[1..], sep);
      ContainsMiddle(parts[0] + sep, rest, []);
      assert parts[0] + sep + rest + [] == Join(parts, sep);
      ContainsTrans(Join(parts, sep), rest, parts[k]);
    }
  }

  /** `s.split(sep)` with a one-character separator: the pieces between the
      separators, in order, including empty ones at either end. */
  function Split(s: string, sep: char): (parts: seq<string>)
    ensures |parts| >= 1
    ensures forall i :: 0 <= i < |parts| ==> sep !in parts[i]
    ensures Join(parts, [sep]) == s
    decreases |s|
  {
    match IndexOfChar(s, sep)
    case None => [s]
    case Some(i) =>
      var rest := Split(s[i + 1..], sep);
      assert s == s[..i] + [sep] + s[i + 1..];
      [s[..i]] + rest
  }

  /** Every piece of a split is a piece of the original text. */
  lemma SplitPiecesOccur(s: string, sep: char, k: int)
    requires 0 <= k < |Split(s, sep)|
    ensures Contains(s, Split(s, sep)[k])
    decreases |s|
  {
    match IndexOfChar(s, sep)
    case None =>
      SplitWhole(s, sep);
      ContainsSlice(s, 0, |s|);
      assert s[0..|s|] == s;
    case Some(i) =>
      SplitAtFirst(s, sep);
      if k == 0 {
        ContainsSlice(s, 0, i);
      } else {
        SplitPiecesOccur(s[i + 1..], sep, k - 1);
        ContainsSuffix(s, i + 1, Split(s[i + 1..], sep)[k - 1]);
      }
  }

  /** What a suffix contains, the text contains. */
  lemma ContainsSuffix(s: string, a: int, p: string)
    requires 0 <= a <= |s| && Contains(s[a..], p)
    ensures Contains(s, p)
  {
    assert s[a..|s|] == s[a..];
    ContainsInfix(s, a, |s|, p);
  }

  /** A slice of a text is contained in it. */
  lemma ContainsSlice(s: string, a: int, b: int)
    requires 0 <= a <= b <= |s|
    ensures Contains(s, s[a..b])
  {
    assert OccursAt(s, s[a..b], a);
  }

  /** Splitting a join of separator-free pieces gives the pieces back. */
  lemma {:induction false} SplitJoin(parts: seq<string>, sep: char)
    requires |parts| >= 1
    requires forall i :: 0 <= i < |parts| ==> sep !in parts[i]
    ensures Split(Join(parts, [sep]), sep) == parts
    decreases |parts|
  {
    var s := Join(parts, [sep]);
    if |parts| == 1 {
      assert IndexOfChar(s, sep).None?;
    } else {
      var tail := Join(parts[1..], [sep]);
      assert s == parts[0] + [sep] + tail;
      var i := |parts[0]|;
      assert s[i] == sep && s[..i] == parts[0];
      assert IndexOfChar(s, sep) == Some(i);
      assert s[i + 1..] == tail;
      SplitJoin(parts[1..], sep);
    }
  }

  function FindSpace(s: string, i: nat): (k: nat)
    requires i <= |s|
    ensures i <= k <= |s|
    ensures forall j :: i <= j < k ==> !IsSpace(s[j])
    ensures k < |s| ==> IsSpace(s[k])
    decreases |s| - i
  {
    if i < |s| && !IsSpace(s[i]) then FindSpace(s, i + 1) else i
  }

  predicate NoSpace(s: string) {
    forall i :: 0 <= i < |s| ==> !IsSpace(s[i])
  }

  /** `s.split(/\s+/)`: the pieces between maximal runs of spaces; a leading
      run gives an empty first piece and a trailing run an empty last piece. */
  function SplitWs(s: string): (parts: seq<string>)
    ensures |parts| >= 1
    ensures forall k :: 0 <= k < |parts| ==> NoSpace(parts[k])
    ensures |s| > 0 && !IsSpace(s[0]) ==> parts[0] != []
    ensures forall k :: 0 < k < |parts| - 1 ==> parts[k] != []
    ensures NoSpace(s) ==> parts == [s]
    decreases |s|
  {
    var i := FindSpace(s, 0);
    if i == |s| then [s]
    else
      var j := SkipSpaces(s, i);
      [s[..i]] + SplitWs(s[j..])
  }

  /** Splitting a line of space-separated words at white space gives the
      words back. */
  lemma {:induction false} SplitWsJoin(parts: seq<string>)
    requires |parts| >= 1
    requires forall k :: 0 <= k < |parts| ==> parts[k] != [] && NoSpace(parts[k])
    ensures SplitWs(Join(parts, " ")) == parts
    decreases |parts|
  {
    if |parts| > 1 {
      var p := parts[0];
      var t := Join(parts[1..], " ");
      var s := Join(parts, " ");
      assert s == p + " " + t;
      JoinStartsWithFirst(parts[1..], " ");
      assert parts[1..][0] == parts[1];
      assert t[0] == parts[1][0];
      assert s[|p|] == ' ' && s[|p| + 1] == t[0];
      assert forall j :: 0 <= j < |p| ==> s[j] == p[j];
      assert FindSpace(s, 0) == |p|;
      assert SkipSpaces(s, |p|) == |p| + 1 by {
        assert SkipSpaces(s, |p| + 1) == |p| + 1;
      }
      assert s[..|p|] == p && s[|p| + 1..] == t;
      assert forall k :: 0 <= k < |parts| - 1 ==> parts[1..][k] == parts[k + 1];
      SplitWsJoin(parts[1..]);
    }
  }

  /** A join starts with its first part. */
  lemma JoinStartsWithFirst(parts: seq<string>, sep: string)
    requires |parts| >= 1
    ensures |Join(parts, sep)| >= |parts[0]| && Join(parts, sep)[..|parts[0]|] == parts[0]
  {
    if |parts| > 1 {
      assert Join(parts, sep) == parts[0] + (sep + Join(parts[1..], sep));
    }
  }

  /** A join ends with its last part. */
  lemma {:induction false} JoinEndsWithLast(parts: seq<string>, sep: string)
    requires |parts| >= 1
    ensures var j := Join(parts, sep); var l := parts[|parts| - 1]; |j| >= |l| && j[|j| - |l|..] == l
    decreases |parts|
  {
    if |parts| > 1 {
      JoinEndsWithLast(parts[1..], sep);
      assert Join(parts, sep) == (parts[0] + sep) + Join(parts[1..], sep);
    }
  }

  /** A split has a single piece exactly when the separator is absent. */
  lemma SplitSingle(s: string, c: char)
    ensures |Split(s, c)| == 1 <==> c !in s
  {
    var parts := Split(s, c);
    if |parts| == 1 {
      assert Join(parts, [c]) == parts[0];
    }
  }

  /** The first piece of a split is the text before the first separator. */
  lemma SplitFirstBefore(a: string, c: char, b: string)
    requires c !in a
    ensures Split(a + [c] + b, c)[0] == a
  {
    var s := a + [c] + b;
    assert s[|a|] == c;
    var i := IndexOfChar(s, c).value;
    assert forall j :: 0 <= j < |a| ==> s[j] == a[j];
    assert forall j :: 0 <= j < i ==> s[..i][j] == s[j];
    assert i == |a|;
    assert s[..i] == a;
  }

  /** A text without the separator splits into itself. */
  lemma SplitWhole(s: string, c: char)
    requires c !in s
    ensures Split(s, c) == [s]
  {
  }

  /** Splitting at the first separator. */
  lemma SplitAtFirst(s: string, c: char)
    requires IndexOfChar(s, c).Some?
    ensures var i := IndexOfChar(s, c).value; Split(s, c) == [s[..i]] + Split(s[i + 1..], c)
  {
  }

  /** Joining one more part appends the separator and that part. */
  lemma {:induction false} JoinSnoc(parts: seq<string>, sep: string, x: string)
    requires |parts| >= 1
    ensures Join(parts + [x], sep) == Join(parts, sep) + sep + x
    decreases |parts|
  {
    if |parts| > 1 {
      assert (parts + [x])[1..] == parts[1..] + [x];
      JoinSnoc(parts[1..], sep, x);
    }
  }

  /** The last piece of a split is the text after the last separator. */
  lemma SplitLastAfter(a: string, c: char, b: string)
    requires c !in b
    ensures var parts := Split(a + [c] + b, c); |parts| >= 2 && parts[|parts| - 1] == b
  {
    var front := Split(a, c);
    JoinSnoc(front, [c], b);
    SplitJoin(front + [b], c);
  }

  /** The text before and after the last occurrence of `c`. */
  function SplitLast(s: string, c: char): (r: Option<(string, string)>)
    ensures r.None? <==> c !in s
    ensures r.Some? ==> s == r.value.0 + [c] + r.value.1 && c !in r.value.1
  {
    match LastIndexOf(s, [c])
    case None =>
      assert forall i :: 0 <= i < |s| && s[i] == c ==> OccursAt(s, [c], i);
      None
    case Some(i) =>
      var b := s[i + 1..];
      assert c !in b by {
        forall j | 0 <= j < |b| ensures b[j] != c {
          OccursChar(s, c, i + 1 + j);
        }
      }
      assert s == s[..i] + [c] + b;
      Some((s[..i], b))
  }

  /** The characters after the separator are those of the second text. */
  lemma AfterSeparator(x: string, c: char, y: string, i: int)
    requires |x| < i < |x| + 1 + |y|
    ensures (x + [c] + y)[i] == y[i - |x| - 1]
  {
  }

  /** Joining two texts with a character missing from the second is undone by
      splitting at the last occurrence of that character. */
  lemma SplitLastJoin(a: string, b: string, c: char)
    requires c !in b
    ensures SplitLast(a + [c] + b, c) == Some((a, b))
  {
    var s := a + [c] + b;
    var r := SplitLast(s, c);
    assert c in s by { assert s[|a|] == c; }
    var x := r.value.0;
    var y := r.value.1;
    assert s[|a|] == c;
    if |x| < |a| {
      AfterSeparator(x, c, y, |a|);
      assert false;
    } else if |x| > |a| {
      AfterSeparator(a, c, b, |x|);
      assert false;
    }
    assert x == s[..|a|] == a;
  }

  // ---------------------------------------------------------------------------
  // Numbers
  // ---------------------------------------------------------------------------

  function DigitChar(d: nat): (c: char)
    requires d < 10
    ensures IsDigit(c)
  {
    ('0' as int + d) as char
  }

  /** `String(n)` for a non-negative integer. */
  function NatToString(n: nat): (r: string)
    ensures IsDigits(r)
    decreases n
  {
    if n < 10 then [DigitChar(n)] else NatToString(n / 10) + [DigitChar(n % 10)]
  }

  /** `String(i)` for any integer. */
  function IntToString(i: int): string
  {
    if i < 0 then "-" + NatToString(-i) else NatToString(i)
  }

  /** The value of a run of decimal digits (leading zeros allowed). */
  function DigitsValue(s: string): nat
    requires forall i :: 0 <= i < |s| ==> IsDigit(s[i])
    decreases |s|
  {
    if |s| == 0 then 0
    else
      assert IsDigit(s[|s| - 1]);
      DigitsValue(s[..|s| - 1]) * 10 + (s[|s| - 1] as int - '0' as int)
  }

  /** Reading back the decimal rendering of a number gives the number. */
  lemma {:induction false} DigitsValueOfNatToString(n: nat)
    ensures DigitsValue(NatToString(n)) == n
    decreases n
  {
    var s := NatToString(n);
    if n >= 10 {
      DigitsValueOfNatToString(n / 10);
      assert s[..|s| - 1] == NatToString(n / 10);
    }
  }

  /** A template's text: its fixed segments with the holes' text between
      them, segment 0, hole 0, segment 1, and so on. */
  function Fill(segments: seq<string>, holes: seq<string>): (r: string)
    requires |segments| == |holes| + 1
    ensures |r| >= |segments[0]|
    decreases |holes|
  {
    if |holes| == 0 then segments[0]
    else Fill(segments[..|holes|], holes[..|holes| - 1]) + holes[|holes| - 1] + segments[|holes|]
  }

  /** A two-hole template is its three segments with the holes between them. */
  lemma FillTwo(segments: seq<string>, a: string, b: string)
    requires |segments| == 3
    ensures Fill(segments, [a, b]) == segments[0] + a + segments[1] + b + segments[2]
  {
    var front := segments[..2];
    assert [a, b][..1] == [a];
    assert Fill(front, [a]) == Fill(front[..1], []) + a + front[1];
    assert Fill(front, [a]) == segments[0] + a + segments[1];
    assert Fill(segments, [a, b]) == Fill(front, [a]) + b + segments[2];
  }

  /** Lower-casing twice is lower-casing once. */
  lemma LowerIdempotent(s: string)
    ensures Lower(Lower(s)) == Lower(s)
  {
  }

  /** Both holes of a two-hole template are in its text. */
  lemma FillTwoHoles(segments: seq<string>, a: string, b: string)
    requires |segments| == 3
    ensures Contains(Fill(segments, [a, b]), a) && Contains(Fill(segments, [a, b]), b)
  {
    var s0, s1, s2 := segments[0], segments[1], segments[2];
    FillTwo(segments, a, b);
    ContainsMiddle(s0, a, s1 + b + s2);
    assert s0 + a + (s1 + b + s2) == Fill(segments, [a, b]);
    ContainsMiddle(s0 + a + s1, b, s2);
  }

  /** Each hole of a two-hole template is in its text together with the
      characters that frame it: the segment before ends with `p` and the
      segment between starts with `q` and ends with `u`, and the segment after
      starts with `e`. */
  lemma FramedHoles(h: string, p: string, a: string, q: string, m: string, u: string, b: string, e: string, t: string)
    ensures Contains((h + p) + a + (q + m + u) + b + (e + t), p + a + q)
    ensures Contains((h + p) + a + (q + m + u) + b + (e + t), u + b + e)
  {
    var r := (h + p) + a + (q + m + u) + b + (e + t);
    ContainsMiddle(h, p + a + q, m + u + b + e + t);
    assert h + (p + a + q) + (m + u + b + e + t) == r;
    ContainsMiddle(h + p + a + q + m, u + b + e, t);
    assert h + p + a + q + m + (u + b + e) + t == r;
  }
}
