/** The patch-version bump of the release integrator (scripts/integrate-release.js,
    `updateVersionInfo`): `version.split('.').map(Number)`, the third element
    incremented, the array joined with dots again. */
module VersionBump {
  import opened Text
  import opened Seqs

  /** One element of the version array: a number, `NaN`, or the hole an
      assignment past the end leaves behind. */
  datatype Part = Num(n: nat) | NaN | Hole

  /** `Number(piece)` for a piece of a split on dots: surrounding white space
      is ignored, a blank piece is 0 and a run of decimal digits is its
      value. Every other piece is taken as `NaN` here, although `Number`
      also reads a sign, a `0x`/`0o`/`0b` prefix, an exponent and
      `Infinity`, and rounds integers past 2^53 to the nearest double. */
  function ToNumber(piece: string): (p: Part)
    ensures p != Hole
    ensures IsDigits(piece) ==> p == Num(DigitsValue(piece))
    ensures IsBlank(piece) ==> p == Num(0)
  {
    var t := Trim(piece);
    if t == [] then Num(0)
    else if IsDigits(t) then
      DigitsTrimmed(piece);
      Num(DigitsValue(t))
    else NaN
  }

  /** A run of digits has no surrounding white space. */
  lemma DigitsTrimmed(s: string)
    ensures IsDigits(s) ==> Trim(s) == s
  {
    if IsDigits(s) {
      assert IsDigit(s[0]) && IsDigit(s[|s| - 1]);
      TrimNonBlankKeepsText(s);
    }
  }

  /** `String(x)` for an element, as `join` renders it; a number is written
      in plain decimal, which is what `String` does below 10^21. */
  function Render(p: Part): (r: string)
    ensures p.Num? ==> IsDigits(r) && DigitsValue(r) == p.n
  {
    match p
    case Num(n) => DigitsValueOfNatToString(n); NatToString(n)
    case NaN => "NaN"
    case Hole => ""
  }

  /** `x++` on an element: `NaN` and a missing element both become `NaN`. */
  function Increment(p: Part): (r: Part)
    ensures p.Num? <==> r.Num?
    ensures p.Num? ==> r.n == p.n + 1
  {
    match p
    case Num(n) => Num(n + 1)
    case _ => NaN
  }

  /** `parts[2]++`: writing past the end of a shorter array lengthens it,
      leaving a hole at index 1 when it had a single element. */
  function BumpParts(parts: seq<Part>): (r: seq<Part>)
    requires |parts| >= 1
    ensures |r| == if |parts| >= 3 then |parts| else 3
    ensures forall k :: 0 <= k < |r| && k != 2 ==> r[k] == (if k < |parts| then parts[k] else Hole)
    ensures r[2] == (if |parts| >= 3 then Increment(parts[2]) else NaN)
  {
    if |parts| >= 3 then parts[..2] + [Increment(parts[2])] + parts[3..]
    else if |parts| == 2 then parts + [NaN]
    else parts + [Hole, NaN]
  }

  function BumpVersion(version: string): string {
    var parts := Map(Split(version, '.'), ToNumber);
    Join(Map(BumpParts(parts), Render), ".")
  }

  /** A version of three dot-separated runs of digits, the form
      `/^\d+\.\d+\.\d+$/` accepts. */
  predicate IsSemVer(v: string) {
    var p := Split(v, '.');
    |p| == 3 && IsDigits(p[0]) && IsDigits(p[1]) && IsDigits(p[2])
  }

  /** The numbers a conforming version stands for. */
  function Major(v: string): nat requires IsSemVer(v) { DigitsValue(Split(v, '.')[0]) }
  function Minor(v: string): nat requires IsSemVer(v) { DigitsValue(Split(v, '.')[1]) }
  function Patch(v: string): nat requires IsSemVer(v) { DigitsValue(Split(v, '.')[2]) }

  /** A conforming version stays conforming, with the same major and minor
      numbers and the patch number one higher. */
  lemma BumpKeepsSemVer(v: string)
    requires IsSemVer(v)
    ensures IsSemVer(BumpVersion(v))
    ensures Major(BumpVersion(v)) == Major(v)
    ensures Minor(BumpVersion(v)) == Minor(v)
    ensures Patch(BumpVersion(v)) == Patch(v) + 1
  {
    var x, y, z := Major(v), Minor(v), Patch(v) + 1;
    BumpedPieces(v);
    DigitsValueOfNatToString(x);
    DigitsValueOfNatToString(y);
    DigitsValueOfNatToString(z);
  }

  /** The pieces of a bumped conforming version: the three numbers, the
      last one higher, written without leading zeros. */
  lemma BumpedPieces(v: string)
    requires IsSemVer(v)
    ensures Split(BumpVersion(v), '.') == [NatToString(Major(v)), NatToString(Minor(v)), NatToString(Patch(v) + 1)]
  {
    var x, y, z := Major(v), Minor(v), Patch(v);
    var rendered := [NatToString(x), NatToString(y), NatToString(z + 1)];
    NumbersOfSemVer(v);
    RenderBump(x, y, z);
    assert BumpVersion(v) == Join(rendered, ".");
    SplitDigits(rendered);
  }

  /** `Number` of each piece of a conforming version. */
  lemma NumbersOfSemVer(v: string)
    requires IsSemVer(v)
    ensures Map(Split(v, '.'), ToNumber) == [Num(Major(v)), Num(Minor(v)), Num(Patch(v))]
  {
    NumbersOfDigits(Split(v, '.'));
  }

  lemma NumbersOfDigits(p: seq<string>)
    requires |p| == 3 && IsDigits(p[0]) && IsDigits(p[1]) && IsDigits(p[2])
    ensures Map(p, ToNumber) == [Num(DigitsValue(p[0])), Num(DigitsValue(p[1])), Num(DigitsValue(p[2]))]
  {
    MapThree(p, ToNumber);
    assert ToNumber(p[0]) == Num(DigitsValue(p[0]));
    assert ToNumber(p[1]) == Num(DigitsValue(p[1]));
    assert ToNumber(p[2]) == Num(DigitsValue(p[2]));
  }

  lemma MapThree<T, U>(p: seq<T>, f: T -> U)
    requires |p| == 3
    ensures Map(p, f) == [f(p[0]), f(p[1]), f(p[2])]
  {
  }

  lemma RenderBump(x: nat, y: nat, z: nat)
    ensures Map(BumpParts([Num(x), Num(y), Num(z)]), Render) == [NatToString(x), NatToString(y), NatToString(z + 1)]
  {
    assert BumpParts([Num(x), Num(y), Num(z)]) == [Num(x), Num(y), Num(z + 1)];
  }

  /** Runs of digits joined with dots split back into those runs. */
  lemma SplitDigits(rendered: seq<string>)
    requires |rendered| >= 1
    requires forall k :: 0 <= k < |rendered| ==> IsDigits(rendered[k])
    ensures Split(Join(rendered, "."), '.') == rendered
  {
    forall k | 0 <= k < |rendered|
      ensures '.' !in rendered[k]
    {
      assert IsDigits(rendered[k]);
    }
    SplitJoin(rendered, '.');
  }

  /** Versions without a third number come out with `NaN` in third place;
      a version without dots also gets an empty second number. */
  lemma ShortVersionsGetNaN(v: string)
    requires |Split(v, '.')| < 3
    ensures Split(BumpVersion(v), '.')[|Split(BumpVersion(v), '.')| - 1] == "NaN"
    ensures |Split(v, '.')| == 1 ==> Split(BumpVersion(v), '.')[1] == ""
  {
    var p := Split(v, '.');
    var parts := Map(p, ToNumber);
    var rendered := Map(BumpParts(parts), Render);
    assert |rendered| == 3 && rendered[2] == "NaN";
    forall k | 0 <= k < 3
      ensures '.' !in rendered[k]
    {
      if k < |p| {
        assert parts[k] != Hole;
        if parts[k].Num? {
          assert IsDigits(rendered[k]);
        }
      }
    }
    SplitJoin(rendered, '.');
  }
}
