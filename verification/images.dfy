/** The Images page (src/routes/Images.jsx): the table `fetchImages` builds
    from the tool's `images ls` listing, the vectors of the delete, pull and
    tag actions, and the image reference a table row deletes. */
module Images {
  import opened Wrappers
  import opened Text
  import opened Seqs
  import opened ContainerUtils
  import opened Pages

  /** One row of the images table. */
  datatype ImageRow = ImageRow(repository: string, tag: string, id: string, created: string, size: string)

  // ---------------------------------------------------------------------------
  // fetchImages
  // ---------------------------------------------------------------------------

  const ListArgs: seq<string> := ["images", "ls"]

  /** A line of the listing that describes an image: not empty and not the
      header, which starts with `NAME`. */
  predicate ImageLine(line: string) {
    line != [] && !StartsWith(line, "NAME")
  }

  /** The lines of the trimmed output that describe images, in order. */
  function ImageLines(stdout: string): (r: seq<string>)
    ensures forall k :: 0 <= k < |r| ==> ImageLine(r[k]) && '\n' !in r[k]
  {
    Filter(Split(Trim(stdout), '\n'), ImageLine)
  }

  /** A field of the line, or `Unknown` when it is missing or empty. */
  function FieldOr(parts: seq<string>, k: nat): string {
    if k < |parts| && parts[k] != [] then parts[k] else "Unknown"
  }

  /** The first twelve characters of a digest, or the whole of a shorter one. */
  function ShortId(digest: string): (r: string)
    ensures |r| == if |digest| < 12 then |digest| else 12
    ensures r == digest[..|r|]
  {
    if |digest| < 12 then digest else digest[..12]
  }

  /** One table row from a listing line: the columns `NAME TAG DIGEST`
      separated by runs of white space, the digest shortened to an id;
      creation time and size are not in the listing. */
  function ParseImageLine(line: string): (r: ImageRow)
    ensures r.created == "N/A" && r.size == "N/A"
    ensures r.repository != [] && r.tag != [] && r.id != []
  {
    var parts := SplitWs(line);
    ImageRow(
      FieldOr(parts, 0), FieldOr(parts, 1),
      if 2 < |parts| && parts[2] != [] then ShortId(parts[2]) else "Unknown",
      "N/A", "N/A")
  }

  /** The table after a successful fetch: one row per image line. */
  function ImageTable(stdout: string): (r: seq<ImageRow>)
    ensures |r| == |ImageLines(stdout)|
  {
    Map(ImageLines(stdout), ParseImageLine)
  }

  /** What a fetch leaves on the page: the table, and the result shown in
      the output panel (None clears it). A failure empties the table and
      shows the result; a rejection shows it and keeps the table. */
  function FetchImages(prev: seq<ImageRow>, inv: Invocation): (r: (seq<ImageRow>, Option<CommandResult>))
    ensures inv.Completed? && inv.result.success ==> r == (ImageTable(inv.result.stdout), None)
    ensures inv.Completed? && !inv.result.success ==> r == ([], Some(inv.result))
    ensures inv.Rejected? ==> r.0 == prev && r.1 == Some(ResultOf(inv)) && !r.1.value.success
  {
    match inv
    case Completed(res) => if res.success then (ImageTable(res.stdout), None) else ([], Some(res))
    case Rejected(_) => (prev, Some(ResultOf(inv)))
  }

  // ---------------------------------------------------------------------------
  // The listing as the tool prints it, read back
  // ---------------------------------------------------------------------------

  /** An image the tool lists: name, tag and digest, each a non-empty word. */
  datatype Listed = Listed(name: string, tag: string, digest: string)

  predicate Word(s: string) { s != [] && NoSpace(s) }

  predicate Listable(i: Listed) {
    Word(i.name) && Word(i.tag) && Word(i.digest) && !StartsWith(i.name, "NAME")
  }

  /** The listing line of an image, columns one space apart. */
  function LineOf(i: Listed): string {
    Join([i.name, i.tag, i.digest], " ")
  }

  /** The row the page should show for a listed image. */
  function RowOf(i: Listed): ImageRow {
    ImageRow(i.name, i.tag, ShortId(i.digest), "N/A", "N/A")
  }

  /** A header line the listing may start with. */
  predicate Header(h: string) {
    h != [] && StartsWith(h, "NAME") && !IsSpace(h[|h| - 1]) && '\n' !in h
  }

  /** The output of `images ls`: the header and one line per image. */
  function Listing(header: string, images: seq<Listed>): string {
    Join([header] + Map(images, LineOf), "\n")
  }

  lemma ThreeWords(a: string, b: string, c: string)
    ensures Join([a, b, c], " ") == a + " " + (b + " " + c)
  {
    assert [a, b, c][1..] == [b, c];
    assert [b, c][1..] == [c];
    assert Join([c], " ") == c;
    assert Join([b, c], " ") == b + " " + c;
  }

  /** A word followed by a space starts with `NAME` only if the word does. */
  lemma WordPrefix(w: string, rest: string)
    requires NoSpace(w) && rest != [] && IsSpace(rest[0])
    requires StartsWith(w + rest, "NAME")
    ensures StartsWith(w, "NAME")
  {
    var l := w + rest;
    assert l[|w|] == rest[0];
    assert forall j :: 0 <= j < 4 ==> l[j] == "NAME"[j] && !IsSpace("NAME"[j]);
    if |w| < 4 {
      assert false;
    }
    assert w[..4] == l[..4];
  }

  lemma NoNewline(w: string)
    requires NoSpace(w)
    ensures '\n' !in w
  {
    assert IsSpace('\n');
  }

  /** Three words one space apart read back as a row. */
  lemma WordsParse(a: string, b: string, c: string)
    requires Word(a) && Word(b) && Word(c)
    ensures ParseImageLine(Join([a, b, c], " ")) == ImageRow(a, b, ShortId(c), "N/A", "N/A")
  {
    SplitWsJoin([a, b, c]);
  }

  lemma LineOfParses(i: Listed)
    requires Listable(i)
    ensures ParseImageLine(LineOf(i)) == RowOf(i)
    ensures ImageLine(LineOf(i)) && '\n' !in LineOf(i)
    ensures |LineOf(i)| > 0 && !IsSpace(LineOf(i)[|LineOf(i)| - 1])
  {
    WordsParse(i.name, i.tag, i.digest);
    LineOfWords(i.name, i.tag, i.digest);
  }

  lemma LineOfWords(a: string, b: string, c: string)
    requires Word(a) && Word(b) && Word(c) && !StartsWith(a, "NAME")
    ensures var l := Join([a, b, c], " "); ImageLine(l) && '\n' !in l && !IsSpace(l[|l| - 1])
  {
    ThreeWords(a, b, c);
    var rest := " " + (b + " " + c);
    var l := a + rest;
    if StartsWith(l, "NAME") {
      WordPrefix(a, rest);
    }
    NoNewline(a);
    NoNewline(b);
    NoNewline(c);
    assert l[|l| - 1] == c[|c| - 1];
  }

  /** Trimming and splitting a join of lines gives back the lines, when
      none holds a line break and the text neither starts nor ends with
      white space. */
  lemma JoinedLines(lines: seq<string>)
    requires |lines| >= 1 && forall k :: 0 <= k < |lines| ==> '\n' !in lines[k]
    requires lines[0] != [] && !IsSpace(lines[0][0])
    requires var l := lines[|lines| - 1]; l != [] && !IsSpace(l[|l| - 1])
    ensures Split(Trim(Join(lines, "\n")), '\n') == lines
  {
    var s := Join(lines, "\n");
    var last := lines[|lines| - 1];
    JoinStartsWithFirst(lines, "\n");
    JoinEndsWithLast(lines, "\n");
    assert s[0] == lines[0][0] by { assert s[..|lines[0]|] == lines[0]; }
    assert s[|s| - 1] == last[|last| - 1] by { assert s[|s| - |last|..] == last; }
    TrimNonBlankKeepsText(s);
    SplitJoin(lines, '\n');
  }

  /** Trimming and splitting a listing gives back its lines. */
  lemma ListingLines(header: string, images: seq<Listed>)
    requires Header(header)
    requires forall k :: 0 <= k < |images| ==> Listable(images[k])
    ensures Split(Trim(Listing(header, images)), '\n') == [header] + Map(images, LineOf)
  {
    var lines := [header] + Map(images, LineOf);
    forall k | 0 <= k < |lines|
      ensures '\n' !in lines[k]
    {
      if k > 0 {
        LineOfParses(images[k - 1]);
      }
    }
    if |images| > 0 {
      LineOfParses(images[|images| - 1]);
    }
    assert !IsSpace(header[0]) by { assert header[0] == header[..4][0]; }
    JoinedLines(lines);
  }

  /** Reading back the listing of images the tool prints gives one row per
      image, in order, with the name, the tag and the digest's first twelve
      characters. */
  lemma ImageTableRoundTrip(header: string, images: seq<Listed>)
    requires Header(header)
    requires forall k :: 0 <= k < |images| ==> Listable(images[k])
    ensures ImageTable(Listing(header, images)) == Map(images, RowOf)
  {
    ListingLines(header, images);
    var lines := Map(images, LineOf);
    forall k | 0 <= k < |lines|
      ensures ImageLine(lines[k]) && ParseImageLine(lines[k]) == RowOf(images[k])
    {
      LineOfParses(images[k]);
    }
    FilterCons(header, lines, ImageLine);
    FilterAll(lines, ImageLine);
    assert ImageLines(Listing(header, images)) == lines;
  }

  // ---------------------------------------------------------------------------
  // Actions
  // ---------------------------------------------------------------------------

  /** `handleImageAction(action, name)`: the vector; the `delete` test in
      the page maps every action to itself. */
  function ActionArgs(action: string, name: string): (r: seq<string>)
    ensures |r| == 3 && r[0] == "images" && r[1] == action && r[2] == name
  {
    ["images", if action == "delete" then "delete" else action, name]
  }

  /** What an image action leaves: the vector sent, the result shown, and
      whether the images are listed again. */
  datatype ActionOutcome = ActionOutcome(argv: seq<string>, shown: CommandResult, refetch: bool)

  /** `handleImageAction(action, name)` given the outcome of the call: the
      result is shown as a page shows any call's result, and the list is
      fetched again only after a delete the tool reports as successful. */
  function HandleImageAction(action: string, name: string, inv: Invocation): (o: ActionOutcome)
    ensures o.argv == ["images", action, name]
    ensures o.shown == ResultOf(inv)
    ensures o.shown.success <==> inv.Completed? && inv.result.success
    ensures o.refetch <==> inv.Completed? && inv.result.success && action == "delete"
  {
    var shown := ResultOf(inv);
    ActionOutcome(ActionArgs(action, name), shown, shown.success && action == "delete")
  }

  /** The list and the panel once `handleImageAction` has finished, given
      the list before it and the outcome of the listing that a successful
      delete triggers. Without that listing the action's result stays on
      the panel and the list is kept; with it the listing decides both, so
      a listing that succeeds clears the delete's result from the panel. */
  function AfterImageAction(action: string, name: string, inv: Invocation, images: seq<ImageRow>, relist: Invocation): (r: (seq<ImageRow>, Option<CommandResult>))
    ensures var o := HandleImageAction(action, name, inv);
      && (!o.refetch ==> r == (images, Some(o.shown)))
      && (o.refetch ==> r == FetchImages(images, relist))
    ensures r.1.None? <==>
      inv.Completed? && inv.result.success && action == "delete" && relist.Completed? && relist.result.success
  {
    var o := HandleImageAction(action, name, inv);
    if o.refetch then FetchImages(images, relist) else (images, Some(o.shown))
  }

  /** The reference a row's delete button passes: `repository:tag`. */
  function DeleteTarget(row: ImageRow): (r: string)
    ensures |r| == |row.repository| + 1 + |row.tag|
  {
    row.repository + ":" + row.tag
  }

  /** Splitting the reference at its last colon gives back the row's
      repository and tag, when the tag has no colon of its own. */
  lemma DeleteTargetSplits(row: ImageRow)
    requires ':' !in row.tag
    ensures SplitLast(DeleteTarget(row), ':') == Some((row.repository, row.tag))
  {
    SplitLastJoin(row.repository, row.tag, ':');
  }

  /** The pull form: the image name and whether the form is open. */
  datatype PullForm = PullForm(imageName: string, shown: bool)

  /** `handlePullImage`'s vector; None for an empty name. */
  function PullArgs(name: string): (r: Option<seq<string>>)
    ensures r.None? <==> name == []
    ensures r.Some? ==> r.value == ["images", "pull", name]
  {
    if name == [] then None else Some(["images", "pull", name])
  }

  /** `handlePullImage`: a successful pull empties and closes the form;
      the listing that follows is `AfterPull`'s. */
  function HandlePull(form: PullForm, inv: Invocation): (r: Submission<PullForm>)
    ensures r.Aborted? <==> form.imageName == []
    ensures r.Ran? ==> r.argv == ["images", "pull", form.imageName]
    ensures r.Ran? ==> (r.form == PullForm("", false) <==> r.result.success || form == PullForm("", false))
  {
    Submit(PullArgs(form.imageName), "Please enter an image name", inv, form, PullForm("", false))
  }

  /** The tag form. */
  datatype TagForm = TagForm(sourceImage: string, targetTag: string, shown: bool)

  /** `handleTagImage`'s vector; None unless both references are given. */
  function TagArgs(source: string, target: string): (r: Option<seq<string>>)
    ensures r.None? <==> source == [] || target == []
    ensures r.Some? ==> |r.value| == 4 && r.value[2] == source && r.value[3] == target
  {
    if source == [] || target == [] then None else Some(["images", "tag", source, target])
  }

  /** `handleTagImage`: a successful tag empties and closes the form;
      the listing that follows is `AfterTag`'s. */
  function HandleTag(form: TagForm, inv: Invocation): (r: Submission<TagForm>)
    ensures r.Aborted? <==> form.sourceImage == [] || form.targetTag == []
    ensures r.Ran? ==> r.argv == ["images", "tag", form.sourceImage, form.targetTag]
    ensures r.Ran? && r.result.success ==> r.form == TagForm("", "", false)
    ensures r.Ran? && !r.result.success ==> r.form == form
  {
    Submit(TagArgs(form.sourceImage, form.targetTag), "Please enter both source image and target tag", inv, form, TagForm("", "", false))
  }

  /** The list and the panel once a form's submission has finished, given
      those before it and the outcome of the listing a success triggers:
      a refused form changes neither, a failed or rejected call shows its
      result, and a success hands both to the listing. */
  function AfterSubmission<F>(s: Submission<F>, images: seq<ImageRow>, panel: Option<CommandResult>, relist: Invocation): (r: (seq<ImageRow>, Option<CommandResult>))
    ensures s.Ran? && !s.result.success ==> r.0 == images && r.1 == Some(s.result)
  {
    match s
    case Aborted(_) => (images, panel)
    case Ran(_, res, _) => if res.success then FetchImages(images, relist) else (images, Some(res))
  }

  /** The list and the panel once `handlePullImage` has finished: an empty
      name changes neither; a pull that fails or is rejected leaves its
      result shown and the list as it was; a successful pull is followed
      by `fetchImages`, which decides both. So the panel ends empty exactly
      when it was empty and nothing ran, or the pull and the listing both
      succeeded. */
  function AfterPull(form: PullForm, inv: Invocation, images: seq<ImageRow>, panel: Option<CommandResult>, relist: Invocation): (r: (seq<ImageRow>, Option<CommandResult>))
    ensures form.imageName == [] ==> r == (images, panel)
    ensures form.imageName != [] && !(inv.Completed? && inv.result.success) ==> r == (images, Some(ResultOf(inv)))
    ensures form.imageName != [] && inv.Completed? && inv.result.success ==> r == FetchImages(images, relist)
    ensures r.1.None? <==>
      if form.imageName == [] then panel.None?
      else inv.Completed? && inv.result.success && relist.Completed? && relist.result.success
  {
    AfterSubmission(HandlePull(form, inv), images, panel, relist)
  }

  /** The list and the panel once `handleTagImage` has finished, as for a
      pull: a missing reference changes neither, a failure shows its result
      over the unchanged list, and a success hands both to `fetchImages`. */
  function AfterTag(form: TagForm, inv: Invocation, images: seq<ImageRow>, panel: Option<CommandResult>, relist: Invocation): (r: (seq<ImageRow>, Option<CommandResult>))
    ensures form.sourceImage == [] || form.targetTag == [] ==> r == (images, panel)
    ensures form.sourceImage != [] && form.targetTag != [] && !(inv.Completed? && inv.result.success) ==>
      r == (images, Some(ResultOf(inv)))
    ensures form.sourceImage != [] && form.targetTag != [] && inv.Completed? && inv.result.success ==>
      r == FetchImages(images, relist)
    ensures r.1.None? <==>
      if form.sourceImage == [] || form.targetTag == [] then panel.None?
      else inv.Completed? && inv.result.success && relist.Completed? && relist.result.success
  {
    AfterSubmission(HandleTag(form, inv), images, panel, relist)
  }
}
