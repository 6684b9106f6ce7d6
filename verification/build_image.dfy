/** The Build Image page (src/routes/BuildImage.jsx): the argument vector
    `handleBuild` sends, and a reader of such vectors that recovers the
    image reference, the cache switch and the context directory. */
module BuildImage {
  import opened Wrappers
  import opened Text
  import opened ContainerUtils
  import opened Pages

  /** The form's fields. `buildArgs` is shown on the page but never read. */
  datatype BuildForm = BuildForm(imageName: string, tag: string, contextPath: string, buildArgs: string, noCache: bool)

  /** The form as it starts and as a successful build leaves it. */
  const DefaultForm: BuildForm := BuildForm("", "latest", ".", "", false)

  /** A tag that the page spells out after the name: present and not `latest`. */
  predicate NamedTag(tag: string) { tag != [] && tag != "latest" }

  /** The value of `--tag`: `name:tag` for a named tag, the bare name
      otherwise (the tool then applies its own default). */
  function TagValue(f: BuildForm): (r: string)
    ensures |r| >= |f.imageName| && r[..|f.imageName|] == f.imageName
    ensures NamedTag(f.tag) ==> |r| == |f.imageName| + 1 + |f.tag|
    ensures !NamedTag(f.tag) ==> |r| == |f.imageName|
  {
    if NamedTag(f.tag) then f.imageName + ":" + f.tag else f.imageName
  }

  /** Splitting a `--tag` value at its last colon gives back the name and the
      tag the form held, when the tag has no colon of its own; an unnamed
      tag leaves the bare name. */
  lemma TagValueSplits(f: BuildForm)
    ensures NamedTag(f.tag) && ':' !in f.tag ==> SplitLast(TagValue(f), ':') == Some((f.imageName, f.tag))
    ensures !NamedTag(f.tag) ==> TagValue(f) == f.imageName
  {
    if NamedTag(f.tag) && ':' !in f.tag {
      SplitLastJoin(f.imageName, f.tag, ':');
    }
  }

  /** The argument vector of `handleBuild`; None when the image name is
      empty and the page alerts instead. */
  function BuildArgs(f: BuildForm): (r: Option<seq<string>>)
    ensures r.None? <==> f.imageName == []
    ensures r.Some? ==> |r.value| == (if f.noCache then 5 else 4) && r.value[0] == "build"
  {
    if f.imageName == [] then None
    else Some(["build", "--tag", TagValue(f)] + (if f.noCache then ["--no-cache"] else []) + [f.contextPath])
  }

  /** What a build vector asks the tool for. */
  datatype BuildRequest = BuildRequest(reference: string, noCache: bool, context: string)

  /** The request a form makes. */
  function Requested(f: BuildForm): BuildRequest {
    BuildRequest(TagValue(f), f.noCache, f.contextPath)
  }

  /** A reader of build vectors: `build --tag REF [--no-cache] CONTEXT`. */
  function ParseBuildArgs(argv: seq<string>): (r: Option<BuildRequest>)
    ensures r.Some? ==> |argv| >= 4 && argv[0] == "build" && argv[1] == "--tag"
    ensures r.Some? ==> r.value.reference == argv[2] && r.value.context == argv[|argv| - 1]
  {
    if |argv| == 4 && argv[0] == "build" && argv[1] == "--tag" then
      Some(BuildRequest(argv[2], false, argv[3]))
    else if |argv| == 5 && argv[0] == "build" && argv[1] == "--tag" && argv[3] == "--no-cache" then
      Some(BuildRequest(argv[2], true, argv[4]))
    else None
  }

  /** Reading the vector back gives exactly the reference, the cache switch
      and the context directory the form asked for. */
  lemma BuildArgsRoundTrip(f: BuildForm)
    requires f.imageName != []
    ensures ParseBuildArgs(BuildArgs(f).value) == Some(Requested(f))
  {
    var a := BuildArgs(f).value;
    if f.noCache {
      assert a == ["build", "--tag", TagValue(f), "--no-cache", f.contextPath];
    } else {
      assert a == ["build", "--tag", TagValue(f), f.contextPath];
    }
  }

  /** Two forms give the same vector exactly when they make the same
      request: nothing else — in particular not `buildArgs` — reaches the
      tool. */
  lemma BuildArgsDetermined(f: BuildForm, g: BuildForm)
    requires f.imageName != [] && g.imageName != []
    ensures BuildArgs(f) == BuildArgs(g) <==> Requested(f) == Requested(g)
  {
    if BuildArgs(f) == BuildArgs(g) {
      BuildArgsRoundTrip(f);
      BuildArgsRoundTrip(g);
    }
  }

  /** The page's state around a build: the form, the Dockerfile editor's
      text and whether the editor is shown. */
  datatype BuildPage = BuildPage(form: BuildForm, dockerfile: string, showEditor: bool)

  /** `handleBuild`: alerts on an empty name; otherwise builds, and a
      successful build resets the form and closes the emptied editor. */
  function HandleBuild(page: BuildPage, inv: Invocation): (r: Submission<BuildPage>)
    ensures r.Aborted? <==> page.form.imageName == []
    ensures r.Ran? ==> Some(r.argv) == BuildArgs(page.form)
    ensures r.Ran? && r.result.success ==> r.form == BuildPage(DefaultForm, "", false)
    ensures r.Ran? && !r.result.success ==> r.form == page
  {
    Submit(BuildArgs(page.form), "Please enter an image name", inv, page, BuildPage(DefaultForm, "", false))
  }
}
