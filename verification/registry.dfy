/** The Registry page (src/routes/Registry.jsx): logging in with the
    password on standard input, pushing under an optional repository,
    pulling, and setting the default registry. */
module Registry {
  import opened Wrappers
  import opened Text
  import opened ContainerUtils
  import opened Pages
  import Images

  /** The registry the page logs in to when the field is left empty. */
  const DefaultRegistry: string := "registry-1.docker.io"

  /** The login form. */
  datatype LoginForm = LoginForm(registry: string, username: string, password: string)

  const EmptyLogin: LoginForm := LoginForm("", "", "")

  /** The registry a login goes to. */
  function LoginRegistry(f: LoginForm): (r: string)
    ensures r != []
    ensures f.registry != [] ==> r == f.registry
  {
    if f.registry == [] then DefaultRegistry else f.registry
  }

  /** A login: the argument vector and what is written to the tool's
      standard input. */
  datatype LoginCall = LoginCall(argv: seq<string>, stdin: string)

  /** `handleLogin`'s call; None unless both a user name and a password are
      given. */
  function Login(f: LoginForm): (r: Option<LoginCall>)
    ensures r.None? <==> f.username == [] || f.password == []
    ensures r.Some? ==> r.value.stdin == f.password && |r.value.argv| == 6
  {
    if f.username == [] || f.password == [] then None
    else Some(LoginCall(["registry", "login", "--username", f.username, "--password-stdin", LoginRegistry(f)], f.password))
  }

  /** A reader of login vectors: the user name and the registry. */
  function ParseLogin(argv: seq<string>): (r: Option<(string, string)>)
    ensures r.Some? ==> |argv| == 6 && r.value == (argv[3], argv[5])
  {
    if |argv| == 6 && argv[..3] == ["registry", "login", "--username"] && argv[4] == "--password-stdin"
    then Some((argv[3], argv[5]))
    else None
  }

  /** The vector names the user and the registry, and the password travels
      only on standard input: two forms that differ only in a (given)
      password send the same vector. */
  lemma LoginRoundTrip(f: LoginForm, password: string)
    requires f.username != [] && f.password != [] && password != []
    ensures ParseLogin(Login(f).value.argv) == Some((f.username, LoginRegistry(f)))
    ensures Login(f.(password := password)).value.argv == Login(f).value.argv
  {
    assert Login(f).value.argv[..3] == ["registry", "login", "--username"];
  }

  /** Leaving the registry empty is the same as naming the default. */
  lemma EmptyRegistryIsDefault(f: LoginForm)
    ensures Login(f.(registry := "")) == Login(f.(registry := DefaultRegistry))
  {
  }

  /** `handleLogin`: a successful login empties the form. */
  function HandleLogin(f: LoginForm, inv: Invocation): (r: Submission<LoginForm>)
    ensures r.Aborted? <==> f.username == [] || f.password == []
    ensures r.Ran? ==> r.argv == Login(f).value.argv
    ensures r.Ran? && r.result.success ==> r.form == EmptyLogin
    ensures r.Ran? && !r.result.success ==> r.form == f
  {
    var call := Login(f);
    Submit(if call.None? then None else Some(call.value.argv), "Please enter username and password", inv, f, EmptyLogin)
  }

  /** The push form. */
  datatype PushForm = PushForm(imageName: string, repository: string)

  /** The reference pushed: `repository/image`, or the bare image without
      a repository. */
  function PushTarget(f: PushForm): (r: string)
    ensures f.repository == [] ==> r == f.imageName
    ensures f.repository != [] ==> |r| == |f.repository| + 1 + |f.imageName|
  {
    if f.repository == [] then f.imageName else f.repository + "/" + f.imageName
  }

  /** Splitting the pushed reference at its last slash gives back the
      repository and the image, when the image has no slash of its own; a
      bare image has no slash at all. */
  lemma PushTargetSplits(f: PushForm)
    requires '/' !in f.imageName
    ensures f.repository != [] ==> SplitLast(PushTarget(f), '/') == Some((f.repository, f.imageName))
    ensures f.repository == [] ==> SplitLast(PushTarget(f), '/').None?
  {
    if f.repository != [] {
      SplitLastJoin(f.repository, f.imageName, '/');
    }
  }

  /** `handlePush`'s vector; None for an empty image name. */
  function PushArgs(f: PushForm): (r: Option<seq<string>>)
    ensures r.None? <==> f.imageName == []
    ensures r.Some? ==> r.value == ["images", "push", PushTarget(f)]
  {
    if f.imageName == [] then None else Some(["images", "push", PushTarget(f)])
  }

  /** `handlePush`: a successful push empties the form. */
  function HandlePush(f: PushForm, inv: Invocation): (r: Submission<PushForm>)
    ensures r.Aborted? <==> f.imageName == []
    ensures r.Ran? && r.result.success ==> r.form == PushForm("", "")
    ensures r.Ran? && !r.result.success ==> r.form == f
  {
    Submit(PushArgs(f), "Please enter an image name", inv, f, PushForm("", ""))
  }

  /** `handlePull`: the same vector as the Images page's pull; a successful
      pull empties the name. */
  function HandlePull(name: string, inv: Invocation): (r: Submission<string>)
    ensures r.Aborted? <==> name == []
    ensures r.Ran? ==> r.argv == ["images", "pull", name]
    ensures r.Ran? ==> (r.form == [] <==> r.result.success || name == [])
  {
    Submit(Images.PullArgs(name), "Please enter an image name", inv, name, "")
  }

  /** `handleSetDefaultRegistry`'s vector; None for an empty registry. */
  function SetDefaultArgs(registry: string): (r: Option<seq<string>>)
    ensures r.None? <==> registry == []
    ensures r.Some? ==> |r.value| == 4 && r.value[3] == registry
  {
    if registry == [] then None else Some(["registry", "default", "set", registry])
  }

  /** `handleSetDefaultRegistry`: a success empties the field. */
  function HandleSetDefault(registry: string, inv: Invocation): (r: Submission<string>)
    ensures r.Aborted? <==> registry == []
    ensures r.Ran? ==> r.argv == ["registry", "default", "set", registry]
    ensures r.Ran? && r.result.success ==> r.form == []
    ensures r.Ran? && !r.result.success ==> r.form == registry
  {
    Submit(SetDefaultArgs(registry), "Please enter a registry URL", inv, registry, "")
  }
}
