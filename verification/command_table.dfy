/** The argument vectors the route pages send, set against the reference
    table of commands in src/utils/containerUtils.js (`CONTAINER_COMMANDS`). */
module CommandTable {
  import opened Text
  import opened ContainerUtils
  import BuildImage
  import Logs
  import Images
  import Registry
  import SystemPage

  /** The build and logs vectors open with the table's word for their
      command. */
  lemma BuildAndLogsFollowCommandTable(build: BuildImage.BuildForm, container: string, o: Logs.LogOptions, streaming: bool)
    requires build.imageName != [] && container != []
    ensures BuildImage.BuildArgs(build).value[..1] == ContainerCommands["BUILD"]
    ensures Logs.LogsArgs(container, o, streaming).value[..1] == ContainerCommands["LOGS"]
  {
    FirstWord(BuildImage.BuildArgs(build).value, "build");
    FirstWord(Logs.LogsArgs(container, o, streaming).value, "logs");
  }

  lemma FirstWord(r: seq<string>, w: string)
    requires |r| > 0 && r[0] == w
    ensures r[..1] == [w]
  {
  }

  /** The image and registry vectors open with the table's words for their
      command. The one exception is tagging: the table lists a bare `tag`,
      while the Images page sends `images tag`. */
  lemma ImageVectorsFollowCommandTable(name: string, push: Registry.PushForm, login: Registry.LoginForm,
                                       source: string, target: string)
    requires name != [] && push.imageName != [] && login.username != [] && login.password != []
    requires source != [] && target != []
    ensures Images.PullArgs(name).value[..2] == ContainerCommands["PULL"]
    ensures Images.ListArgs == ContainerCommands["IMAGES"]
    ensures Registry.PushArgs(push).value[..2] == ContainerCommands["PUSH"]
    ensures Registry.Login(login).value.argv[..2] == ContainerCommands["LOGIN"]
    ensures SystemPage.ContainerListArgs[..1] == ContainerCommands["LIST"]
    ensures Images.TagArgs(source, target).value[..2] != ContainerCommands["TAG"]
  {
    assert Images.TagArgs(source, target).value[..2] == ["images", "tag"];
  }
}
