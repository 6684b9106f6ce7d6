# apple-container-desktop, modelled in Dafny

A model of the core of apple-container-desktop, a desktop front end for Apple's
`container` command-line tool, and of the release tooling that keeps it in
step with the tool:

- **the release monitor** (`scripts/monitor-releases.js`) reads a release's
  notes, sorts its lines into new commands, flags, breaking changes and
  features, writes a report with recommendations and tasks, and remembers
  which release it last saw;
- **the integrator** (`scripts/integrate-release.js`) turns such a report into
  source edits: command stubs in the container utilities, form fields in the
  run and build pages, a page per major command with its route export and
  sidebar entry, a version bump, release notes and a backup;
- **the integration tests** (`scripts/test-integration.js`) check the edited
  tree: the utilities' methods, the JSX of the pages, the package and Tauri
  configuration, the integration markers, and the summary of the run;
- **the container utilities** (`src/utils/containerUtils.js`): argument
  cleaning, container names, status badges, the system-status check, the
  runner that recognises a stopped system, error objects and output parsing;
- **the route pages** RunContainer, BuildImage, Logs, Images, Registry,
  Marketplace, System, Dashboard and Network: the argument vectors they send
  to the tool, how they read its output back, and how their state changes.

Every file the programs read or write is a text parameter or result, and
every call to the tool is an `Invocation` — the result it resolved to or
the error it rejected with — given as input. `JSON.parse` and
`JSON.stringify` are function parameters.

Modules: `Wrappers`, `Seqs` and `Text` (the JavaScript string and array
idioms: `split`, `join`, `trim`, `split(/\s+/)`, `includes`, `indexOf`,
`filter`, `flatMap`), `JsValues` (JSON values, truthiness, member access),
`ReleaseAnalysis`, `ReleaseReport`, `ReleaseNotes`, `ReleaseMonitor`,
`Splice`, `IntegratorCodegen`, `CommandPage`, `RoutesIndex`, `VersionBump`,
`Integrator`, `IntegrationTests`, `ContainerUtils`, `CommandTable` (the
pages' argument vectors against the utilities' command table), `Pages` (what
every form page shares), and one module per route page: `RunContainer`,
`BuildImage`, `Logs`, `Images`, `Registry`, `Marketplace`, `SystemPage`,
`Dashboard`, `Network`.

## Model

| member | source | states |
|---|---|---|
| ContainerUtils.ValidateCommandArgs | src/utils/containerUtils.js:8-10 | the result is the arguments' texts, in order, filtered to the non-blank ones; so no kept text is blank, and a text is kept exactly when some argument that is not blank turns into it; kept texts are not trimmed |
| ContainerUtils.ValidateIdempotent | src/utils/containerUtils.js:8-10 | cleaning the cleaned list again gives the same list |
| ContainerUtils.DropSlash | src/utils/containerUtils.js:34 | one leading `/` is removed and nothing else changes |
| ContainerUtils.FirstNameFrom | src/utils/containerUtils.js:22-36 | the field found holds a non-blank string and every field tried before it does not; none found means no field qualifies |
| ContainerUtils.ExtractContainerName | src/utils/containerUtils.js:18-39 | `container-<index>` for a falsy container or when none of Names, name, Name, id, ID, Id holds a non-blank string; otherwise the first that does, less one leading slash |
| ContainerUtils.StatusOf | src/utils/containerUtils.js:48-81 | Running exactly when the lower-cased status mentions `running` or `up`; Stopped, Paused, Restarting and Unknown each exactly when the earlier words are absent and theirs is present |
| ContainerUtils.FormatContainerStatus | src/utils/containerUtils.js:46-81 | throws exactly for a missing or `null` container or a non-string status; otherwise the badge of `Status \|\| status \|\| State \|\| 'Unknown'`, which is Unknown when all three are falsy |
| ContainerUtils.UnknownIsUnknown | src/utils/containerUtils.js:47-81 | the fallback status `Unknown` gets the gray unknown badge |
| ContainerUtils.ValidateContainerCLI | src/utils/containerUtils.js:88-104 | the tool is available exactly when `--version` succeeds; then the version is the trimmed output, already free of surrounding space, and there is no error; otherwise no version and the error text |
| ContainerUtils.SaysRunning | src/utils/containerUtils.js:126-141 | the output counts as running exactly when it mentions `apiserver is running`, or `running` without `not running`; the middle branch decides nothing |
| ContainerUtils.CheckSystemStatus | src/utils/containerUtils.js:110-156 | running exactly when there is no error; a rejection gives its text as the error; a failure or empty output is not running without a status; otherwise the status is the trimmed output and the error is stderr or `Container system is not running` |
| ContainerUtils.SuggestsDown | src/utils/containerUtils.js:196-201 | an error suggests the system is down exactly when it mentions one of four phrases; the six of the source reduce to four, since `daemon not running` and `apiserver is not running` already contain `not running` |
| ContainerUtils.StartContainerSystem | src/utils/containerUtils.js:163-180 | succeeds exactly when the tool does; a rejection becomes a failure with empty output and the error text |
| ContainerUtils.RunWithStatusCheck | src/utils/containerUtils.js:187-233 | a rejection becomes a failure with exit code 1; otherwise the result is kept and marked as system-not-running exactly when it failed with an error that suggests the system is down and the status check says it is not running; the toast is shown only then and only with a callback |
| CommandTable.BuildAndLogsFollowCommandTable | src/utils/containerUtils.js:238-266 | the build and logs vectors open with the table's `BUILD` and `LOGS` words |
| CommandTable.ImageVectorsFollowCommandTable | src/utils/containerUtils.js:238-266 | pull, push, login, the image list and the container list open with the table's words; tagging does not, since the table lists a bare `tag` while the Images page sends `images tag` |
| ContainerUtils.CreateContainerError | src/utils/containerUtils.js:274-282 | a failure with empty stdout, exit code 1, the operation, and a message that starts `Failed to ` |
| ContainerUtils.ContainerErrorRoundTrip | src/utils/containerUtils.js:278 | the operation (without `: `) and the error are read back from the message |
| ContainerUtils.RowObject | src/utils/containerUtils.js:317-320 | the row object has exactly the headers as keys |
| ContainerUtils.RowObjectCell | src/utils/containerUtils.js:318-320 | a header that no later header repeats holds its own cell, or `''` past the end of the row |
| ContainerUtils.JsonLines | src/utils/containerUtils.js:298 | no JSON-mode line is blank |
| ContainerUtils.JsonLinesMembers | src/utils/containerUtils.js:298 | a line is a JSON-mode line exactly when it is a non-blank line of the trimmed output |
| ContainerUtils.ParseAll | src/utils/containerUtils.js:299-307 | every line parsed in order, or nothing as soon as one line is not JSON |
| ContainerUtils.ParseContainerOutput | src/utils/containerUtils.js:290-322 | an empty or blank output gives `[]`; JSON mode gives each line's value, or `[]` when any line fails to parse; table mode gives one object per line after the header |
| ContainerUtils.TableRowKeys | src/utils/containerUtils.js:311-322 | each table row has every header as a key, and a header that occurs once holds its own whitespace-separated cell |
| Pages.ResultOf | src/routes/Registry.jsx:83-97 | a resolved invocation shows its result unchanged; a rejection shows a failure with empty stdout, the error text and exit code 1 |
| Pages.Submit | src/routes/Registry.jsx:69-101 | a guard that refuses the input only alerts and invokes nothing; otherwise the tool runs with the vector and the form is reset exactly when the result is a success |
| Pages.RejectedKeepsForm | src/routes/Registry.jsx:88-97 | a rejected invocation never clears the form |
| Pages.StartAgreesWithResultOf | src/utils/containerUtils.js:163-180 | starting the system reports what a page shows for the same call, less the exit code |
| RunContainer.Entries | src/routes/RunContainer.jsx:74-101 | every entry of a comma-separated field is non-empty and already trimmed |
| RunContainer.Words | src/routes/RunContainer.jsx:107-114 | no command word is empty |
| RunContainer.OptionsThen | src/routes/RunContainer.jsx:51-101 | the options come before whatever follows them, which ends the vector unchanged |
| RunContainer.AddArg | src/routes/RunContainer.jsx:45-49 | a blank value adds nothing; any other adds the flag followed by the trimmed value, which is non-empty and has no surrounding white space |
| RunContainer.RunArgs | src/routes/RunContainer.jsx:33-117 | nothing is invoked exactly when the image is blank |
| RunContainer.RunArgsShape | src/routes/RunContainer.jsx:42-117 | the vector starts with `run`, holds no empty word, and the trimmed image comes right before the command words, which end it |
| RunContainer.ValidationKeepsAll | src/routes/RunContainer.jsx:116-117 | the final filter removes nothing: every word pushed is already non-empty |
| RunContainer.Pairs | src/routes/RunContainer.jsx:78-80 | each value comes right after its flag, in order |
| RunContainer.AddArgsArePairs | src/routes/RunContainer.jsx:45-101 | over trimmed, non-empty entries the guard inside `addArg` never fires, so each entry is pushed with its flag |
| RunContainer.ReadSwitches | src/routes/RunContainer.jsx:56-71 | the ticked boxes read back as the switches, in the page's order |
| RunContainer.ReadName | src/routes/RunContainer.jsx:51-54 | the name option reads back as the trimmed name exactly when a name was typed |
| RunContainer.RunArgsRoundTrip | src/routes/RunContainer.jsx:42-117 | reading the vector back gives what the form asked for: the name, the boxes, each field's entries in order, the trimmed image and the command words |
| RunContainer.HandleSubmit | src/routes/RunContainer.jsx:30-147 | a blank image alerts and runs nothing; otherwise the vector runs, and the form returns to its defaults exactly when the run succeeds |
| Pages.JsonListAfter | src/routes/Logs.jsx:38-57 | a rejection empties the list; a failure or empty output keeps the previous list; otherwise the parsed array, or an empty list when the output is not a JSON array |
| Logs.LogsArgs | src/routes/Logs.jsx:59-60 | nothing is fetched exactly when no container is chosen; the vector starts with `logs` and ends with the container |
| Logs.ParseLogsArgs | src/routes/Logs.jsx:65-88 | a vector it reads starts with `logs` and names the container last |
| Logs.LogsArgsRoundTrip | src/routes/Logs.jsx:65-88 | reading the vector back gives the request made: `--follow` only when asked for and not streaming, `--boot` when ticked, each of tail, since and until trimmed when not blank, and the container, whatever their text |
| Logs.Fetched | src/routes/Logs.jsx:92-106 | success shows the output; a failure shows `Error fetching logs: ` and stderr or `Unknown error`; a rejection shows `Failed to fetch logs: ` and the error |
| Logs.LogsAfter | src/routes/Logs.jsx:92-106 | a successful streaming refresh keeps the text before as a prefix; anything else replaces the text with what a plain fetch shows |
| Logs.StreamedIsConcatenation | src/routes/Logs.jsx:93-98 | successive streaming refreshes give the starting text followed by each non-empty output on a line of its own, in order |
| Logs.SelectContainer | src/routes/Logs.jsx:131-135 | a new selection empties the text and stops streaming, and keeps the options |
| Logs.ChangeOption | src/routes/Logs.jsx:137-143 | a checkbox event sets its switch to its state; a text event sets the named field to its text |
| Logs.ChangesCommute | src/routes/Logs.jsx:137-143 | changes to two different fields give the same options in either order |
| Logs.ToggleStreaming | src/routes/Logs.jsx:145-152 | streaming flips; stopping fetches nothing, starting makes a plain (non-streaming) fetch |
| Logs.SystemLogsAfter | src/routes/Logs.jsx:112-129 | success shows the output; a failure starts `Error fetching system logs: `, a rejection `Failed to fetch system logs: ` |
| BuildImage.TagValue | src/routes/BuildImage.jsx:65-69 | the `--tag` value starts with the image name; it is `name:tag` (one longer than both) for a tag other than empty and `latest`, and the bare name otherwise |
| BuildImage.TagValueSplits | src/routes/BuildImage.jsx:65-69 | splitting the value at its last colon gives back the name and a colon-free named tag; an unnamed tag leaves the bare name |
| BuildImage.BuildArgs | src/routes/BuildImage.jsx:53-75 | nothing is built exactly when the image name is empty; the vector starts with `build` and has five words with `--no-cache`, four without |
| BuildImage.ParseBuildArgs | src/routes/BuildImage.jsx:63-75 | a vector it reads is `build --tag REF ... CONTEXT` |
| BuildImage.BuildArgsRoundTrip | src/routes/BuildImage.jsx:63-75 | reading the vector back gives the reference, the cache switch and the context directory the form asked for |
| BuildImage.BuildArgsDetermined | src/routes/BuildImage.jsx:63-75 | two forms send the same vector exactly when they make the same request, so `buildArgs` never reaches the tool |
| BuildImage.HandleBuild | src/routes/BuildImage.jsx:53-101 | an empty name only alerts; otherwise the build runs, and a success resets the form to its defaults and empties and closes the Dockerfile editor, while a failure changes nothing |
| Images.ImageLines | src/routes/Images.jsx:24 | every kept line is non-empty, does not start with `NAME` and has no line break |
| Images.ShortId | src/routes/Images.jsx:32 | the id is the digest's first twelve characters, or the whole of a shorter digest |
| Images.ParseImageLine | src/routes/Images.jsx:27-38 | creation time and size are `N/A`, and name, tag and id are never empty (`Unknown` stands in) |
| Images.ImageTable | src/routes/Images.jsx:24-38 | one row per image line |
| Images.FetchImages | src/routes/Images.jsx:16-58 | success shows the table and clears the panel; a failure empties the table and shows the result; a rejection keeps the table and shows a failure |
| Images.ImageTableRoundTrip | src/routes/Images.jsx:24-38 | reading back a listing (header, then one `NAME TAG DIGEST` line per image) gives one row per image in order, with its name, tag and the digest's first twelve characters |
| Images.ListingLines | src/routes/Images.jsx:24 | trimming and splitting a listing gives back its header and lines |
| Images.JoinedLines | src/routes/Images.jsx:24 | trimming and splitting a join of lines gives back the lines when none holds a line break and the ends are not blank |
| Images.WordsParse | src/routes/Images.jsx:28-35 | three words one space apart read back as name, tag and shortened digest |
| Images.ActionArgs | src/routes/Images.jsx:68 | the vector is `images`, the action (a `delete` maps to itself) and the image |
| Images.HandleImageAction | src/routes/Images.jsx:65-85 | the vector is `images`, the action and the image; the result is shown as any page shows a call, a rejection as a failure with exit code 1; the images are listed again exactly after a delete the tool reports as successful |
| Images.AfterImageAction | src/routes/Images.jsx:16-85 | once the action is over, the panel ends empty exactly when a delete succeeded and the listing that follows did too; any other action leaves its result shown and the list unchanged |
| Images.DeleteTarget | src/routes/Images.jsx:327 | the delete reference is `repository:tag` |
| Images.DeleteTargetSplits | src/routes/Images.jsx:327 | splitting it at its last colon gives back the repository and a colon-free tag |
| Images.PullArgs | src/routes/Images.jsx:87-95 | nothing is pulled exactly when the name is empty; otherwise `images pull NAME` |
| Images.HandlePull | src/routes/Images.jsx:87-113 | an empty name only alerts; otherwise the pull runs, and the form ends empty and closed exactly when the pull succeeded (or already was) |
| Images.TagArgs | src/routes/Images.jsx:115-125 | nothing is tagged unless both references are given; then the source and the target end the vector |
| Images.HandleTag | src/routes/Images.jsx:115-143 | a missing reference only alerts; otherwise `images tag SOURCE TARGET` runs, and only a success empties and closes the form |
| Images.AfterPull | src/routes/Images.jsx:16-113 | once a pull is over: an empty name changes neither list nor panel; a failed or rejected pull leaves its result shown over the unchanged list; a successful pull hands both to the listing that follows, so the panel ends empty exactly when the pull and that listing succeed |
| Images.AfterTag | src/routes/Images.jsx:16-143 | the same for a tag: a missing reference changes nothing, a failure shows its result over the unchanged list, and the panel ends empty exactly when the tag and the listing after it succeed |
| Registry.LoginRegistry | src/routes/Registry.jsx:35 | the registry is never empty: the one typed, else `registry-1.docker.io` |
| Registry.Login | src/routes/Registry.jsx:24-50 | nothing is sent unless both a user name and a password are given; the password goes to standard input, and the vector has six words |
| Registry.ParseLogin | src/routes/Registry.jsx:37-44 | a login vector it reads names the user fourth and the registry sixth |
| Registry.LoginRoundTrip | src/routes/Registry.jsx:35-50 | reading the vector back gives the user name and the registry, and two forms that differ only in the password send the same vector, so the password is only on standard input |
| Registry.EmptyRegistryIsDefault | src/routes/Registry.jsx:35 | an empty registry field logs in exactly as naming `registry-1.docker.io` does |
| Registry.HandleLogin | src/routes/Registry.jsx:24-67 | a missing user name or password only alerts; otherwise the login runs, and only a success empties the form |
| Registry.PushTarget | src/routes/Registry.jsx:79-81 | `repository/image`, or the bare image without a repository |
| Registry.PushTargetSplits | src/routes/Registry.jsx:79-81 | splitting the pushed reference at its last slash gives back the repository and a slash-free image; a bare image has no slash |
| Registry.PushArgs | src/routes/Registry.jsx:69-85 | nothing is pushed exactly when the image name is empty; otherwise `images push TARGET` |
| Registry.HandlePush | src/routes/Registry.jsx:69-101 | an empty name only alerts; only a successful push empties the form |
| Registry.HandlePull | src/routes/Registry.jsx:103-131 | an empty name only alerts; otherwise `images pull NAME` runs, and the name is emptied exactly on success |
| Registry.SetDefaultArgs | src/routes/Registry.jsx:133-145 | nothing is sent exactly when the registry is empty; otherwise the registry ends a four-word vector |
| Registry.HandleSetDefault | src/routes/Registry.jsx:133-161 | an empty registry only alerts; otherwise `registry default set REGISTRY` runs, and only a success empties the field |
| Network.ExecuteArgs | src/routes/Network.jsx:20-24 | the command comes first |
| Network.NetworkArgs | src/routes/Network.jsx:20-24 | `network` comes first |
| Network.ExecuteArgsLayout | src/routes/Network.jsx:20-24 | the vector is the command and then, for each truthy form entry in order, its kebab-case flag and its value; a dash-free key reads back from its flag through the integrator's field naming |
| Network.FalsyEntryIgnored | src/routes/Network.jsx:22 | an entry with a falsy value adds nothing |
| Network.AfterExecute | src/routes/Network.jsx:14-32 | the output panel holds the result and the error panel is cleared, or the reverse when the call throws |
| SystemPage.SystemInfoAfter | src/routes/System.jsx:35-49 | success shows the output as it came; anything else shows a line starting `Error: ` |
| SystemPage.ErrorLine | src/routes/System.jsx:42 | `Error: ` and the error text, or the fallback when that text is empty |
| SystemPage.SystemStats | src/routes/System.jsx:140-152 | no stats while the system information is missing or empty; a `null` container makes it throw; otherwise it counts the containers and the images |
| SystemPage.StatsBounded | src/routes/System.jsx:144-149 | running plus stopped never exceeds the number of containers |
| SystemPage.RunningCountMembers | src/routes/System.jsx:146 | every container counts as running exactly when every status is `running` |
| SystemPage.InspectArgs | src/routes/System.jsx:93-106 | nothing is inspected exactly when nothing is selected; the vector ends with the item and has two words exactly for a container |
| SystemPage.Formatted | src/routes/System.jsx:111-121 | output that is not asked to be formatted, is blank, or is not JSON stays as it came |
| SystemPage.FormattedIdempotent | src/routes/System.jsx:111-121 | with a codec whose printed text parses back, formatting twice is formatting once |
| SystemPage.InspectAfter | src/routes/System.jsx:108-129 | success shows the (optionally formatted) output; anything else a line starting `Error: ` |
| Dashboard.OptMember | src/routes/Dashboard.jsx:29-36 | `?.` on `undefined` or `null` gives `undefined` |
| Dashboard.OrText | src/routes/Dashboard.jsx:29-34 | a truthy value is kept, any other value becomes the fallback text |
| Dashboard.Ports | src/routes/Dashboard.jsx:35 | the ports cell is computed exactly when the networks are missing, `null` or an array without `null`, and it is never empty |
| Dashboard.JoinEmpty | src/routes/Dashboard.jsx:35 | a join with `, ` is empty only for no parts or a single empty part |
| Dashboard.PortsDash | src/routes/Dashboard.jsx:35 | the ports cell is `-` exactly when no networks are listed, the array is empty, or its single network's address is missing or is `-` |
| Dashboard.RowOf | src/routes/Dashboard.jsx:28-37 | a row is made exactly for a container that is not `null` and whose networks can be mapped |
| Dashboard.Transform | src/routes/Dashboard.jsx:28-37 | the transformation succeeds exactly for an array whose containers are all non-`null` with mappable networks |
| Dashboard.RowError | src/routes/Dashboard.jsx:28-36 | building a row throws exactly when no row can be made: at `configuration` for a `null` container, at `map` for networks that are not an array, at `address` for a `null` network |
| Dashboard.ThrownBy | src/routes/Dashboard.jsx:28-37 | for an array, the message is that of the first container, in order, whose row throws, whatever the later containers hold |
| Dashboard.FetchContainers | src/routes/Dashboard.jsx:21-54 | either the rows and a cleared panel, or no rows and a failure with exit code 1: a rejected call shows its own error, and a transformation that throws shows the `TypeError` that `ThrownBy` names |
| Dashboard.StatusBadge | src/routes/Dashboard.jsx:94-104 | Running exactly when the lower-cased status mentions `running`; the plain badge, holding the status itself, exactly when it mentions none of running, exited and paused |
| Dashboard.BadgeAgreesWithFormat | src/routes/Dashboard.jsx:94-104 | for statuses without `up`, `stopped` and `restarting`, the dashboard badge says what `formatContainerStatus` says |
| Dashboard.ContainerAction | src/routes/Dashboard.jsx:60-92 | a missing name or action sends nothing and shows the invalid-input failure; otherwise `ACTION NAME` runs, its result is shown, and the table is fetched again exactly on success |
| Dashboard.AfterContainerAction | src/routes/Dashboard.jsx:21-92 | once the action is over, a refused or failed action's result stays on the panel with the table unchanged; after a success the fetch decides both, so the panel ends empty exactly when the action succeeded and the fetch that follows did too |
| Marketplace.BeforeColon | src/routes/Marketplace.jsx:176 | the text before the first colon: it has no colon and is a prefix of the input |
| Marketplace.LastSegment | src/routes/Marketplace.jsx:174-176 | the last piece of a slash split has no slash, and a reference without a slash is its own last piece |
| Marketplace.LocalNames | src/routes/Marketplace.jsx:168-190 | a reference always counts as installed under itself, and a reference without a slash only under itself |
| Marketplace.ReferencePieces | src/routes/Marketplace.jsx:173-177 | for `PATH/NAME:TAG`, the slash split has at least two pieces, the last is `NAME:TAG`, and its text before the colon is `NAME` |
| Marketplace.OfficialLocalNames | src/routes/Marketplace.jsx:168-187 | `docker.io/library/NAME:TAG` counts as installed under exactly three names: the reference, `NAME` and `NAME:TAG` |
| Marketplace.PathLocalNames | src/routes/Marketplace.jsx:168-187 | any other `PATH/NAME:TAG` counts as installed under exactly two names: the reference and `NAME` |
| Marketplace.NotOfficial | src/routes/Marketplace.jsx:180 | a path and slash that do not begin `docker.io/library/`, followed by a slash-free part, do not begin it either |
| Marketplace.CollectMembers | src/routes/Marketplace.jsx:166-190 | when no item throws, a name is collected exactly when some item's reference contributes it |
| Marketplace.CollectStops | src/routes/Marketplace.jsx:166-194 | an item that throws ends the collection, so nothing after it counts |
| Marketplace.CheckLocalImages | src/routes/Marketplace.jsx:156-203 | the set is replaced exactly when the listing succeeds with non-empty output; output that is not a JSON array gives the empty set |
| Marketplace.CleanupOldProgress | src/routes/Marketplace.jsx:132-154 | the map is left alone exactly when nothing is stale; otherwise the entries kept are exactly the non-stale ones, with their texts unchanged |
| Marketplace.CleanupIdempotent | src/routes/Marketplace.jsx:132-154 | cleaning a cleaned map changes nothing |
| Marketplace.InitialLocalImages | src/routes/Marketplace.jsx:24-75 | the starting set is the cached one while the cache is younger than five minutes, else empty |
| Marketplace.MountPage | src/routes/Marketplace.jsx:65-97 | the page starts with the cached set or none; the save effect, which runs before the mount effect, restamps a non-empty set; an empty set is always listed again |
| Marketplace.InitialThenRefresh | src/routes/Marketplace.jsx:257-265 | when the mount effect follows the save effect within five minutes, the local images are listed again exactly when the page starts with none, and a non-empty cached set gets a fresh five minutes instead of being listed again |
| Marketplace.Or | src/routes/Marketplace.jsx:311-315 | a truthy value is kept, anything else is replaced by the fallback |
| Marketplace.CardOf | src/routes/Marketplace.jsx:307-317 | a card is a search result and keeps the repository name as its full name |
| Marketplace.CardNames | src/routes/Marketplace.jsx:308-310 | `NAMESPACE/NAME` gives a card named `NAME` in `NAMESPACE`; a name without a slash gives a card in `library` |
| Marketplace.Search | src/routes/Marketplace.jsx:296-326 | Docker Hub is asked exactly when the query is not blank; a blank query shows nothing, and every result shown is in the search category |
| Marketplace.DisplayImages | src/routes/Marketplace.jsx:430-434 | `all` shows the search results for a non-blank query, else the featured images; any other category shows only its own cards |
| Marketplace.CategoryHidesSearch | src/routes/Marketplace.jsx:296-326 | while a query is typed, a category other than `all` and the search category shows nothing |
| Marketplace.StartedCannotPull | src/routes/Marketplace.jsx:333-342 | once an image has started pulling, its button does not start another pull |
| Marketplace.StartPull | src/routes/Marketplace.jsx:333-342 | the image joins the pulling set with its progress at `Downloading layers...`, other progress is kept, and `images pull FULLNAME` runs |
| Marketplace.PullOutcome | src/routes/Marketplace.jsx:346-386 | a successful pull ends with a text saying it completed; anything else ends with a text starting `Error: ` |
| Marketplace.EndedPullNotStale | src/routes/Marketplace.jsx:132-154 | the text an ended pull leaves is never stale, so the clean-up never drops it |
| Marketplace.FinishPull | src/routes/Marketplace.jsx:346-386 | the pull's progress holds its outcome and the pulling set is unchanged |
| Marketplace.ClearPull | src/routes/Marketplace.jsx:353-363 | after the delay the image leaves the pulling set and its progress, and other progress is kept |
| ReleaseAnalysis.ContainerWordAt | scripts/monitor-releases.js:148 | a match of `container\s+(\w+)` captures a non-empty word run after the keyword |
| ReleaseAnalysis.ContainerWordsFrom | scripts/monitor-releases.js:148-196 | every capture is a word found in the line |
| ReleaseAnalysis.BacktickCommandAt | scripts/monitor-releases.js:149 | a backtick match captures a backtick-free run that a backtick closes |
| ReleaseAnalysis.BacktickCommandsFrom | scripts/monitor-releases.js:149-196 | every capture is non-empty, has no backtick and is found in the line |
| ReleaseAnalysis.FlagAt | scripts/monitor-releases.js:153 | a match of `--(\w+)` starts with two dashes and captures the word right after them |
| ReleaseAnalysis.FlagWordsFrom | scripts/monitor-releases.js:153-218 | every capture is a word that the line holds after `--` |
| ReleaseAnalysis.LineFlags | scripts/monitor-releases.js:212-218 | every flag a line gives is `--` and a word, found in the line |
| ReleaseAnalysis.NonBlankLines | scripts/monitor-releases.js:171-173 | the lines read are non-empty and already trimmed |
| ReleaseAnalysis.AnalyzeReleaseNotes | scripts/monitor-releases.js:117-129 | the version, date, prerelease and draft fields are copied from the release |
| ReleaseAnalysis.ScanLinesBucket | scripts/monitor-releases.js:171-236 | the fold adds to each line bucket exactly the non-blank trimmed lines that match it, in order |
| ReleaseAnalysis.ScanLinesTokens | scripts/monitor-releases.js:186-225 | the fold's commands and flags are the first occurrences of the tokens the non-blank lines give |
| ReleaseAnalysis.AnalysisSpec | scripts/monitor-releases.js:117-239 | the analysis equals its reference definition: each line bucket is a filter of the non-blank trimmed lines by its patterns, and commands and flags are the lines' tokens, each kept once at its first occurrence |
| ReleaseAnalysis.BodyLinesOccur | scripts/monitor-releases.js:131-173 | every line read is a non-empty, trimmed piece of the body |
| ReleaseAnalysis.BucketMembers | scripts/monitor-releases.js:176-236 | a line is in a bucket exactly when it is a non-blank trimmed line of the body that matches the bucket's patterns |
| ReleaseAnalysis.FlagsWellFormed | scripts/monitor-releases.js:212-225 | no flag is recorded twice, and every flag is `--` and a word found in the body |
| ReleaseAnalysis.CommandsWellFormed | scripts/monitor-releases.js:186-209 | no command is recorded twice, and every command other than the placeholder is found in the body |
| ReleaseAnalysis.SentinelText | scripts/monitor-releases.js:150-207 | the placeholder is not a `\w` word, so `container\s+(\w+)` cannot capture it; any text containing it, a backtick capture equal to it included, announces a new command |
| ReleaseAnalysis.SentinelInLine | scripts/monitor-releases.js:186-209 | a line gives the placeholder exactly when it announces a new command |
| ReleaseAnalysis.SentinelIffMentioned | scripts/monitor-releases.js:186-209 | the placeholder is among the commands exactly when some non-blank line announces a new command |
| ReleaseAnalysis.BlankBodyFindsNothing | scripts/monitor-releases.js:131-173 | a missing, empty or all-whitespace body gives six empty lists |
| ReleaseAnalysis.SameLinesSameAnalysis | scripts/monitor-releases.js:131-173 | indentation and blank lines do not matter: releases with the same header fields and the same non-blank trimmed lines get the same analysis |
| ReleaseReport.FiredMembers | scripts/monitor-releases.js:257-275 | a rule fires exactly when it is in the table and its list is non-empty |
| ReleaseReport.Recommendations | scripts/monitor-releases.js:257-275 | one recommendation per fired rule, in order |
| ReleaseReport.Tasks | scripts/monitor-releases.js:257-275 | one integration task per fired rule, in order |
| ReleaseReport.GenerateReleaseReport | scripts/monitor-releases.js:241-278 | the report carries the time, the release summary and the analysis; it has as many tasks as recommendations, at most four, and none exactly when the four lists it reacts to are empty |
| ReleaseReport.FiredRules | scripts/monitor-releases.js:257-275 | the rules fire in the order commands, flags, features, breaking changes, each exactly when its list is non-empty |
| ReleaseReport.ReportFollowsRules | scripts/monitor-releases.js:241-278 | the report's recommendations and tasks are those of the fired rules, in table order |
| ReleaseReport.OnlyBreakingRuleIsUrgent | scripts/monitor-releases.js:258-274 | only the breaking-change recommendation starts `URGENT:` |
| ReleaseReport.UrgentIffBreaking | scripts/monitor-releases.js:272-275 | an urgent recommendation is present exactly when breaking changes were found |
| ReleaseMonitor.LoadState | scripts/monitor-releases.js:34-46 | an unreadable or unparsable state file gives the default state; otherwise the parsed state |
| ReleaseMonitor.CheckForNewReleases | scripts/monitor-releases.js:293-338 | a failed fetch does nothing; a release already processed only refreshes and saves the check time; a new one moves the cursor, appends to the history, saves the report generated from that release's analysis, saves the state, and triggers integration with the saved report; the report's time stamp, the history entry and the check time are three separate clock readings |
| ReleaseMonitor.FirstEffect | scripts/monitor-releases.js:293-338 | the position found is the first effect that satisfies the test |
| ReleaseMonitor.StateSavedBeforeIntegration | scripts/monitor-releases.js:317-335 | whenever integration is triggered, the state was saved before it, and the report it is handed is the one saved first |
| ReleaseMonitor.CheckIsIdempotent | scripts/monitor-releases.js:306-311 | checking again with the same latest release processes nothing and only refreshes the check time |
| ReleaseMonitor.HistoryGrowsByOne | scripts/monitor-releases.js:323-330 | the history keeps its old entries and grows by one exactly when a new release is processed, ending with that release |
| ReleaseNotes.NotesPieces | scripts/integrate-release.js:446-512 | the page has eleven pieces, and the five section bodies sit at pieces 1, 3, 5, 7 and 9 |
| ReleaseNotes.GenerateReleaseNotes | scripts/integrate-release.js:440-512 | every piece of the page (title, the five sections with their headings, the footer) appears in the notes |
| ReleaseNotes.SectionLines | scripts/integrate-release.js:456-487 | an empty list gives its fallback line alone; otherwise splitting the section at line breaks gives back exactly one bullet line per item, in order |
| ReleaseNotes.SectionListsItem | scripts/integrate-release.js:456-487 | each item of a section is among its text |
| ReleaseNotes.NotesListEverything | scripts/integrate-release.js:440-512 | the notes list every feature, command, flag, breaking change and bug fix of the analysis, each in its own bullet form |
| ReleaseNotes.NotesShowFallbacks | scripts/integrate-release.js:456-487 | every empty list shows its fallback line instead |
| Splice.InsertBeforeLast | scripts/integrate-release.js:64-67 | without the anchor the text is unchanged; otherwise the snippet is inserted right before the anchor's last occurrence |
| Splice.LastOccurrenceShifts | scripts/integrate-release.js:64-67 | after an insertion the anchor's last occurrence is the original one, moved right by the snippet's length |
| Splice.InsertBeforeLastTwice | scripts/integrate-release.js:64-90 | two insertions before the last anchor equal one insertion of both snippets in order |
| Splice.InsertBeforeLastKeeps | scripts/integrate-release.js:64-67 | text that does not hold the anchor's first character survives the insertion |
| Splice.InsertNothing | scripts/integrate-release.js:64-67 | inserting an empty snippet changes nothing |
| Splice.InsertedSnippetPresent | scripts/integrate-release.js:64-67 | with the anchor present, whatever the snippet holds is in the result |
| Splice.FirstMatchFrom | scripts/integrate-release.js:147-199 | the position found is the leftmost match of the button pattern, and none means no match at all |
| Splice.InsertBeforeFirstMatch | scripts/integrate-release.js:147-201 | without a match the text is unchanged; otherwise the snippet goes right before the leftmost match |
| Splice.SnippetPrecedesButton | scripts/integrate-release.js:147-201 | the generated block lands right before the button it was aimed at, which still matches there |
| IntegratorCodegen.StubName | scripts/integrate-release.js:50 | `execute` followed by the command with its first character upper-cased |
| IntegratorCodegen.CommandStub | scripts/integrate-release.js:47-60 | a command's stub declares its method |
| IntegratorCodegen.StubForEveryCommand | scripts/integrate-release.js:46-61 | the stubs follow the command order, and every command's method header is among them |
| IntegratorCodegen.CommandMappings | scripts/integrate-release.js:46-61 | every command's method header is among the generated stubs |
| IntegratorCodegen.FlagValidation | scripts/integrate-release.js:74-84 | the generated method names the release and lists every new flag as supported |
| IntegratorCodegen.RemoveFirst | scripts/integrate-release.js:127-176 | removing a string pattern removes its first occurrence only, or nothing when it is absent |
| IntegratorCodegen.CamelCase | scripts/integrate-release.js:128-177 | never longer than the input, and dash-free text is unchanged |
| IntegratorCodegen.DashesToSpaces | scripts/integrate-release.js:134-183 | every dash becomes a space and every other character is kept |
| IntegratorCodegen.FieldBlock | scripts/integrate-release.js:126-192 | a flag's input is bound to the form state under the flag's field name |
| IntegratorCodegen.BuildFlags | scripts/integrate-release.js:170-172 | the build form gets exactly the flags that mention build, image or tag |
| IntegratorCodegen.MajorCommandsArePageWorthy | scripts/integrate-release.js:230-238 | every major command but `volume` also gets a page; `volume` gets only a navigation entry |
| IntegratorCodegen.PageAndNavIgnoreCase | scripts/integrate-release.js:230-238 | whether a command gets a page or a navigation entry does not depend on its case, since both tests lower-case it |
| IntegratorCodegen.NavItem | scripts/integrate-release.js:376-384 | the navigation entry links to the lower-cased command and is labelled with the page name |
| IntegratorCodegen.PageName | scripts/integrate-release.js:241 | the command with its first character upper-cased |
| CommandPage.Dashify | scripts/integrate-release.js:276 | the dashed key is never shorter than the key |
| CommandPage.PageFlag | scripts/integrate-release.js:276 | every flag the generated page passes starts with `--` |
| CommandPage.FieldNameOfPageFlag | scripts/integrate-release.js:270-280 | a dash-free form key reads back from the flag the page sends for it through the integrator's field naming |
| CommandPage.CamelCaseUndoesDashify | scripts/integrate-release.js:270-280 | camel-casing the lower-cased dashed key gives back a dash-free key |
| CommandPage.PageFlagOfFieldName | scripts/integrate-release.js:270-280 | a kebab-case flag reads back from its field name through the page's flag naming |
| CommandPage.DashifyUndoesCamelCase | scripts/integrate-release.js:270-280 | lower-casing the dashed camel-case text gives back kebab-case text |
| RoutesIndex.AddImport | scripts/integrate-release.js:347-351 | the import line ends up in the index; it is put in front only when it is not already there |
| RoutesIndex.AddImportIdempotent | scripts/integrate-release.js:347-351 | adding the import twice adds it once |
| RoutesIndex.FindExportIsLeftmost | scripts/integrate-release.js:354-355 | the export pattern is found at its leftmost match, with its capture, and not found exactly when it matches nowhere |
| RoutesIndex.SubstituteLiteral | scripts/integrate-release.js:359 | a replacement text without `$` is inserted as it is |
| RoutesIndex.SubstituteWholeMatch | scripts/integrate-release.js:359 | `$&` in a replacement text brings back the matched text |
| RoutesIndex.AddExport | scripts/integrate-release.js:353-360 | without an export list nothing changes; otherwise, without `$` in the entries or the page, the first export list is replaced by a block listing its trimmed entries and then the page, and the text that followed that list still follows the page |
| RoutesIndex.UpdateRoutesIndex | scripts/integrate-release.js:341-368 | the import line goes in; an index without an export list only gains it; otherwise the page ends the first export list, ahead of whatever followed that list |
| RoutesIndex.ReExportCounterexample | scripts/integrate-release.js:353-360 | an index that opens with a re-export `export { ENTRIES } from X` gets the page appended to that re-export |
| RoutesIndex.AddExportFixed | scripts/integrate-release.js:353-360 | the corrected step adds a local export line for the page, only when it is missing |
| RoutesIndex.UpdateRoutesIndexFixed | scripts/integrate-release.js:341-368 | the corrected update both imports and exports the page |
| RoutesIndex.FixedUpdateKeepsIndex | scripts/integrate-release.js:341-368 | the corrected update keeps the old index text whole, and a second update changes nothing |
| VersionBump.ToNumber | scripts/integrate-release.js:409-426 | `Number` of a piece of digits is its value, and of a blank piece is 0 |
| VersionBump.Render | scripts/integrate-release.js:412-429 | a number renders as digits that read back as it |
| VersionBump.Increment | scripts/integrate-release.js:410-427 | a number goes up by one, and anything else stays not a number |
| VersionBump.BumpParts | scripts/integrate-release.js:409-427 | only the third element changes; an array of fewer than three is lengthened with holes and `NaN` |
| VersionBump.BumpKeepsSemVer | scripts/integrate-release.js:409-429 | a conforming version stays conforming, with the same major and minor and the patch one higher |
| VersionBump.BumpedPieces | scripts/integrate-release.js:409-412 | the bumped version splits into the major, the minor and the patch plus one |
| VersionBump.ShortVersionsGetNaN | scripts/integrate-release.js:409-412 | a version with fewer than three numbers comes out ending in `NaN` |
| Integrator.CreateBackup | scripts/integrate-release.js:540-574 | only backup paths change, and each readable file of the list is copied to its backup |
| Integrator.BackupFrame | scripts/integrate-release.js:540-574 | every other path keeps its file |
| Integrator.CodeCommands | scripts/integrate-release.js:47-50 | the commands turned into code are exactly those that are words |
| Integrator.UtilsTextAsWritten | scripts/integrate-release.js:41-91 | the two splices before the last `};` amount to one: the stubs and the flag validation go in as one block there, and nothing changes without a `};` |
| Integrator.UtilsTextKeeps | scripts/integrate-release.js:41-91 | text without a `}`, such as a method name, survives the update |
| Integrator.StubPresent | scripts/integrate-release.js:41-68 | with a `};` in the file, every command gets its stub |
| Integrator.SentinelStubIsNotAnIdentifier | scripts/integrate-release.js:47-67 | a placeholder command puts a stub whose method name is not an identifier into the file |
| Integrator.UtilsTextHasStubs | scripts/integrate-release.js:41-68 | every command that is a word gets its stub, and every generated method name is an identifier |
| Integrator.UpdateContainerUtils | scripts/integrate-release.js:32-99 | only the utilities file changes, to its text with the generated code for the analysis's commands and flags; `AsWritten` uses every command, `Corrected` only those that are words |
| Integrator.UpdateRunContainerForm | scripts/integrate-release.js:118-160 | only the run form changes: an input per flag before the submit button |
| Integrator.UpdateBuildImageForm | scripts/integrate-release.js:162-210 | only the build form changes, and only when some flag is a build flag: an input per build flag before the build button |
| Integrator.CreateCommandPage | scripts/integrate-release.js:240-339 | an existing page is kept as it is; a missing one is written from the template and the index is updated, with the export-list rewrite under `AsWritten` and the corrected export line under `Corrected`; nothing else changes |
| Integrator.UpdateSidebar | scripts/integrate-release.js:370-398 | only the sidebar changes: the navigation entry goes before the last `</nav>` |
| Integrator.SupportCommand | scripts/integrate-release.js:215-227 | a page-worthy command ends up with a page; a command that is neither page-worthy nor major changes nothing; only its page, the index and the sidebar may change |
| Integrator.AddNewCommandSupport | scripts/integrate-release.js:212-228 | only the commands' pages, the index and the sidebar may change, no existing page is overwritten, and every page-worthy command has a page |
| Integrator.UpdateUIComponents | scripts/integrate-release.js:101-116 | only the forms, the index, the sidebar and new pages change, and every page-worthy command has a page; `AsWritten` considers every command of the analysis, `Corrected` only those that are words |
| Integrator.UpdateVersionInfo | scripts/integrate-release.js:400-438 | only the two version files change, each to its bumped text or left alone when its update throws |
| Integrator.PackageVersionBumped | scripts/integrate-release.js:405-416 | a conforming package version is written back with the patch one higher and the description naming the release |
| Integrator.TauriVersionBumped | scripts/integrate-release.js:422-433 | the same for the Tauri configuration, whose long description names the release |
| Integrator.WriteReleaseNotes | scripts/integrate-release.js:440-520 | only the release notes change, to the generated page |
| Integrator.Integrate | scripts/integrate-release.js:576-615 | only the backups, the fixed targets and new pages change; the backups hold the files as they were; the utilities hold the generated code; no existing page is overwritten and every page-worthy command has a page; the versions are bumped and the notes written; `AsWritten` is the script itself, `Corrected` the script with both findings below corrected |
| Integrator.IntegrateKeeps | scripts/integrate-release.js:576-615 | later steps keep the backups and pages already written, and each file is changed only by its own step |
| IntegrationTests.Record | scripts/test-integration.js:36-58 | a returned test is recorded as passed with its duration and no error; a thrown one as failed with duration 0 and its message |
| IntegrationTests.RunTest | scripts/test-integration.js:32-60 | the log grows by exactly that test's record, and the result is true exactly when the test passed |
| IntegrationTests.Summarize | scripts/test-integration.js:293-305 | every record is counted once, as a pass or a failure |
| IntegrationTests.SummaryAppend | scripts/test-integration.js:296-303 | one more record adds one to the total, one to its own count and its duration to the sum |
| IntegrationTests.FailedZeroIffAllPassed | scripts/test-integration.js:301-368 | no failure is counted exactly when every record passed |
| IntegrationTests.SuiteNames | scripts/test-integration.js:326-340 | eight tests in their fixed order, then the Tauri build only when `TEST_TAURI_BUILD` is `true` |
| IntegrationTests.RunAllTests | scripts/test-integration.js:323-369 | every test runs in order and is recorded; the suite passes exactly when every test returned |
| IntegrationTests.FirstFalsy | scripts/test-integration.js:172-213 | the first required field that is falsy, and none exactly when all are truthy |
| IntegrationTests.FirstMissing | scripts/test-integration.js:116-120 | the first required name the text does not include, and none exactly when it includes them all |
| IntegrationTests.UtilsIntegrity | scripts/test-integration.js:95-125 | the check passes exactly when the file reads, evaluates without error and mentions the four required methods |
| IntegrationTests.RequiredMethodsSurvive | scripts/test-integration.js:109-120 | the integrator's update of the utilities, as written, keeps all four required method names that the file held |
| IntegrationTests.IntegratedUtilsPass | scripts/test-integration.js:95-125 | for utilities that pass the check when loaded as a module, the text the integrator writes, as written, passes exactly when it loads without error |
| IntegrationTests.ExportFailsUtilsCheck | scripts/test-integration.js:102-106 | utilities with a line that opens with `export ` fail the check with the syntax error, whatever else they hold |
| IntegrationTests.IntegratedUtilsFailCheck | scripts/test-integration.js:95-125 | utilities with such a line keep it through the integrator's update, so the updated file fails the check too |
| IntegrationTests.JsxEnd | scripts/test-integration.js:153 | a match opens with `<` and a capital and ends with `>` |
| IntegrationTests.JsxMatchesAreTags | scripts/test-integration.js:153 | every match of the JSX pattern opens a capitalised tag and ends with `>` |
| IntegrationTests.NoMalformedJsx | scripts/test-integration.js:153-156 | the malformed-JSX test can never fire, since every match includes `>` |
| IntegrationTests.ComponentPasses | scripts/test-integration.js:137-160 | a component passes exactly when it reads, imports React and has an export |
| IntegrationTests.UIComponentsIntegrity | scripts/test-integration.js:127-162 | the check passes exactly when every listed component reads, imports React and has an export |
| IntegrationTests.DepsError | scripts/test-integration.js:180-185 | the dependency step passes exactly when every required dependency is declared |
| IntegrationTests.PackageIntegrity | scripts/test-integration.js:164-198 | the check passes exactly when the file reads, parses and has its required fields and dependencies |
| IntegrationTests.VersionPatternIsSemVer | scripts/test-integration.js:216 | the version pattern accepts exactly the three dot-joined runs of digits that the bump keeps |
| IntegrationTests.BumpKeepsVersionPattern | scripts/test-integration.js:216 | a version the check accepts is still accepted after the integrator's bump |
| IntegrationTests.TauriIntegrity | scripts/test-integration.js:200-224 | the check passes exactly when the file reads, parses, has its required fields and a conforming version |
| IntegrationTests.NewFeaturesIntegrity | scripts/test-integration.js:226-264 | the check fails only on a file that cannot be read; markers are only logged |
| IntegrationTests.MarkerLogLine | scripts/test-integration.js:243-257 | the log line starts with the check mark exactly when the file shows a marker |
| IntegrationTests.Checked | scripts/test-integration.js:32-60 | a test returns exactly when its check reports no error, and otherwise throws that error |
| IntegrationTests.ConfigOutcomes | scripts/test-integration.js:62-125 | the first four tests return exactly when the tool is found, package.json and tauri.conf.json pass their checks, and the utilities pass theirs |
| IntegrationTests.TreeOutcomes | scripts/test-integration.js:70-291 | the components and marker tests return exactly when their checks pass, the build test exactly when the build succeeds, and the command-execution test always, since it swallows every failure |
| IntegrationTests.UtilsCheck | scripts/test-integration.js:95-125 | the utilities pass exactly when they read, load, and mention the four required methods; as written, loading is evaluation as a function body, which fails on any export line; corrected, it is loading as a module |
| IntegrationTests.SuiteOutcomes | scripts/test-integration.js:326-340 | the eight tests, then the Tauri build, which returns exactly when it succeeds, only when `TEST_TAURI_BUILD` is `true` |
| IntegrationTests.SuiteVerdict | scripts/test-integration.js:323-369 | every test of the suite returns exactly when every check passes |
| IntegrationTests.ChecksDemand | scripts/test-integration.js:62-264 | the checks pass exactly when the project holds what they demand: the CLI, the package and Tauri fields, the utilities, every component and every marker file |
| IntegrationTests.RunSuite | scripts/test-integration.js:323-369 | the suite records one result per test in order and passes exactly when the project holds what every check demands; as written it never passes on utilities with an `export` line |

## Left out

- File and process I/O: every file is a text in a map from paths to contents, and a missing key is a file that cannot be read. A failing write is not modelled, and neither are `path.join` and directory creation.
- Logging to the console and to log files is left out everywhere; it has no effect on results.
- Calls into the back end (`invoke`), the GitHub and Docker Hub requests and their URLs (including `encodeURIComponent`), and the npm, cargo and `container` processes of the test suite are inputs: what they returned, or the error they threw.
- `JSON.parse` and `JSON.stringify` are function parameters. JSON numbers are integers. `eval` in the utilities check is modelled only as far as export lines go; any other error loading the utilities is the `loadError` field of `IntegrationTests.Project`.
- Clocks: every `Date.now()` or ISO time stamp is a parameter. Timers (`setInterval` polling, the `setTimeout` delays before a pull's progress is cleared, the monitor's schedule), signal handlers and React rendering are left out.
- Text: strings are sequences of Unicode code points, whereas JavaScript counts UTF-16 code units. The two agree on text without characters beyond the Basic Multilingual Plane. `toLowerCase` and `toUpperCase` are modelled on ASCII letters only. The case-insensitive patterns, whose letters are all ASCII, are exact.
- Local storage in the Marketplace page (`loadFromStorage`, `saveToStorage`) is not modelled: the cached local images and their time stamp are parameters. The featured-image list, `popularImages` and `fetchImageDetails` come from the network and are left out, as are `formatNumber`, `formatDate` and the details panel.
- Presentation-only handlers are left out: `handleInputChange` of the form pages, `createDockerfile`'s template text, `downloadLogs` and `downloadSystemLogs`, `handleSystemLogsToggle`, `handleRefresh` and the tab buttons.
- The monitor's `fetchAllReleases`, `fetchRepoChanges` and `fetchReadmeContent` are network calls whose results nothing in the core uses, and `start()` is a timer loop; both are left out. `triggerIntegrationWorkflow` is the effect it records, not the process it spawns.
- The integrator's `runTests` runs another process, so its verdict is the `testsPass` parameter of `Integrator.Integrate`.
- The test suite's CLI check, project build and Tauri build run outside processes: whether each fails, and with which message, are fields of `IntegrationTests.Project`. The command-execution test also runs processes, but it catches every failure, so it always returns. Test durations are the `elapsed` field.
- backups/pre-0.2.0/src/routes/BuildImage.jsx is an old copy kept as a backup and is not part of this model.
- ReleaseNotes.GenerateReleaseNotes: one clock reading stands for the two `new Date()` calls of the page (the date line and the generation stamp), which can differ by the time it takes to build the text.
- Dashboard.FetchContainers: the `TypeError` messages are written as V8 words them; other engines word them differently. Which container throws, and at which expression, is modelled.
- Dashboard.StatusBadge: takes the status as text; a non-string status, on which `toLowerCase` throws, is not modelled.
- Logs.ChangeOption: an event for a field other than the five the panel has leaves the options unchanged, where the page would add a new key; the panel's inputs only carry those five names.
- RunContainer.RunArgsRoundTrip: requires that the trimmed image is not itself one of the option words (`--detach`, `--publish`, …), since a reader cannot tell such an image from an option.
- Marketplace.Collect: a truthy reference that is not a string is added to the set before `split` throws on it; the model ends the collection at that item without adding it, since the set is meant to hold names.
- Marketplace.CleanupOldProgress: progress values are texts; a non-string value, on which `includes` would throw, is not modelled. Map entries are not kept in `Object.keys` order.
- Marketplace.StartPull: the `Starting pull...` text that `Downloading layers...` replaces before anything is awaited is not modelled. A card without a full name, whose pull the page keys under `undefined`, is not modelled either.
- ContainerUtils.ValidateContainerCLI and ContainerUtils.StartContainerSystem: a result whose output fields are `null` is not modelled; the outputs are texts.
- ReleaseMonitor.LoadState: the parsed state is typed, so a state file of another shape is not modelled. A file holding `null` makes `checkForNewReleases` throw at scripts/monitor-releases.js:305, where it reads `lastProcessedTag`. A file without a `processedReleases` array makes it throw at line 325, after the report has been saved but before the state is.
- VersionBump.ToNumber: only blank pieces and runs of decimal digits are read as numbers; every other piece is taken as `NaN`. `Number` also reads a sign (`-3`), the `0x`, `0o` and `0b` prefixes, exponents (`1e3`) and `Infinity`, so versions such as `1.2.-3` or `1.2.0x1f` bump differently in the script.
- VersionBump.Render: a number is written in plain decimal. `String` switches to exponent form from 10^21 on (`1e+21`), so a version holding such a number is written differently by the script.
- VersionBump.BumpKeepsSemVer: numbers are unbounded integers. `Number` rounds integers past 2^53 to the nearest double, so for larger patch numbers the script's patch need not go up by exactly one.
- IntegrationTests.FunctionBodyEvalError: any line that opens with `export ` counts as an export declaration, even inside a comment or a template literal, and the syntax error's text follows V8's wording.

## Findings

| source | as written | input that shows it | evidently intended | confidence | as-written member | corrected member |
|---|---|---|---|---|---|---|
| scripts/integrate-release.js:353-360 | the page name is appended to the first `export { ... }` list of src/routes/index.js, whatever that list is | an index that opens with `export { default as Dashboard } from './Dashboard';` gets `Network` appended to that re-export, so `Network` is looked for in `./Dashboard` (the index as shipped shows exactly this) | export the page that was just imported, on a line of its own | high, not executed | RoutesIndex.ReExportCounterexample | RoutesIndex.UpdateRoutesIndexFixed |
| scripts/integrate-release.js:47-60 | every detected command gets a method `execute<Command>` in the utilities, including the placeholder `new-command-detected` that the monitor records for lines announcing a command without naming it (scripts/monitor-releases.js:204-207) | a release line `Adds a new command for volumes` yields the method header `executeNew-command-detected(options = {})`, which is not valid JavaScript | generate code only for commands that are words | high, not executed | Integrator.SentinelStubIsNotAnIdentifier | Integrator.UtilsTextHasStubs |
| scripts/test-integration.js:102-106 | the utilities are evaluated as the body of a function, `(function() { ... })()` | src/utils/containerUtils.js as shipped declares `export const validateCommandArgs` at line 8; an export declaration is a syntax error inside a function body, so the check fails on that file and on every file the integrator writes from it | load the file as a module, where export declarations are allowed, and then look for the required names | high, not executed | IntegrationTests.ExportFailsUtilsCheck | IntegrationTests.IntegratedUtilsPass |

The corrected export step is `RoutesIndex.AddExportFixed`. `RoutesIndex.FixedUpdateKeepsIndex` proves that it keeps the old index whole and that a second update changes nothing. The integrator's steps and the test suite take an `Integrator.Variant`. `AsWritten` is the scripts as they stand: every detected command gets a stub, and the utilities are evaluated as a function body. `Corrected` keeps only the commands that are words (`Integrator.CodeCommands`) and loads the utilities as a module. `IntegrationTests.IntegratedUtilsFailCheck` shows that, as written, the utilities the integrator writes fail the check whenever the original has an export line. The shipped utilities also lack three of the four names the check requires (`executeCommand`, `buildImage` and `getContainerLogs`), so even loaded as a module the shipped file fails it.
