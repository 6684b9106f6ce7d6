/** The cursor of the release monitor (scripts/monitor-releases.js): the state
    record kept between checks, its default, and what one check does to it. */
module ReleaseMonitor {
  import opened Wrappers
  import opened ReleaseAnalysis
  import opened ReleaseReport

  /** One entry of the processed-release history. */
  datatype ProcessedRelease = ProcessedRelease(tag: string, processedAt: string, releaseId: int)

  /** The state record; `null` fields are `None`. */
  datatype MonitorState = MonitorState(
    lastCheckedRelease: Option<int>,
    lastProcessedTag: Option<string>,
    processedReleases: seq<ProcessedRelease>,
    lastCheckTime: Option<string>)

  /** The state used when none can be read. */
  const DefaultState: MonitorState := MonitorState(None, None, [], None)

  /** `loadState()`: the stored text, if the file could be read, handed to a
      parser that may fail; either failure yields the default state. */
  function LoadState(stored: Option<string>, parse: string -> Option<MonitorState>): (s: MonitorState)
    ensures stored.None? ==> s == DefaultState
    ensures stored.Some? && parse(stored.value).None? ==> s == DefaultState
    ensures stored.Some? && parse(stored.value).Some? ==> s == parse(stored.value).value
  {
    match stored
    case None => DefaultState
    case Some(text) => parse(text).GetOr(DefaultState)
  }

  /** The outside effects of a check, in the order they happen. */
  datatype Effect =
    | SaveReport(report: Report)
    | SaveState(state: MonitorState)
    | TriggerIntegration(report: Report)

  /** The outcome of one check: whether a new release was processed, the state
      afterwards, and the effects performed. */
  datatype CheckOutcome = CheckOutcome(newRelease: bool, state: MonitorState, effects: seq<Effect>)

  /** The clock readings one check takes: the report's timestamp, the history
      entry's `processedAt` and the new `lastCheckTime` are three separate
      `new Date()` calls, which may differ. */
  datatype Clock = Clock(report: string, processed: string, checked: string)

  /** `checkForNewReleases()` given the loaded state, the fetched latest release
      (`None` when the fetch failed) and the clock readings. */
  function CheckForNewReleases(state: MonitorState, latest: Option<Release>, clock: Clock): (o: CheckOutcome)
    ensures latest.None? ==> !o.newRelease && o.state == state && o.effects == []
    ensures latest.Some? && state.lastProcessedTag == Some(latest.value.tagName) ==>
      && !o.newRelease
      && o.state == state.(lastCheckTime := Some(clock.checked))
      && o.effects == [SaveState(o.state)]
    ensures latest.Some? && state.lastProcessedTag != Some(latest.value.tagName) ==>
      && o.newRelease
      && o.state.lastProcessedTag == Some(latest.value.tagName)
      && o.state.lastCheckedRelease == Some(latest.value.id)
      && o.state.processedReleases
         == state.processedReleases + [ProcessedRelease(latest.value.tagName, clock.processed, latest.value.id)]
      && o.state.lastCheckTime == Some(clock.checked)
      && |o.effects| == 3 && o.effects[1] == SaveState(o.state)
      && o.effects[0]
         == SaveReport(GenerateReleaseReport(latest.value, AnalyzeReleaseNotes(latest.value), clock.report))
      && o.effects[2] == TriggerIntegration(o.effects[0].report)
  {
    match latest
    case None => CheckOutcome(false, state, [])
    case Some(release) =>
      if state.lastProcessedTag == Some(release.tagName) then
        var s := state.(lastCheckTime := Some(clock.checked));
        CheckOutcome(false, s, [SaveState(s)])
      else
        var analysis := AnalyzeReleaseNotes(release);
        var report := GenerateReleaseReport(release, analysis, clock.report);
        var s := MonitorState(
          Some(release.id),
          Some(release.tagName),
          state.processedReleases + [ProcessedRelease(release.tagName, clock.processed, release.id)],
          Some(clock.checked));
        CheckOutcome(true, s, [SaveReport(report), SaveState(s), TriggerIntegration(report)])
  }

  /** The position of the first effect satisfying `p`, if any. */
  function FirstEffect(effects: seq<Effect>, p: Effect -> bool): (r: Option<nat>)
    ensures r.Some? ==> r.value < |effects| && p(effects[r.value])
    ensures r.Some? ==> forall j :: 0 <= j < r.value ==> !p(effects[j])
    ensures r.None? ==> forall j :: 0 <= j < |effects| ==> !p(effects[j])
    decreases |effects|
  {
    if |effects| == 0 then None
    else if p(effects[0]) then Some(0)
    else
      match FirstEffect(effects[1..], p)
      case None => None
      case Some(k) => Some(k + 1)
  }

  predicate IsSaveState(e: Effect) { e.SaveState? }
  predicate IsTrigger(e: Effect) { e.TriggerIntegration? }

  /** Whenever integration is triggered, the new state has been saved first,
      and the report handed over is the one saved. */
  lemma StateSavedBeforeIntegration(state: MonitorState, latest: Option<Release>, clock: Clock)
    ensures var o := CheckForNewReleases(state, latest, clock);
      FirstEffect(o.effects, IsTrigger).Some? ==>
        && FirstEffect(o.effects, IsSaveState).Some?
        && FirstEffect(o.effects, IsSaveState).value < FirstEffect(o.effects, IsTrigger).value
        && o.effects[0] == SaveReport(o.effects[FirstEffect(o.effects, IsTrigger).value].report)
  {
    var o := CheckForNewReleases(state, latest, clock);
    if FirstEffect(o.effects, IsTrigger).Some? {
      assert o.newRelease;
      assert !IsTrigger(o.effects[0]) && !IsTrigger(o.effects[1]) && IsTrigger(o.effects[2]);
      assert FirstEffect(o.effects, IsTrigger) == Some(2);
      assert FirstEffect(o.effects, IsSaveState) == Some(1);
    }
  }

  /** A release is processed once: checking again with the same latest release
      only refreshes the check time. */
  lemma CheckIsIdempotent(state: MonitorState, release: Release, clock1: Clock, clock2: Clock)
    ensures var o1 := CheckForNewReleases(state, Some(release), clock1);
      var o2 := CheckForNewReleases(o1.state, Some(release), clock2);
      && !o2.newRelease
      && o2.state == o1.state.(lastCheckTime := Some(clock2.checked))
  {
  }

  /** The history only grows, by one entry per new release, and always ends
      with the release the cursor points at. */
  lemma HistoryGrowsByOne(state: MonitorState, latest: Option<Release>, clock: Clock)
    ensures var o := CheckForNewReleases(state, latest, clock);
      && o.state.processedReleases[..|state.processedReleases|] == state.processedReleases
      && |o.state.processedReleases| == |state.processedReleases| + (if o.newRelease then 1 else 0)
      && (o.newRelease ==> o.state.processedReleases[|o.state.processedReleases| - 1].tag
                           == o.state.lastProcessedTag.value)
  {
  }
}
