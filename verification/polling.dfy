/** One reconciliation cycle of the monitor, as a function from the shared
    state and what the remote API answered to the new state and everything the
    cycle shows: tray icon, tooltip, notifications, the rebuilt menu and the
    published snapshot. Timers, locking and the UI calls are not modelled. */
module Polling {
  import opened Wrappers
  import opened Text
  import Types
  import opened Client
  import opened Config
  import opened Tray

  /** What the API answered for one target: the request for its recent runs
      and, consulted only when the latest run is paused, the request for that
      run's steps. */
  datatype TargetFetch = TargetFetch(
    pipelines: HttpOutcome<seq<Types.Pipeline>>,
    steps: HttpOutcome<seq<Types.PipelineStep>>)

  /** A desktop notification. */
  datatype Notification = Notification(title: string, body: string)

  /** Everything one cycle produces. `menu` is present when the menu is
      rebuilt; `published` is the snapshot sent to the settings window. */
  datatype CycleOutcome = CycleOutcome(
    state: AppState,
    icon: TrayStatus,
    tooltip: string,
    notifications: seq<Notification>,
    menu: Option<StatusMenu>,
    published: Option<OverallStatus>)

  const WebBase: string := "https://bitbucket.org/"

  // ---------------------------------------------------------------------------
  // Classification of one target
  // ---------------------------------------------------------------------------

  /** The classification of a run, first match winning: failed, then paused,
      then running, else healthy. A run is never classified unknown. */
  function Classify(p: Types.Pipeline): (r: PipelineState)
    ensures r != Unknown
    ensures r == Failed <==> Types.IsFailed(p)
    ensures r == Paused <==> !Types.IsFailed(p) && Types.IsPaused(p)
    ensures r == InProgress <==> !Types.IsFailed(p) && Types.IsInProgress(p)
    ensures r == Healthy <==> !Types.IsFailed(p) && !Types.IsPaused(p) && !Types.IsInProgress(p)
  {
    if Types.IsFailed(p) then Failed
    else if Types.IsPaused(p) then Paused
    else if Types.IsInProgress(p) then InProgress
    else Healthy
  }

  /** Classification examples: a failing result wins whatever the coarse
      state, a paused type wins over IN_PROGRESS, and a completed
      successful run is healthy. */
  lemma ClassifyExamples(p: Types.Pipeline)
    ensures p.state.result.Some? && p.state.result.value.name in {"FAILED", "ERROR", "EXPIRED"} ==> Classify(p) == Failed
    ensures (p.state.result.None? && p.state.name == "IN_PROGRESS"
             && p.state.stateType == Some("pipeline_state_in_progress_paused")) ==> Classify(p) == Paused
    ensures (p.state.result == Some(Types.PipelineResult("SUCCESSFUL")) && p.state.name == "COMPLETED"
             && p.state.stateType.None? && p.state.stage.None?) ==> Classify(p) == Healthy
  {
    Types.PausedExamples(p);
  }

  /** Position of the first pending step. */
  function FirstPending(steps: seq<Types.PipelineStep>): (r: Option<nat>)
    ensures r.Some? ==> r.value < |steps| && Types.IsPending(steps[r.value])
                        && forall j :: 0 <= j < r.value ==> !Types.IsPending(steps[j])
    ensures r.None? ==> forall j :: 0 <= j < |steps| ==> !Types.IsPending(steps[j])
  {
    if |steps| == 0 then None
    else if Types.IsPending(steps[0]) then Some(0)
    else match FirstPending(steps[1..])
      case Some(k) => Some(k + 1)
      case None => None
  }

  /** The label of a paused run: the name of its first pending step, or
      "paused" when that step has no name, no step is pending, or the steps
      could not be fetched. */
  function PausedLabel(steps: Result<seq<Types.PipelineStep>, BitbucketError>): (r: string)
    ensures steps.Err? ==> r == "paused"
    ensures steps.Ok? ==>
      ((exists k :: 0 <= k < |steps.value| && Types.IsPending(steps.value[k])
                    && (forall j :: 0 <= j < k ==> !Types.IsPending(steps.value[j]))
                    && steps.value[k].name == Some(r))
       || (r == "paused"
           && forall k :: 0 <= k < |steps.value| && Types.IsPending(steps.value[k])
                          && (forall j :: 0 <= j < k ==> !Types.IsPending(steps.value[j]))
                          ==> steps.value[k].name.None?))
  {
    match steps
    case Err(_) => "paused"
    case Ok(ss) =>
      match FirstPending(ss)
      case Some(k) => ss[k].name.GetOr("paused")
      case None => "paused"
  }

  /** Web page of one run. */
  function ResultsUrl(workspace: string, repoSlug: string, buildNumber: nat): string {
    WebBase + workspace + "/" + repoSlug + "/pipelines/results/" + NatToString(buildNumber)
  }

  /** Web page of a repository's runs. */
  function PipelinesPageUrl(workspace: string, repoSlug: string): string {
    WebBase + workspace + "/" + repoSlug + "/pipelines"
  }

  /** A run's page names its build number, which can be read back from it. */
  lemma ResultsUrlNamesBuild(workspace: string, repoSlug: string, m: nat, n: nat)
    ensures EndsWith(ResultsUrl(workspace, repoSlug, n), "/pipelines/results/" + NatToString(n))
    ensures ResultsUrl(workspace, repoSlug, m) == ResultsUrl(workspace, repoSlug, n) <==> m == n
  {
    var pre := WebBase + workspace + "/" + repoSlug + "/pipelines/results/";
    assert ResultsUrl(workspace, repoSlug, n)[|pre|..] == NatToString(n);
    assert ResultsUrl(workspace, repoSlug, m)[|pre|..] == NatToString(m);
    NatToStringInjective(m, n);
  }

  /** The entry of one target: its identity copied from the configuration,
      and a classification, reason, link and stage label from what was fetched. */
  function BuildEntry(cfg: MonitoredPipeline, f: TargetFetch): (e: PipelineStatusInfo)
    ensures e.workspace == cfg.workspace && e.repoSlug == cfg.repoSlug && e.repoName == cfg.repoName
    ensures e.projectKey == cfg.projectKey && e.projectName == cfg.projectName
    ensures var latest := GetLatestPipeline(cfg.workspace, cfg.repoSlug, cfg.branch, f.pipelines);
      && (latest.Err? ==>
            e.state == Unknown && e.failureReason == Some("Error: " + ErrorMessage(latest.error))
            && e.pipelineUrl.None? && e.stageName.None?)
      && (latest == Ok(None) ==>
            e.state == Unknown && e.failureReason.None?
            && e.pipelineUrl == Some(PipelinesPageUrl(cfg.workspace, cfg.repoSlug)) && e.stageName.None?)
      && (latest.Ok? && latest.value.Some? ==>
            var p := latest.value.value;
            && e.state == Classify(p)
            && e.pipelineUrl == Some(ResultsUrl(cfg.workspace, cfg.repoSlug, p.buildNumber))
            && (e.failureReason.Some? <==> e.state == Failed)
            && (e.state == Failed ==> e.failureReason == Some(p.state.result.value.name))
            && (e.stageName.Some? <==> e.state == Paused)
            && (e.state == Paused ==>
                  e.stageName == Some(PausedLabel(GetPipelineSteps(cfg.workspace, cfg.repoSlug, p.uuid, f.steps)))))
  {
    match GetLatestPipeline(cfg.workspace, cfg.repoSlug, cfg.branch, f.pipelines)
    case Ok(Some(p)) =>
      var state := Classify(p);
      var reason := if state == Failed then p.state.result.Map((r: Types.PipelineResult) => r.name) else None;
      var stage := if state == Paused
                   then Some(PausedLabel(GetPipelineSteps(cfg.workspace, cfg.repoSlug, p.uuid, f.steps)))
                   else None;
      PipelineStatusInfo(cfg.workspace, cfg.projectKey, cfg.projectName, cfg.repoSlug, cfg.repoName,
                         state, reason, Some(ResultsUrl(cfg.workspace, cfg.repoSlug, p.buildNumber)), stage)
    case Ok(None) =>
      PipelineStatusInfo(cfg.workspace, cfg.projectKey, cfg.projectName, cfg.repoSlug, cfg.repoName,
                         Unknown, None, Some(PipelinesPageUrl(cfg.workspace, cfg.repoSlug)), None)
    case Err(e) =>
      PipelineStatusInfo(cfg.workspace, cfg.projectKey, cfg.projectName, cfg.repoSlug, cfg.repoName,
                         Unknown, Some("Error: " + ErrorMessage(e)), None, None)
  }

  /** One entry per target, in the order of the monitored list, whatever each
      fetch returned. */
  function Entries(monitored: seq<MonitoredPipeline>, fetches: seq<TargetFetch>): (r: seq<PipelineStatusInfo>)
    requires |fetches| == |monitored|
    ensures |r| == |monitored|
    ensures forall i :: 0 <= i < |r| ==> r[i] == BuildEntry(monitored[i], fetches[i])
  {
    if |monitored| == 0 then []
    else [BuildEntry(monitored[0], fetches[0])] + Entries(monitored[1..], fetches[1..])
  }

  /** The snapshot of all targets. */
  function CheckAllPipelines(monitored: seq<MonitoredPipeline>, fetches: seq<TargetFetch>, timestamp: string): (r: OverallStatus)
    requires |fetches| == |monitored|
    ensures r.totalMonitored == |r.pipelineStatuses| == |monitored|
    ensures forall i :: 0 <= i < |monitored| ==>
      r.pipelineStatuses[i].workspace == monitored[i].workspace
      && r.pipelineStatuses[i].repoSlug == monitored[i].repoSlug
      && r.pipelineStatuses[i] == BuildEntry(monitored[i], fetches[i])
    ensures r.isHealthy <==> forall i :: 0 <= i < |monitored| ==> r.pipelineStatuses[i].state != Failed
    ensures r.isHealthy <==> |r.failedPipelines| == 0
    ensures r.lastChecked == timestamp
    ensures r == NewOverallStatus(r.pipelineStatuses, timestamp)
  {
    NewOverallStatus(Entries(monitored, fetches), timestamp)
  }

  // ---------------------------------------------------------------------------
  // Notifications
  // ---------------------------------------------------------------------------

  /** Two entries are about the same repository. */
  predicate SameTarget(a: PipelineStatusInfo, b: PipelineStatusInfo) {
    a.workspace == b.workspace && a.repoSlug == b.repoSlug
  }

  /** Position of the first previous entry about the same repository as `e`. */
  function FindPrevious(prev: seq<PipelineStatusInfo>, e: PipelineStatusInfo): (r: Option<nat>)
    ensures r.Some? ==> r.value < |prev| && SameTarget(prev[r.value], e)
                        && forall j :: 0 <= j < r.value ==> !SameTarget(prev[j], e)
    ensures r.None? ==> forall j :: 0 <= j < |prev| ==> !SameTarget(prev[j], e)
  {
    if |prev| == 0 then None
    else if SameTarget(prev[0], e) then Some(0)
    else match FindPrevious(prev[1..], e)
      case Some(k) => Some(k + 1)
      case None => None
  }

  /** `k` is the first previous entry about the same repository as `e`. */
  ghost predicate FirstPrevious(prev: seq<PipelineStatusInfo>, e: PipelineStatusInfo, k: int) {
    0 <= k < |prev| && SameTarget(prev[k], e) && forall j :: 0 <= j < k ==> !SameTarget(prev[j], e)
  }

  /** The target was not failed before and is failed now. */
  ghost predicate BecameFailed(prev: seq<PipelineStatusInfo>, e: PipelineStatusInfo) {
    exists k :: FirstPrevious(prev, e, k) && prev[k].state != Failed && e.state == Failed
  }

  /** The target was failed before and is healthy now. */
  ghost predicate BecameHealthy(prev: seq<PipelineStatusInfo>, e: PipelineStatusInfo) {
    exists k :: FirstPrevious(prev, e, k) && prev[k].state == Failed && e.state == Healthy
  }

  /** The body of a notification: the display name, what happened, and the
      link on a second line when there is one. */
  function NotificationBody(e: PipelineStatusInfo, what: string): string {
    match e.pipelineUrl
    case Some(url) => DisplayName(e) + what + "\n" + url
    case None => DisplayName(e) + what
  }

  /** The notification, if any, that entry `e` causes against the previous entries. */
  function NotificationFor(prev: seq<PipelineStatusInfo>, e: PipelineStatusInfo): (r: Option<Notification>)
    ensures (r.Some? && r.value.title == "Pipeline Failed") <==> BecameFailed(prev, e)
    ensures (r.Some? && r.value.title == "Pipeline Fixed") <==> BecameHealthy(prev, e)
    ensures r.Some? ==> r.value.title in {"Pipeline Failed", "Pipeline Fixed"}
    ensures r.Some? && r.value.title == "Pipeline Failed" ==> r.value.body == NotificationBody(e, " has failed")
    ensures r.Some? && r.value.title == "Pipeline Fixed" ==> r.value.body == NotificationBody(e, " is now healthy")
  {
    match FindPrevious(prev, e)
    case None => None
    case Some(k) =>
      var wasFailed := prev[k].state == Failed;
      var isFailed := e.state == Failed;
      if !wasFailed && isFailed then Some(Notification("Pipeline Failed", NotificationBody(e, " has failed")))
      else if wasFailed && !isFailed && e.state == Healthy then
        Some(Notification("Pipeline Fixed", NotificationBody(e, " is now healthy")))
      else None
  }

  /** What each new entry causes, entry by entry. */
  function Outcomes(prev: seq<PipelineStatusInfo>, news: seq<PipelineStatusInfo>): (r: seq<Option<Notification>>)
    ensures |r| == |news|
    ensures forall i :: 0 <= i < |news| ==> r[i] == NotificationFor(prev, news[i])
  {
    seq(|news|, i requires 0 <= i < |news| => NotificationFor(prev, news[i]))
  }

  /** Positions of the present values, in increasing order. */
  function PresentPositions<T>(xs: seq<Option<T>>): (r: seq<nat>)
    ensures forall k :: 0 <= k < |r| ==> r[k] < |xs| && xs[r[k]].Some?
    ensures forall k, l :: 0 <= k < l < |r| ==> r[k] < r[l]
    ensures forall i :: 0 <= i < |xs| && xs[i].Some? ==> i in r
    ensures |r| <= |xs|
  {
    if |xs| == 0 then []
    else
      var prefix := PresentPositions(xs[..|xs| - 1]);
      if xs[|xs| - 1].Some? then prefix + [|xs| - 1] else prefix
  }

  /** The present values, in order: the k-th is the value at the k-th present position. */
  function PresentValues<T>(xs: seq<Option<T>>): (r: seq<T>)
    ensures |r| == |PresentPositions(xs)|
    ensures forall k :: 0 <= k < |r| ==> xs[PresentPositions(xs)[k]] == Some(r[k])
  {
    if |xs| == 0 then []
    else
      var rest := PresentValues(xs[..|xs| - 1]);
      match xs[|xs| - 1]
      case Some(n) => rest + [n]
      case None => rest
  }

  /** Positions of the new entries that cause a notification, in increasing order. */
  function NotifyingPositions(prev: seq<PipelineStatusInfo>, news: seq<PipelineStatusInfo>): (r: seq<nat>)
    ensures forall k :: 0 <= k < |r| ==> r[k] < |news| && NotificationFor(prev, news[r[k]]).Some?
    ensures forall k, l :: 0 <= k < l < |r| ==> r[k] < r[l]
    ensures forall i :: 0 <= i < |news| && NotificationFor(prev, news[i]).Some? ==> i in r
    ensures |r| <= |news|
  {
    PresentPositions(Outcomes(prev, news))
  }

  /** The notifications of all new entries, in entry order: the k-th one is
      the notification of the k-th notifying entry. */
  function NotifyAll(prev: seq<PipelineStatusInfo>, news: seq<PipelineStatusInfo>): (r: seq<Notification>)
    ensures |r| <= |news|
    ensures |r| == |NotifyingPositions(prev, news)|
    ensures forall k :: 0 <= k < |r| ==>
      NotificationFor(prev, news[NotifyingPositions(prev, news)[k]]) == Some(r[k])
  {
    PresentValues(Outcomes(prev, news))
  }

  /** The notifications of a cycle: none without a previous snapshot. */
  function Notifications(previous: Option<OverallStatus>, current: OverallStatus): (r: seq<Notification>)
    ensures previous.None? ==> r == []
    ensures previous.Some? ==> r == NotifyAll(previous.value.pipelineStatuses, current.pipelineStatuses)
  {
    match previous
    case None => []
    case Some(prev) => NotifyAll(prev.pipelineStatuses, current.pipelineStatuses)
  }

  /** A one-target snapshot. */
  function Single(e: PipelineStatusInfo): OverallStatus {
    NewOverallStatus([e], "")
  }

  /** Transitions of one target: healthy to failed notifies once, failed to
      failed not at all, failed to healthy once as fixed, and failed to paused,
      running or unknown not at all. */
  lemma TransitionExamples(a: PipelineStatusInfo, b: PipelineStatusInfo)
    requires SameTarget(a, b)
    ensures a.state == Healthy && b.state == Failed ==>
      |Notifications(Some(Single(a)), Single(b))| == 1
      && Notifications(Some(Single(a)), Single(b))[0].title == "Pipeline Failed"
    ensures a.state == Failed && b.state == Failed ==> Notifications(Some(Single(a)), Single(b)) == []
    ensures a.state == Failed && b.state == Healthy ==>
      |Notifications(Some(Single(a)), Single(b))| == 1
      && Notifications(Some(Single(a)), Single(b))[0].title == "Pipeline Fixed"
    ensures a.state == Failed && b.state in {Paused, InProgress, Unknown} ==>
      Notifications(Some(Single(a)), Single(b)) == []
  {
  }

  /** Entries are matched by workspace and slug only, so when one repository
      is monitored on two branches, both new entries are compared with the
      first previous entry: a second branch that turns failed while the first
      stays failed raises no notification. */
  lemma SameRepositoryShadowsBranches(a: PipelineStatusInfo, b: PipelineStatusInfo,
                                      a2: PipelineStatusInfo, b2: PipelineStatusInfo)
    requires SameTarget(a, b) && SameTarget(a, a2) && SameTarget(b, b2)
    requires a.state == Failed && b.state == Healthy && a2.state == Failed && b2.state == Failed
    ensures NotifyAll([a, b], [a2, b2]) == []
  {
  }

  /** A target with no previous entry never notifies. */
  lemma NewTargetIsSilent(prev: seq<PipelineStatusInfo>, e: PipelineStatusInfo)
    requires forall j :: 0 <= j < |prev| ==> !SameTarget(prev[j], e)
    ensures NotificationFor(prev, e).None?
  {
  }

  // ---------------------------------------------------------------------------
  // Change detection
  // ---------------------------------------------------------------------------

  /** Some position present in both lists holds different states. */
  function StatesDiffer(a: seq<PipelineStatusInfo>, b: seq<PipelineStatusInfo>): (r: bool)
    ensures r <==> exists i :: 0 <= i < |a| && i < |b| && a[i].state != b[i].state
  {
    if |a| == 0 || |b| == 0 then false
    else if a[0].state != b[0].state then true
    else
      var r := StatesDiffer(a[1..], b[1..]);
      assert forall i :: 1 <= i < |a| && i < |b| ==> a[i] == a[1..][i - 1] && b[i] == b[1..][i - 1];
      r
  }

  /** Whether the displayed status changed: always without a previous
      snapshot; otherwise when health, the number of entries or some
      position's state differs. */
  function StatusChanged(previous: Option<OverallStatus>, current: OverallStatus): (r: bool)
    ensures previous.None? ==> r
    ensures previous.Some? ==>
      (r <==> previous.value.isHealthy != current.isHealthy
              || |previous.value.pipelineStatuses| != |current.pipelineStatuses|
              || exists i :: 0 <= i < |previous.value.pipelineStatuses| && i < |current.pipelineStatuses|
                             && previous.value.pipelineStatuses[i].state != current.pipelineStatuses[i].state)
  {
    match previous
    case None => true
    case Some(prev) =>
      prev.isHealthy != current.isHealthy
      || |prev.pipelineStatuses| != |current.pipelineStatuses|
      || StatesDiffer(prev.pipelineStatuses, current.pipelineStatuses)
  }

  /** The same states at every position (other fields may differ). */
  ghost predicate SameStates(a: seq<PipelineStatusInfo>, b: seq<PipelineStatusInfo>) {
    |a| == |b| && forall i :: 0 <= i < |a| ==> a[i].state == b[i].state
  }

  /** Only health, length and states matter: timestamps, reasons, links and
      stage labels do not make a change. Two snapshots built from entries with
      the same states are unchanged. */
  lemma StatusChangeIgnoresPayload(prev: seq<PipelineStatusInfo>, cur: seq<PipelineStatusInfo>, t1: string, t2: string)
    requires SameStates(prev, cur)
    ensures !StatusChanged(Some(NewOverallStatus(prev, t1)), NewOverallStatus(cur, t2))
  {
  }

  // ---------------------------------------------------------------------------
  // Tooltip
  // ---------------------------------------------------------------------------

  const NotConfiguredTooltip: string := "cdMenu - Not configured"
  const NoPipelinesTooltip: string := "cdMenu - No pipelines selected"
  const AuthRequiredTooltip: string := "cdMenu - Auth required"

  /** How many failed targets the tooltip names. */
  const TooltipNameLimit: nat := 3

  /** "workspace/slug" of the first failed targets, at most three. */
  function FailedNames(failed: seq<FailedPipelineInfo>): (r: seq<string>)
    ensures |r| == if |failed| < TooltipNameLimit then |failed| else TooltipNameLimit
    ensures forall i :: 0 <= i < |r| ==> r[i] == failed[i].workspace + "/" + failed[i].repoSlug
  {
    var n := if |failed| < TooltipNameLimit then |failed| else TooltipNameLimit;
    seq(n, i requires 0 <= i < n => failed[i].workspace + "/" + failed[i].repoSlug)
  }

  /** " +k more" for the failed targets beyond the third, else nothing. */
  function MoreSuffix(failedCount: nat): (r: string)
    ensures r == "" <==> failedCount <= TooltipNameLimit
    ensures failedCount > TooltipNameLimit ==>
      && |r| > 7 && StartsWith(r, " +") && EndsWith(r, " more")
      && (forall i :: 2 <= i < |r| - 5 ==> IsDigit(r[i]))
      && DigitsValue(r[2..|r| - 5]) == failedCount - TooltipNameLimit
  {
    if failedCount > TooltipNameLimit then
      var digits := NatToString(failedCount - TooltipNameLimit);
      var r := " +" + digits + " more";
      assert r[2..|r| - 5] == digits;
      NatToStringRoundTrip(failedCount - TooltipNameLimit);
      r
    else ""
  }

  /** The "in progress" line: present only when something is running. */
  function InProgressLine(count: nat): (r: string)
    ensures r == "" <==> count == 0
    ensures count > 0 ==>
      && |r| > 13 && StartsWith(r, "\n") && EndsWith(r, " in progress")
      && (forall i :: 1 <= i < |r| - 12 ==> IsDigit(r[i]))
      && DigitsValue(r[1..|r| - 12]) == count
  {
    if count > 0 then
      var digits := NatToString(count);
      var r := "\n" + digits + " in progress";
      assert r[1..|r| - 12] == digits;
      NatToStringRoundTrip(count);
      r
    else ""
  }

  /** The tooltip of a completed cycle. */
  function Tooltip(status: OverallStatus): (r: string)
    ensures StartsWith(r, "cdMenu\n")
    ensures EndsWith(r, "\nLast checked: " + status.lastChecked)
  {
    var tail := "\nLast checked: " + status.lastChecked;
    if status.isHealthy then
      "cdMenu\n" + NatToString(status.totalMonitored) + " pipeline(s) healthy"
        + InProgressLine(status.inProgressCount) + tail
    else
      "cdMenu\n" + NatToString(|status.failedPipelines|) + " pipeline(s) FAILED"
        + "\n" + Join(FailedNames(status.failedPipelines), ", ")
        + MoreSuffix(|status.failedPipelines|) + tail
  }

  // ---------------------------------------------------------------------------
  // The cycle
  // ---------------------------------------------------------------------------

  /** A snapshot whose health flag and count agree with its entries. */
  ghost predicate WellFormedStatus(o: OverallStatus) {
    && (o.isHealthy <==> forall i :: 0 <= i < |o.pipelineStatuses| ==> o.pipelineStatuses[i].state != Failed)
    && (o.isHealthy <==> |o.failedPipelines| == 0)
    && o.totalMonitored == |o.pipelineStatuses|
  }

  /** The cycle does not run: no credentials, or nothing to monitor. */
  predicate Unconfigured(s: AppState) {
    s.credentials.None? || |s.monitoredPipelines| == 0
  }

  /** One polling cycle. `appPassword` is what the credentials file yielded,
      `fetches[i]` what the API answered for the i-th monitored target, and
      `timestamp` the formatted local time. */
  function CheckPipelinesOnce(s: AppState, appPassword: Option<string>, fetches: seq<TargetFetch>,
                              timestamp: string): (r: CycleOutcome)
    requires |fetches| == |s.monitoredPipelines|
    ensures Unconfigured(s) ==>
      && r.state == s && r.icon == Gray && r.notifications == [] && r.menu.None? && r.published.None?
      && r.tooltip == (if s.credentials.None? then NotConfiguredTooltip else NoPipelinesTooltip)
    ensures !Unconfigured(s) && appPassword.None? ==>
      r.state == s && r.icon == Gray && r.tooltip == AuthRequiredTooltip
      && r.notifications == [] && r.menu.None? && r.published.None?
    ensures !Unconfigured(s) && appPassword.Some? ==>
      var status := CheckAllPipelines(s.monitoredPipelines, fetches, timestamp);
      && r.state == s.(lastStatus := Some(status))
      && r.published == Some(status)
      && (r.icon == Green <==> status.isHealthy)
      && (r.icon == Red <==> !status.isHealthy)
      && r.tooltip == Tooltip(status)
      && r.notifications == Notifications(s.lastStatus, status)
      && (r.menu.Some? <==> StatusChanged(s.lastStatus, status))
      && (r.menu.Some? ==> r.menu.value == BuildStatusMenu(Some(status)))
  {
    if Unconfigured(s) then
      CycleOutcome(s, Gray, if s.credentials.None? then NotConfiguredTooltip else NoPipelinesTooltip,
                   [], None, None)
    else if appPassword.None? then
      CycleOutcome(s, Gray, AuthRequiredTooltip, [], None, None)
    else
      var status := CheckAllPipelines(s.monitoredPipelines, fetches, timestamp);
      var icon := if status.isHealthy then Green else Red;
      var notes := Notifications(s.lastStatus, status);
      var changed := StatusChanged(s.lastStatus, status);
      CycleOutcome(s.(lastStatus := Some(status)), icon, Tooltip(status), notes,
                   if changed then Some(BuildStatusMenu(Some(status))) else None, Some(status))
  }

  /** A completed cycle leaves credentials, targets and interval alone, stores a
      well-formed snapshot with one entry per target whether or not the display
      changed, and keeps the invariant that the stored snapshot is well formed. */
  lemma CyclePreservesState(s: AppState, appPassword: Option<string>, fetches: seq<TargetFetch>, timestamp: string)
    requires |fetches| == |s.monitoredPipelines|
    requires s.lastStatus.Some? ==> WellFormedStatus(s.lastStatus.value)
    ensures var r := CheckPipelinesOnce(s, appPassword, fetches, timestamp);
      && r.state.credentials == s.credentials
      && r.state.monitoredPipelines == s.monitoredPipelines
      && r.state.pollingIntervalSeconds == s.pollingIntervalSeconds
      && (r.state.lastStatus.Some? ==> WellFormedStatus(r.state.lastStatus.value))
      && (!Unconfigured(s) && appPassword.Some? ==>
            r.state.lastStatus.Some? && r.state.lastStatus.value.totalMonitored == |s.monitoredPipelines|)
  {
  }

  /** When every target keeps its state, the menu is not rebuilt, but the new
      snapshot is still stored and published. */
  lemma UnchangedStatesKeepMenu(s: AppState, appPassword: Option<string>, fetches: seq<TargetFetch>, timestamp: string)
    requires |fetches| == |s.monitoredPipelines|
    requires !Unconfigured(s) && appPassword.Some?
    requires s.lastStatus.Some? && WellFormedStatus(s.lastStatus.value)
    requires |s.lastStatus.value.pipelineStatuses| == |s.monitoredPipelines|
    requires forall i :: 0 <= i < |s.monitoredPipelines| ==>
      s.lastStatus.value.pipelineStatuses[i].state == BuildEntry(s.monitoredPipelines[i], fetches[i]).state
    ensures var r := CheckPipelinesOnce(s, appPassword, fetches, timestamp);
      && r.menu.None?
      && r.state.lastStatus == Some(CheckAllPipelines(s.monitoredPipelines, fetches, timestamp))
      && r.published == r.state.lastStatus
  {
    SameStatesNoChange(s.lastStatus.value, s.monitoredPipelines, fetches, timestamp);
  }

  /** A well-formed snapshot whose states are those the answers produce is
      not changed by the snapshot built from those answers. */
  lemma SameStatesNoChange(prev: OverallStatus, monitored: seq<MonitoredPipeline>,
                           fetches: seq<TargetFetch>, timestamp: string)
    requires |fetches| == |monitored| == |prev.pipelineStatuses|
    requires WellFormedStatus(prev)
    requires forall i :: 0 <= i < |monitored| ==>
      prev.pipelineStatuses[i].state == BuildEntry(monitored[i], fetches[i]).state
    ensures !StatusChanged(Some(prev), CheckAllPipelines(monitored, fetches, timestamp))
  {
    var status := CheckAllPipelines(monitored, fetches, timestamp);
    FreshSnapshotKeepsStates(prev, monitored, fetches, timestamp);
    SameStatesUnchanged(prev, status);
  }

  /** The snapshot built from the answers is well formed and, under the same
      assumption, has the previous snapshot's states. */
  lemma FreshSnapshotKeepsStates(prev: OverallStatus, monitored: seq<MonitoredPipeline>,
                                 fetches: seq<TargetFetch>, timestamp: string)
    requires |fetches| == |monitored| == |prev.pipelineStatuses|
    requires forall i :: 0 <= i < |monitored| ==>
      prev.pipelineStatuses[i].state == BuildEntry(monitored[i], fetches[i]).state
    ensures WellFormedStatus(CheckAllPipelines(monitored, fetches, timestamp))
    ensures SameStates(prev.pipelineStatuses, CheckAllPipelines(monitored, fetches, timestamp).pipelineStatuses)
  {
  }

  /** Two well-formed snapshots whose entries have the same states at every
      position do not count as a change. */
  lemma SameStatesUnchanged(prev: OverallStatus, cur: OverallStatus)
    requires WellFormedStatus(prev) && WellFormedStatus(cur)
    requires SameStates(prev.pipelineStatuses, cur.pipelineStatuses)
    ensures !StatusChanged(Some(prev), cur)
  {
    assert prev.isHealthy == cur.isHealthy;
  }
}
