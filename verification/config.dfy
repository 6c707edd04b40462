/** Application state, the persisted configuration, and the aggregation of
    per-target results into one status snapshot. */
module Config {
  import opened Wrappers

  /** The user name; the app password is kept outside the state. */
  datatype Credentials = Credentials(username: string)

  /** A monitored target, identified by (workspace, repo slug, branch). */
  datatype MonitoredPipeline = MonitoredPipeline(
    workspace: string,
    projectKey: Option<string>,
    projectName: Option<string>,
    repoSlug: string,
    repoName: string,
    branch: Option<string>)

  /** Classification of one target. */
  datatype PipelineState = Healthy | Failed | InProgress | Paused | Unknown

  /** The classifier's output for one target. */
  datatype PipelineStatusInfo = PipelineStatusInfo(
    workspace: string,
    projectKey: Option<string>,
    projectName: Option<string>,
    repoSlug: string,
    repoName: string,
    state: PipelineState,
    failureReason: Option<string>,
    pipelineUrl: Option<string>,
    stageName: Option<string>)

  /** Summary of a failed target. `buildNumber` is a `u32` in the source. */
  datatype FailedPipelineInfo = FailedPipelineInfo(
    workspace: string,
    repoSlug: string,
    repoName: string,
    branch: Option<string>,
    buildNumber: nat,
    failureReason: string)

  /** The snapshot one polling cycle produces. */
  datatype OverallStatus = OverallStatus(
    isHealthy: bool,
    failedPipelines: seq<FailedPipelineInfo>,
    pipelineStatuses: seq<PipelineStatusInfo>,
    inProgressCount: nat,
    totalMonitored: nat,
    lastChecked: string)

  /** What is written to the configuration file. */
  datatype PersistedConfig = PersistedConfig(
    username: Option<string>,
    monitoredPipelines: seq<MonitoredPipeline>,
    pollingIntervalSeconds: nat)

  /** The shared application state. */
  datatype AppState = AppState(
    credentials: Option<Credentials>,
    monitoredPipelines: seq<MonitoredPipeline>,
    pollingIntervalSeconds: nat,
    lastStatus: Option<OverallStatus>)

  /** The smallest polling interval the application accepts, in seconds. */
  const MinPollingInterval: nat := 30

  /** The polling interval of a fresh state, and of a loaded one whose stored
      interval is below the minimum. */
  const DefaultPollingInterval: nat := 60

  /** Failure reason of a failed target that recorded none. */
  const UnknownReason: string := "Unknown"

  /** The name a target is shown under: its repository name, or its slug when
      the name is empty. */
  function DisplayName(p: PipelineStatusInfo): (r: string)
    ensures r == p.repoName || (p.repoName == "" && r == p.repoSlug)
    ensures r == "" ==> p.repoName == "" && p.repoSlug == ""
  {
    if p.repoName == "" then p.repoSlug else p.repoName
  }

  // ---------------------------------------------------------------------------
  // AppState and its persisted form
  // ---------------------------------------------------------------------------

  /** The state before any configuration is loaded. */
  function NewAppState(): (s: AppState)
    ensures s.credentials.None? && |s.monitoredPipelines| == 0 && s.lastStatus.None?
    ensures s.pollingIntervalSeconds == DefaultPollingInterval
  {
    AppState(None, [], DefaultPollingInterval, None)
  }

  /** The part of the state that is saved: user name, targets and interval. */
  function ToPersisted(s: AppState): (c: PersistedConfig)
    ensures c.username.Some? <==> s.credentials.Some?
    ensures c.username.Some? ==> c.username.value == s.credentials.value.username
    ensures c.monitoredPipelines == s.monitoredPipelines
    ensures c.pollingIntervalSeconds == s.pollingIntervalSeconds
  {
    PersistedConfig(s.credentials.Map((cr: Credentials) => cr.username), s.monitoredPipelines,
                    s.pollingIntervalSeconds)
  }

  /** The state rebuilt from a saved configuration: no status yet, and an
      interval below the minimum replaced by the default. */
  function FromPersisted(c: PersistedConfig): (s: AppState)
    ensures s.pollingIntervalSeconds >= MinPollingInterval
    ensures c.pollingIntervalSeconds >= MinPollingInterval ==> s.pollingIntervalSeconds == c.pollingIntervalSeconds
    ensures c.pollingIntervalSeconds < MinPollingInterval ==> s.pollingIntervalSeconds == DefaultPollingInterval
    ensures s.lastStatus.None?
    ensures s.monitoredPipelines == c.monitoredPipelines
    ensures s.credentials.Some? <==> c.username.Some?
    ensures s.credentials.Some? ==> s.credentials.value.username == c.username.value
  {
    AppState(
      c.username.Map((u: string) => Credentials(u)),
      c.monitoredPipelines,
      if c.pollingIntervalSeconds >= MinPollingInterval then c.pollingIntervalSeconds else DefaultPollingInterval,
      None)
  }

  /** Saving and reloading keeps the targets and the user name, keeps an
      interval that meets the minimum and forgets the last status. */
  lemma SaveLoadRoundTrip(s: AppState)
    ensures FromPersisted(ToPersisted(s)).monitoredPipelines == s.monitoredPipelines
    ensures FromPersisted(ToPersisted(s)).credentials == s.credentials
    ensures s.pollingIntervalSeconds >= MinPollingInterval ==>
      FromPersisted(ToPersisted(s)) == s.(lastStatus := None)
    ensures FromPersisted(ToPersisted(s)).pollingIntervalSeconds >= MinPollingInterval
  {
  }

  /** Loading and saving again reproduces a configuration whose interval meets
      the minimum. */
  lemma LoadSaveRoundTrip(c: PersistedConfig)
    ensures c.pollingIntervalSeconds >= MinPollingInterval ==> ToPersisted(FromPersisted(c)) == c
    ensures c.pollingIntervalSeconds < MinPollingInterval ==>
      ToPersisted(FromPersisted(c)) == c.(pollingIntervalSeconds := DefaultPollingInterval)
  {
  }

  // ---------------------------------------------------------------------------
  // Aggregation
  // ---------------------------------------------------------------------------

  /** The positions, in increasing order, of the entries in state `st`. */
  function Positions(s: seq<PipelineStatusInfo>, st: PipelineState): (r: seq<nat>)
    ensures forall k :: 0 <= k < |r| ==> r[k] < |s| && s[r[k]].state == st
    ensures forall k, l :: 0 <= k < l < |r| ==> r[k] < r[l]
    ensures forall i :: 0 <= i < |s| && s[i].state == st ==> i in r
    ensures |r| <= |s|
  {
    if |s| == 0 then []
    else
      var prefix := Positions(s[..|s| - 1], st);
      if s[|s| - 1].state == st then prefix + [|s| - 1] else prefix
  }

  /** No position is listed exactly when no entry is in state `st`. */
  lemma PositionsEmptyIff(s: seq<PipelineStatusInfo>, st: PipelineState)
    ensures |Positions(s, st)| == 0 <==> forall i :: 0 <= i < |s| ==> s[i].state != st
  {
  }

  /** The number of entries in state `st`. */
  function CountState(s: seq<PipelineStatusInfo>, st: PipelineState): (n: nat)
    ensures n == |Positions(s, st)|
    ensures n <= |s|
  {
    if |s| == 0 then 0
    else CountState(s[..|s| - 1], st) + (if s[|s| - 1].state == st then 1 else 0)
  }

  /** The summary of a failed entry: no branch, build number 0, and the
      recorded reason or "Unknown". */
  function FailedSummary(p: PipelineStatusInfo): FailedPipelineInfo {
    FailedPipelineInfo(p.workspace, p.repoSlug, p.repoName, None, 0, p.failureReason.GetOr(UnknownReason))
  }

  /** The summaries of the failed entries, in input order. */
  function FailedInfos(s: seq<PipelineStatusInfo>): (r: seq<FailedPipelineInfo>)
    ensures |r| == |Positions(s, Failed)|
    ensures forall k :: 0 <= k < |r| ==> r[k] == FailedSummary(s[Positions(s, Failed)[k]])
  {
    if |s| == 0 then []
    else
      var prefix := FailedInfos(s[..|s| - 1]);
      if s[|s| - 1].state == Failed then prefix + [FailedSummary(s[|s| - 1])] else prefix
  }

  /** Builds the snapshot of one cycle from the per-target entries. */
  function NewOverallStatus(statuses: seq<PipelineStatusInfo>, timestamp: string): (r: OverallStatus)
    ensures r.pipelineStatuses == statuses
    ensures r.totalMonitored == |statuses| == |r.pipelineStatuses|
    ensures r.lastChecked == timestamp
    ensures r.isHealthy <==> forall i :: 0 <= i < |statuses| ==> statuses[i].state != Failed
    ensures r.isHealthy <==> |r.failedPipelines| == 0
    ensures |r.failedPipelines| == |Positions(statuses, Failed)|
    ensures forall k :: 0 <= k < |r.failedPipelines| ==>
      var p := statuses[Positions(statuses, Failed)[k]];
      && r.failedPipelines[k].workspace == p.workspace
      && r.failedPipelines[k].repoSlug == p.repoSlug
      && r.failedPipelines[k].repoName == p.repoName
      && r.failedPipelines[k].branch.None?
      && r.failedPipelines[k].buildNumber == 0
      && (p.failureReason.Some? ==> r.failedPipelines[k].failureReason == p.failureReason.value)
      && (p.failureReason.None? ==> r.failedPipelines[k].failureReason == UnknownReason)
    ensures r.inProgressCount == |Positions(statuses, InProgress)|
  {
    var failed := FailedInfos(statuses);
    PositionsEmptyIff(statuses, Failed);
    OverallStatus(|failed| == 0, failed, statuses, CountState(statuses, InProgress), |statuses|, timestamp)
  }

  /** Every entry is in exactly one state, so the five counts add up to the
      number of entries. */
  lemma {:induction false} CountsPartition(s: seq<PipelineStatusInfo>)
    ensures CountState(s, Healthy) + CountState(s, Failed) + CountState(s, InProgress)
            + CountState(s, Paused) + CountState(s, Unknown) == |s|
  {
    if |s| > 0 {
      CountsPartition(s[..|s| - 1]);
    }
  }

  /** An empty list and a list of unknown entries are healthy; so is any list
      without a failed entry, whatever its paused or running entries. */
  lemma HealthyExamples(s: seq<PipelineStatusInfo>, timestamp: string)
    ensures NewOverallStatus([], timestamp).isHealthy
    ensures (forall i :: 0 <= i < |s| ==> s[i].state == Unknown) ==> NewOverallStatus(s, timestamp).isHealthy
    ensures (exists i :: 0 <= i < |s| && s[i].state == Failed) ==> !NewOverallStatus(s, timestamp).isHealthy
  {
  }
}
