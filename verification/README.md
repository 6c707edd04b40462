# cdMenu pipeline monitor — a Dafny model

cdMenu is a tray application. It watches the latest Bitbucket Pipelines run of
each repository (optionally of one branch) that the user selected. It classifies
every run as healthy, failed, running, paused or unknown, and aggregates the
results into one snapshot. It raises "Pipeline Failed" / "Pipeline Fixed"
notifications on transitions, and shows the result as a tray icon, a tooltip and
a menu grouped by project.

This project models the decision logic of that application as pure Dafny
functions over immutable datatypes, and proves what it promises. Network,
disk, clock and UI are inputs or outputs of the model:

- an HTTP exchange is an `HttpOutcome`: the request could not be sent, or a status
  code, a body text and the decoded JSON (or the decoding error);
- a polling cycle is one function `Polling.CheckPipelinesOnce`. It takes the shared
  state, the app password read from disk, the API's answers per target and the
  formatted time. It returns the new state, the tray icon, the tooltip, the
  notifications, the rebuilt menu (when it is rebuilt) and the published snapshot;
- the tray menu is a list of abstract items plus the id→URL map, returned
  instead of stored in a global;
- commands are transitions of `AppState` whose file writes are given as outcomes
  and whose written configuration is part of the result.

Modules follow the source files: `Types` (bitbucket/types.rs), `Client`
(bitbucket/client.rs), `Config` (config.rs), `Polling` (polling.rs), `Tray`
(tray.rs), `Commands` (commands.rs). `Wrappers` holds `Option`/`Result`, and
`Text` holds the string helpers: substring search, ASCII upper-casing, decimal
rendering with its inverse, and joining. `Types.Branch` is the run's
`target.ref_name`. The branch filter `Client.OnBranch` is written with it.

A few facts about the program that shape the model:
- an API error carries the single message `Status {code}: {body}`;
- transport failures and JSON decoding failures share one `Http` error;
- a completed run that is neither failed nor paused nor running, a STOPPED run
  for instance, classifies as healthy;
- besides "no credentials" and "no targets", a cycle also stops early, with the
  tooltip "cdMenu - Auth required", when no app password could be read;
- a notification is a title and a body text.

Two consequences of the code are proved rather than changed:
- Notifications match previous entries by workspace and slug only
  (`Polling.SameRepositoryShadowsBranches`). When one repository is monitored on
  two branches, the second branch is compared with the first branch's old entry.
- `save_credentials` stores the user name before it writes the password file. A
  failing password write therefore returns an error while the user name is
  already in the state (`Commands.SaveCredentials`).

## Model

| member | source | states |
|---|---|---|
| Types.FailedAndSuccessfulExclusive | src-tauri/src/bitbucket/types.rs:117-132 | A run is never both failed and successful; a STOPPED result or no result is neither |
| Types.FailedIgnoresStateName | src-tauri/src/bitbucket/types.rs:117-123 | Whether a run failed depends on its result only, never on the coarse state name |
| Types.IsPending | src-tauri/src/bitbucket/types.rs:102-112 | Without a state a step is not pending; with a state name it is pending iff the name is "PENDING"; without a state name it is pending iff it has a type containing "pending" |
| Types.IsFailed | src-tauri/src/bitbucket/types.rs:117-123 | Failed iff the run has a result named FAILED, ERROR or EXPIRED |
| Types.IsSuccessful | src-tauri/src/bitbucket/types.rs:126-132 | Successful iff the run has a result named SUCCESSFUL |
| Types.IsPaused | src-tauri/src/bitbucket/types.rs:135-151 | Paused iff the type has "paused" at some position (case-sensitive) or the stage name equals "PAUSED" up to ASCII case; with neither field present, not paused |
| Types.PausedExamples | src-tauri/src/bitbucket/types.rs:135-151 | The API's paused type and a "Paused" stage name mean paused; an upper-case "PAUSED" type alone does not |
| Types.IsInProgress | src-tauri/src/bitbucket/types.rs:154-158 | A run that is not paused is running iff its state name is IN_PROGRESS or PENDING; a paused run and a COMPLETED run are never running |
| Types.PendingNameDecides | src-tauri/src/bitbucket/types.rs:102-106 | When a step's state has a name, the step is pending iff the name is "PENDING", whatever its type |
| Client.ErrorMessage | src-tauri/src/bitbucket/client.rs:9-21 | Authentication and rate-limit errors show their fixed sentences; the others show "HTTP error: ", "Resource not found: " or "API error: " followed by their payload |
| Client.ErrorMessageInjective | src-tauri/src/bitbucket/client.rs:9-21 | Equal messages come from equal errors: the message tells the kind of error and its payload |
| Client.OnBranchReadsRefName | src-tauri/src/bitbucket/types.rs:160-163 | The branch filter reads the run's target ref name: a named branch matches exactly the runs whose ref name is that branch, and no filter matches every run |
| Client.NewClient | src-tauri/src/bitbucket/client.rs:31-33 | The auth header is "Basic " followed by the encoding of user name, colon, password |
| Client.AuthHeaderIdentifiesCredentials | src-tauri/src/bitbucket/client.rs:31-33 | With an injective encoder and colon-free user names, equal headers mean equal user names and passwords |
| Client.Get | src-tauri/src/bitbucket/client.rs:148-172 | Success iff status 200 with a decodable body; AuthenticationFailed iff 401; RateLimited iff 429; NotFound iff 404, carrying the URL; ApiError iff any other status, with "Status {code}: {body}"; a send failure becomes an Http error with its cause, and an undecodable 200 body an Http error with the decoding message |
| Client.PipelinesUrlNamesLimit | src-tauri/src/bitbucket/client.rs:94-97 | The runs URL ends in "/pipelines/?sort=-created_on&pagelen={limit}" and determines the limit |
| Client.GetPipelines | src-tauri/src/bitbucket/client.rs:88-100 | The result is Get's answer for the runs URL of the repository: the decoded runs iff status 200 with a decodable body; a 404 names that URL |
| Client.GetPipelineSteps | src-tauri/src/bitbucket/client.rs:124-136 | The result is Get's answer for "{base}/repositories/{workspace}/{slug}/pipelines/{uuid}/steps/": the decoded steps iff status 200 with a decodable body; a 404 names that URL |
| Client.GetLatestPipeline | src-tauri/src/bitbucket/client.rs:103-121 | Asks for 20 runs; a fetch error is returned unchanged; otherwise the first run in server order on the filter branch, or none if no run matches; without a filter the first run or none |
| Client.FirstOnBranch | src-tauri/src/bitbucket/client.rs:113-120 | The returned position is the first whose run passes the branch filter; none means no run passes |
| Client.BranchFilterExample | src-tauri/src/bitbucket/client.rs:110-120 | On runs newest-first on branches A, A, B: filter B gives the B run, filter C gives none, no filter gives the newest |
| Client.ValidateCredentials | src-tauri/src/bitbucket/client.rs:139-145 | Ok(true) iff listing workspaces succeeds; Ok(false) iff the answer is 401; every other error is passed on and is never AuthenticationFailed |
| Client.ValidateKeepsTransientErrors | src-tauri/src/bitbucket/client.rs:139-145 | Transport failures, 429 and server errors are reported as errors, not as invalid credentials |
| Config.DisplayName | src-tauri/src/tray.rs:148-152 | A target shows its repository name, or its slug when the name is empty |
| Config.NewAppState | src-tauri/src/config.rs:86-93 | A fresh state has no credentials, no targets, no status and a 60 s interval |
| Config.ToPersisted | src-tauri/src/config.rs:96-102 | The saved form carries the user name (present iff credentials are), the targets and the interval |
| Config.FromPersisted | src-tauri/src/config.rs:105-116 | A loaded state keeps an interval of at least 30 s and otherwise uses 60 s, so it is always at least 30 s; no status; targets kept verbatim; credentials iff a user name was saved |
| Config.SaveLoadRoundTrip | src-tauri/src/config.rs:96-116 | Saving then loading keeps targets and credentials; it restores the whole state except the status when the interval is at least 30 s |
| Config.LoadSaveRoundTrip | src-tauri/src/config.rs:96-116 | Loading then saving reproduces a configuration with an interval of at least 30 s, and replaces a smaller interval by 60 s |
| Config.Positions | src-tauri/src/config.rs:124-140 | The listed positions are increasing, each holds the state asked for, and every position holding it is listed |
| Config.CountState | src-tauri/src/config.rs:137-140 | The count of entries in a state equals the number of positions holding it |
| Config.FailedInfos | src-tauri/src/config.rs:124-135 | One summary per failed entry, in input order, the k-th summarising the k-th failed position |
| Config.NewOverallStatus | src-tauri/src/config.rs:120-153 | Healthy iff no entry failed, iff no failed summaries; one summary per failed entry in order, with its reason or "Unknown", no branch, build number 0; in-progress count is the number of running entries; total is the input length; the entries are kept unchanged |
| Config.CountsPartition | src-tauri/src/config.rs:124-140 | The counts of the five states add up to the number of entries |
| Config.HealthyExamples | src-tauri/src/config.rs:142 | The empty list and all-unknown lists are healthy; any failed entry makes the snapshot unhealthy |
| Tray.PipelineIdInjective | src-tauri/src/tray.rs:165 | Entry ids "pipeline_{i}" of distinct positions differ |
| Tray.ProjectKey | src-tauri/src/tray.rs:122-123 | A target is grouped under its project name, or under its workspace when it has none |
| Tray.Projects | src-tauri/src/tray.rs:120-127 | The project keys are distinct, each is the key of some target, and every target's key is listed |
| Tray.ProjectsInFirstAppearanceOrder | src-tauri/src/tray.rs:120-127 | Projects are listed in the order in which their first targets appear |
| Tray.StatusSuffix | src-tauri/src/tray.rs:154-163 | Empty iff healthy or unknown; " - FAILED" for failed, " - running" for running; a paused target shows its stage name, or "paused", inside " - (" and ")" |
| Tray.IconFor | src-tauri/src/tray.rs:154-163 | Red iff failed, blue iff running, gray iff unknown, green iff healthy or paused |
| Tray.SuffixTellsState | src-tauri/src/tray.rs:154-163 | The suffix is empty iff the state is healthy or unknown; equal non-empty suffixes mean equal states |
| Tray.EntryItem | src-tauri/src/tray.rs:154-171 | The entry of position i has index i, the target's URL and the icon of its state, and is enabled iff the URL is present |
| Tray.EntryText | src-tauri/src/tray.rs:148-174 | An entry's text is two spaces, the display name, then the state suffix |
| Tray.GroupEntries | src-tauri/src/tray.rs:141-146 | At most one entry per position from `from` on, none past the end; membership and order are stated by Tray.GroupEntriesSound and completeness by Tray.GroupEntriesCount |
| Tray.ProjectHeader | src-tauri/src/tray.rs:131-137 | A disabled label whose id starts with "proj_header_" and whose text is the project upper-cased character by character |
| Tray.HeaderIdsDistinct | src-tauri/src/tray.rs:131-137 | Header ids of distinct positions differ, and no header id equals a target entry's "pipeline_{i}" id |
| Tray.GroupEntriesSound | src-tauri/src/tray.rs:141-146 | Every entry of a project's group is the entry of a target with that key, built from its own position, in increasing position order |
| Tray.GroupEntriesCount | src-tauri/src/tray.rs:141-146 | A target's entry appears once in its own project's group and in no other group; a group holds no separators |
| Tray.Groups | src-tauri/src/tray.rs:129-146 | One group per project, in project order, headed "proj_header_{k}" with the upper-cased key |
| Tray.EachTargetOnce | src-tauri/src/tray.rs:129-201 | Every target appears exactly once among the grouped entries; there are as many separators as projects minus one |
| Tray.SectionItems | src-tauri/src/tray.rs:129-201 | Every entry in the section is the entry of its own position; a section with at least one project does not end in a separator |
| Tray.UrlMap | src-tauri/src/tray.rs:165-171 | Every entry with a URL has its id in the map, and every key comes from such an entry and maps to its URL |
| Tray.MenuUrls | src-tauri/src/tray.rs:165-171 | Id "pipeline_{i}" is in the map iff target i has a URL, and maps to that URL |
| Tray.MenuUrlKeys | src-tauri/src/tray.rs:165-171 | Every id in the map is the id of a target of the snapshot |
| Tray.BuildStatusMenu | src-tauri/src/tray.rs:113-251 | Section, separator and "Last checked" line for a snapshot; otherwise the single "No pipelines configured" item with an empty map; the actions always close the menu |
| Tray.NoStatusMenu | src-tauri/src/tray.rs:218-227 | Without a snapshot the menu starts with "No pipelines configured" and has no URLs |
| Polling.Classify | src-tauri/src/polling.rs:222-254 | Failed iff the run failed; paused iff not failed and paused; running iff neither and running; healthy otherwise; never unknown |
| Polling.ClassifyExamples | src-tauri/src/polling.rs:222-254 | FAILED/ERROR/EXPIRED results classify failed whatever the state; a paused IN_PROGRESS run classifies paused; a plain successful run classifies healthy |
| Polling.FirstPending | src-tauri/src/polling.rs:241-245 | The returned step is pending and no earlier step is; none means no step is pending |
| Polling.PausedLabel | src-tauri/src/polling.rs:231-248 | The name of the first pending step, else "paused" (no pending step, that step unnamed, or steps not fetched) |
| Polling.ResultsUrlNamesBuild | src-tauri/src/polling.rs:256-261 | A run's link ends in "/pipelines/results/{build}" and determines the build number |
| Polling.BuildEntry | src-tauri/src/polling.rs:221-316 | Identity copied from the target. Fetch error: Unknown, "Error: {e}", no link. No run: Unknown, no reason, the pipelines page link. Otherwise: the run's class and its results link; a reason (the result name) iff failed; a stage label iff paused |
| Polling.Entries | src-tauri/src/polling.rs:212-318 | Exactly one entry per target, in monitored order, whatever the fetch outcome |
| Polling.CheckAllPipelines | src-tauri/src/polling.rs:204-322 | The snapshot has one entry per target in order, is healthy iff none failed, carries the given time, and is the aggregate of those entries, so its failed list and in-progress count are the ones the aggregator computes |
| Polling.FindPrevious | src-tauri/src/polling.rs:126-128 | The first previous entry with the same workspace and slug, or none if there is none |
| Polling.NotificationFor | src-tauri/src/polling.rs:125-169 | "Pipeline Failed" iff the first matching previous entry was not failed and the new one is; "Pipeline Fixed" iff it was failed and the new one is healthy; the body names the target and adds the link |
| Polling.NotifyingPositions | src-tauri/src/polling.rs:124-170 | The listed positions are increasing, each new entry listed causes a notification, and every entry that causes one is listed |
| Polling.NotifyAll | src-tauri/src/polling.rs:124-170 | One notification per notifying entry, in entry order: the k-th notification is the one the k-th notifying entry causes |
| Polling.Notifications | src-tauri/src/polling.rs:119-172 | No previous snapshot means no notifications |
| Polling.TransitionExamples | src-tauri/src/polling.rs:141-167 | Healthy→Failed gives one "Pipeline Failed"; Failed→Healthy one "Pipeline Fixed"; Failed→Failed, →Paused, →InProgress and →Unknown none |
| Polling.SameRepositoryShadowsBranches | src-tauri/src/polling.rs:126-128 | Two branches of one repository are both compared with the first previous entry, so a second branch turning failed can go unnotified |
| Polling.NewTargetIsSilent | src-tauri/src/polling.rs:130 | A target with no previous entry causes no notification |
| Polling.StatesDiffer | src-tauri/src/polling.rs:181-182 | True iff some position present in both lists holds different states |
| Polling.StatusChanged | src-tauri/src/polling.rs:175-185 | Always changed without a previous snapshot; otherwise changed iff health, entry count or some position's state differs |
| Polling.StatusChangeIgnoresPayload | src-tauri/src/polling.rs:175-185 | Snapshots whose entries have the same states are unchanged, whatever their times, reasons and links |
| Polling.SameStatesUnchanged | src-tauri/src/polling.rs:175-185 | Two consistent snapshots with the same state at every position are not a change |
| Polling.FailedNames | src-tauri/src/polling.rs:98-103 | At most three names, the first failed targets as "workspace/slug" |
| Polling.MoreSuffix | src-tauri/src/polling.rs:110-112 | Empty iff at most three failed; otherwise " +k more" with k the failed count minus three |
| Polling.InProgressLine | src-tauri/src/polling.rs:89-91 | The in-progress line is empty iff nothing is running; otherwise it is a new line, the decimal count and " in progress" |
| Polling.Tooltip | src-tauri/src/polling.rs:82-116 | The tooltip starts with "cdMenu" and ends with the last-checked time |
| Polling.CheckPipelinesOnce | src-tauri/src/polling.rs:42-201 | No credentials or no targets: gray icon, the matching tooltip, state untouched, nothing else. No password: gray, "Auth required". Otherwise: status stored and published; green iff healthy, else red; notifications from the previous status; the menu rebuilt iff the status changed |
| Polling.CyclePreservesState | src-tauri/src/polling.rs:187-192 | A cycle changes only the stored status, and keeps the stored status well formed |
| Polling.UnchangedStatesKeepMenu | src-tauri/src/polling.rs:174-200 | When every target keeps its state the menu is not rebuilt, but the new status is stored and published |
| Commands.SaveConfig | src-tauri/src/commands.rs:242-265 | A configuration is written only when the write succeeds; reloading it restores the state's targets and credentials, and it carries the state's interval |
| Commands.SetPollingInterval | src-tauri/src/commands.rs:163-176 | Under 30 s: the error message and no change; otherwise exactly the interval changes and the saved form of the new state is written |
| Commands.SaveCredentials | src-tauri/src/commands.rs:81-112 | A validation error's message or "Invalid credentials" leave the state unchanged; after validation the user name is stored, then the password and the saved form of the new state are written |
| Commands.GetCredentials | src-tauri/src/commands.rs:116-121 | The stored user name, or none |
| Commands.SaveMonitoredPipelines | src-tauri/src/commands.rs:131-141 | The monitored list is replaced wholesale, nothing else changes, and the saved form of the new state is written when the write succeeds |
| Commands.IntervalSurvivesReload | src-tauri/src/commands.rs:163-176 | An accepted interval is what a reload of the saved configuration yields |
| Commands.SavedCredentialsReadBack | src-tauri/src/commands.rs:81-121 | After successful validation the stored user name reads back |
| Commands.RejectedCredentialsChangeNothing | src-tauri/src/commands.rs:88-95 | A 401 and an unreachable server leave the state alone and are reported differently |
| Commands.CommandsKeepIntervalFloor | src-tauri/src/commands.rs:163-176 | Every command keeps an interval of at least 30 s |

## Left out

- HTTP transport, the 30-second request timeout, JSON decoding and query strings beyond the request URLs: answers are inputs (`HttpOutcome`).
- Listing workspaces, projects and repositories (`get_workspaces`, `get_projects`, `get_repositories`, `get_repositories_by_project` and their commands): not part of the monitoring logic; only the workspace request that validates credentials is modelled.
- Base64: the encoder is a parameter of `Client.NewClient`, and the password file's contents are not modelled; `Commands.SaveCredentials` reports the password it would store.
- Reading and writing config.json and .credentials: each write is an input outcome; loading is `Config.FromPersisted` on the decoded file.
- The timer loop, the re-reading of the interval, the manual-refresh listener and the mutex: a cycle is one atomic function; overlapping cycles are not modelled.
- Clock formatting: the "last checked" time is an input string.
- Tauri calls: icon images, menu construction, `set_menu`, tooltips, notifications and the `status-updated` event are outputs of the cycle; the fallback to a plain menu item when an icon image fails to load is not modelled.
- Unicode upper-casing: `Text.AsciiUpper` changes ASCII letters only.
- Integer widths: build numbers (`u32`), intervals (`u64`) and counts (`usize`) are unbounded naturals; no arithmetic on them can overflow in the source.
- Polling.Entries, Polling.CheckAllPipelines, Polling.CheckPipelinesOnce: the answers for the targets are a list aligned with the monitored list, so these members require the two lengths to be equal; the source fetches once per target and cannot misalign them.
- Reading the app password (`get_app_password` in polling.rs) is an input `Option`: a missing, unreadable or undecodable file is `None`.
- Polling.Tooltip: its contract states the frame only; the names, the in-progress line and the "+k more" suffix are stated by `Polling.FailedNames`, `Polling.InProgressLine` and `Polling.MoreSuffix`.
