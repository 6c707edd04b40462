/** The settings window's commands as transitions of the application state.
    What the remote API answers and whether the file-system writes succeed are
    inputs; what is written is part of the outcome. */
module Commands {
  import opened Wrappers
  import opened Client
  import opened Config

  /** The new state, what the command returns to the window, the configuration
      that was written (if it was), and the app password that was stored (if
      it was). */
  datatype CommandOutcome = CommandOutcome(
    state: AppState,
    result: Result<Unit, string>,
    savedConfig: Option<PersistedConfig>,
    savedPassword: Option<string>)

  const IntervalTooShortMessage: string := "Polling interval must be at least 30 seconds"
  const InvalidCredentialsMessage: string := "Invalid credentials"

  /** Saving the configuration of `s`. `write` is how creating the directory and
      writing the file went; on success the persisted form of `s` is written. */
  function SaveConfig(s: AppState, write: Result<Unit, string>): (r: (Option<PersistedConfig>, Result<Unit, string>))
    ensures r.1 == write
    ensures r.0.Some? <==> write.Ok?
    ensures r.0.Some? ==> FromPersisted(r.0.value).monitoredPipelines == s.monitoredPipelines
                          && FromPersisted(r.0.value).credentials == s.credentials
                          && r.0.value.pollingIntervalSeconds == s.pollingIntervalSeconds
  {
    match write
    case Ok(_) => (Some(ToPersisted(s)), write)
    case Err(msg) => (None, Err(msg))
  }

  /** Sets the polling interval. Intervals under 30 seconds are refused and
      change nothing. */
  function SetPollingInterval(s: AppState, seconds: nat, write: Result<Unit, string>): (r: CommandOutcome)
    ensures seconds < MinPollingInterval ==>
      r.state == s && r.result == Err(IntervalTooShortMessage) && r.savedConfig.None? && r.savedPassword.None?
    ensures seconds >= MinPollingInterval ==>
      && r.state.pollingIntervalSeconds == seconds
      && r.state.credentials == s.credentials
      && r.state.monitoredPipelines == s.monitoredPipelines
      && r.state.lastStatus == s.lastStatus
      && r.result == write
      && (r.savedConfig.Some? <==> write.Ok?)
      && r.savedPassword.None?
    ensures r.savedConfig.Some? ==> r.savedConfig.value == ToPersisted(r.state)
  {
    if seconds < MinPollingInterval then
      CommandOutcome(s, Err(IntervalTooShortMessage), None, None)
    else
      var next := s.(pollingIntervalSeconds := seconds);
      var (saved, result) := SaveConfig(next, write);
      CommandOutcome(next, result, saved, None)
  }

  /** Validates and stores credentials. `workspaces` is the answer to the
      validation request. Invalid credentials and validation errors change
      nothing. Once validated the user name is stored before the password file
      is written, so a failing password write returns an error with the user
      name already in the state and no configuration written. */
  function SaveCredentials<T>(s: AppState, username: string, appPassword: string,
                              workspaces: HttpOutcome<T>,
                              passwordWrite: Result<Unit, string>,
                              configWrite: Result<Unit, string>): (r: CommandOutcome)
    ensures ValidateCredentials(workspaces).Err? ==>
      r.state == s && r.result == Err(ErrorMessage(ValidateCredentials(workspaces).error))
      && r.savedConfig.None? && r.savedPassword.None?
    ensures ValidateCredentials(workspaces) == Ok(false) ==>
      r.state == s && r.result == Err(InvalidCredentialsMessage) && r.savedConfig.None? && r.savedPassword.None?
    ensures ValidateCredentials(workspaces) == Ok(true) ==>
      && r.state == s.(credentials := Some(Credentials(username)))
      && (passwordWrite.Err? ==> r.result == passwordWrite && r.savedConfig.None? && r.savedPassword.None?)
      && (passwordWrite.Ok? ==>
            r.savedPassword == Some(appPassword) && r.result == configWrite
            && (r.savedConfig.Some? <==> configWrite.Ok?))
    ensures r.result.Ok? ==> r.state.credentials == Some(Credentials(username))
    ensures r.savedConfig.Some? ==> r.savedConfig.value == ToPersisted(r.state)
  {
    match ValidateCredentials(workspaces)
    case Err(e) => CommandOutcome(s, Err(ErrorMessage(e)), None, None)
    case Ok(valid) =>
      if !valid then CommandOutcome(s, Err(InvalidCredentialsMessage), None, None)
      else
        var next := s.(credentials := Some(Credentials(username)));
        match passwordWrite
        case Err(msg) => CommandOutcome(next, Err(msg), None, None)
        case Ok(_) =>
          var (saved, result) := SaveConfig(next, configWrite);
          CommandOutcome(next, result, saved, Some(appPassword))
  }

  /** The stored user name, if any. */
  function GetCredentials(s: AppState): (r: Option<string>)
    ensures r.Some? <==> s.credentials.Some?
    ensures r.Some? ==> r.value == s.credentials.value.username
  {
    s.credentials.Map((c: Credentials) => c.username)
  }

  /** Replaces the monitored list wholesale and saves the configuration. */
  function SaveMonitoredPipelines(s: AppState, pipelines: seq<MonitoredPipeline>,
                                  write: Result<Unit, string>): (r: CommandOutcome)
    ensures r.state.monitoredPipelines == pipelines
    ensures r.state.credentials == s.credentials && r.state.pollingIntervalSeconds == s.pollingIntervalSeconds
    ensures r.state.lastStatus == s.lastStatus
    ensures r.result == write && (r.savedConfig.Some? <==> write.Ok?) && r.savedPassword.None?
    ensures r.savedConfig.Some? ==> r.savedConfig.value == ToPersisted(r.state)
  {
    var next := s.(monitoredPipelines := pipelines);
    var (saved, result) := SaveConfig(next, write);
    CommandOutcome(next, result, saved, None)
  }

  /** An accepted interval survives saving and loading. */
  lemma IntervalSurvivesReload(s: AppState, seconds: nat)
    requires seconds >= MinPollingInterval
    ensures var r := SetPollingInterval(s, seconds, Ok(Unit));
      r.savedConfig.Some? && FromPersisted(r.savedConfig.value).pollingIntervalSeconds == seconds
  {
  }

  /** After successful validation the window reads back the user name it saved. */
  lemma SavedCredentialsReadBack<T>(s: AppState, username: string, appPassword: string,
                                    workspaces: HttpOutcome<T>, configWrite: Result<Unit, string>)
    requires workspaces.Response? && workspaces.status == 200 && workspaces.decoded.Ok?
    ensures GetCredentials(SaveCredentials(s, username, appPassword, workspaces, Ok(Unit), configWrite).state)
            == Some(username)
  {
  }

  /** A rejected password (401) or an unreachable server leaves the stored
      credentials as they were, and the two are reported differently. */
  lemma RejectedCredentialsChangeNothing<T>(s: AppState, username: string, appPassword: string,
                                             workspaces: HttpOutcome<T>,
                                             passwordWrite: Result<Unit, string>, configWrite: Result<Unit, string>)
    requires workspaces.SendFailed? || (workspaces.Response? && workspaces.status == 401)
    ensures var r := SaveCredentials(s, username, appPassword, workspaces, passwordWrite, configWrite);
      && r.state == s
      && (workspaces.SendFailed? ==> r.result == Err(ErrorMessage(Http(workspaces.cause))))
      && (workspaces.Response? ==> r.result == Err(InvalidCredentialsMessage))
  {
  }

  /** The commands keep the polling interval at or above the minimum. */
  lemma CommandsKeepIntervalFloor<T>(s: AppState, seconds: nat, username: string, appPassword: string,
                                     pipelines: seq<MonitoredPipeline>, workspaces: HttpOutcome<T>,
                                     w1: Result<Unit, string>, w2: Result<Unit, string>)
    requires s.pollingIntervalSeconds >= MinPollingInterval
    ensures SetPollingInterval(s, seconds, w1).state.pollingIntervalSeconds >= MinPollingInterval
    ensures SaveCredentials(s, username, appPassword, workspaces, w1, w2).state.pollingIntervalSeconds >= MinPollingInterval
    ensures SaveMonitoredPipelines(s, pipelines, w1).state.pollingIntervalSeconds >= MinPollingInterval
  {
  }
}
