/** The Bitbucket Cloud records the monitor reads, and the predicates that
    classify a pipeline run. Every field that the API may omit is an `Option`,
    and the predicates treat absence as "no information", never as an error. */
module Types {
  import opened Wrappers
  import opened Text

  /** A project record (only its identity is used). */
  datatype Project = Project(uuid: string, key: string, name: string)

  /** Result of a completed run: "SUCCESSFUL", "FAILED", "STOPPED", "EXPIRED", "ERROR". */
  datatype PipelineResult = PipelineResult(name: string)

  /** Stage information, present while a run waits for a manual step. */
  datatype PipelineStage = PipelineStage(name: Option<string>, stageType: Option<string>)

  /** The run's state: coarse `name` ("PENDING", "IN_PROGRESS", "COMPLETED"),
      the fine-grained `type`, the result once completed and the stage when paused. */
  datatype PipelineState = PipelineState(
    name: string,
    stateType: Option<string>,
    result: Option<PipelineResult>,
    stage: Option<PipelineStage>)

  /** The branch or tag a run was built for. */
  datatype PipelineTarget = PipelineTarget(refType: Option<string>, refName: Option<string>)

  /** One pipeline run. `buildNumber` is a `u32` in the source; it is only rendered. */
  datatype Pipeline = Pipeline(
    uuid: string,
    buildNumber: nat,
    state: PipelineState,
    target: PipelineTarget,
    createdOn: string,
    completedOn: Option<string>)

  /** State of one step of a run. */
  datatype StepState = StepState(name: Option<string>, stateType: Option<string>)

  /** One step of a run. */
  datatype PipelineStep = PipelineStep(uuid: string, name: Option<string>, state: Option<StepState>)

  /** Result names that count as a failed run. */
  const FailedResults: set<string> := {"FAILED", "ERROR", "EXPIRED"}

  /** A step waits for a manual trigger. The step's own state name decides when
      present; only without a name is the fine-grained type searched for
      "pending". Without any state the step is not pending. */
  predicate IsPending(step: PipelineStep)
    ensures step.state.None? ==> !IsPending(step)
    ensures step.state.Some? && step.state.value.name.Some? ==>
      (IsPending(step) <==> step.state.value.name.value == "PENDING")
    ensures step.state.Some? && step.state.value.name.None? ==>
      (IsPending(step) <==>
         (step.state.value.stateType.Some?
          && exists i :: OccursAt(step.state.value.stateType.value, "pending", i)))
  {
    match step.state
    case None => false
    case Some(st) =>
      match st.name
      case Some(n) => n == "PENDING"
      case None =>
        match st.stateType
        case Some(t) => ContainsIffOccurs(t, "pending"); Contains(t, "pending")
        case None => false
  }

  /** The run completed with a failing result. Only the three failing result
      names count; no result, SUCCESSFUL and STOPPED are not failures. */
  predicate IsFailed(p: Pipeline)
    ensures IsFailed(p) <==>
      p.state.result in {Some(PipelineResult("FAILED")), Some(PipelineResult("ERROR")),
                         Some(PipelineResult("EXPIRED"))}
  {
    match p.state.result
    case Some(r) => r.name in FailedResults
    case None => false
  }

  /** The run completed successfully. */
  predicate IsSuccessful(p: Pipeline)
    ensures IsSuccessful(p) <==> p.state.result == Some(PipelineResult("SUCCESSFUL"))
  {
    match p.state.result
    case Some(r) => r.name == "SUCCESSFUL"
    case None => false
  }

  /** The run waits for user input. Paused is exactly "the type has "paused"
      at some position (case-sensitive), or the stage name is "paused" in any
      mix of ASCII case". With neither signal present the run is not paused. */
  predicate IsPaused(p: Pipeline)
    ensures IsPaused(p) <==>
      (p.state.stateType.Some? && exists i :: OccursAt(p.state.stateType.value, "paused", i))
      || (p.state.stage.Some? && p.state.stage.value.name.Some?
          && CaseInsensitiveEquals(p.state.stage.value.name.value, "PAUSED"))
    ensures p.state.stateType.None? && p.state.stage.None? ==> !IsPaused(p)
  {
    var byType := p.state.stateType.Some? && Contains(p.state.stateType.value, "paused");
    var byStage := p.state.stage.Some? && p.state.stage.value.name.Some?
                   && AsciiUpper(p.state.stage.value.name.value) == "PAUSED";
    PausedSignals(p);
    byType || byStage
  }

  /** The two paused signals, read as substring search and upper-casing, are
      "occurs somewhere" and "equal up to ASCII case". */
  lemma PausedSignals(p: Pipeline)
    ensures (p.state.stateType.Some? && Contains(p.state.stateType.value, "paused"))
            <==> (p.state.stateType.Some? && exists i :: OccursAt(p.state.stateType.value, "paused", i))
    ensures (p.state.stage.Some? && p.state.stage.value.name.Some?
             && AsciiUpper(p.state.stage.value.name.value) == "PAUSED")
            <==> (p.state.stage.Some? && p.state.stage.value.name.Some?
                  && CaseInsensitiveEquals(p.state.stage.value.name.value, "PAUSED"))
  {
    if p.state.stateType.Some? {
      ContainsIffOccurs(p.state.stateType.value, "paused");
    }
    if p.state.stage.Some? && p.state.stage.value.name.Some? {
      UpperEqualsIff(p.state.stage.value.name.value, "PAUSED");
    }
  }

  /** The run is actively running: its coarse state is IN_PROGRESS or PENDING
      and it is not paused. Running and paused exclude each other, paused
      taking precedence, and a COMPLETED run is never running. */
  predicate IsInProgress(p: Pipeline)
    ensures IsInProgress(p) ==> !IsPaused(p)
    ensures !IsPaused(p) ==> (IsInProgress(p) <==> p.state.name in {"IN_PROGRESS", "PENDING"})
    ensures p.state.name == "COMPLETED" ==> !IsInProgress(p)
  {
    (p.state.name == "IN_PROGRESS" || p.state.name == "PENDING") && !IsPaused(p)
  }

  /** The branch the run was built for. */
  function Branch(p: Pipeline): Option<string> {
    p.target.refName
  }

  // ---------------------------------------------------------------------------
  // Properties of the predicates
  // ---------------------------------------------------------------------------

  /** A run is never both failed and successful; STOPPED is neither. */
  lemma FailedAndSuccessfulExclusive(p: Pipeline)
    ensures !(IsFailed(p) && IsSuccessful(p))
    ensures p.state.result == Some(PipelineResult("STOPPED")) ==> !IsFailed(p) && !IsSuccessful(p)
    ensures p.state.result == None ==> !IsFailed(p) && !IsSuccessful(p)
  {
  }

  /** Failure depends on the result alone, whatever the coarse state name says. */
  lemma FailedIgnoresStateName(p: Pipeline, name: string)
    ensures IsFailed(p) <==> IsFailed(p.(state := p.state.(name := name)))
  {
  }

  /** `a` equals the upper-case string `b` up to ASCII case. */
  ghost predicate CaseInsensitiveEquals(a: string, b: string) {
    |a| == |b| && forall i :: 0 <= i < |a| ==> a[i] == b[i] || ('a' <= a[i] <= 'z' && a[i] as int - 32 == b[i] as int)
  }

  lemma UpperEqualsIff(a: string, b: string)
    requires forall i :: 0 <= i < |b| ==> !('a' <= b[i] <= 'z')
    ensures AsciiUpper(a) == b <==> CaseInsensitiveEquals(a, b)
  {
  }

  /** A step with a state name is pending exactly when that name is "PENDING";
      its type is not consulted. */
  lemma PendingNameDecides(step: PipelineStep, t: Option<string>)
    requires step.state.Some? && step.state.value.name.Some?
    ensures IsPending(step) <==> step.state.value.name.value == "PENDING"
    ensures IsPending(step) == IsPending(step.(state := Some(step.state.value.(stateType := t))))
  {
  }

  /** Examples: the signals the API actually sends. */
  lemma PausedExamples(p: Pipeline)
    ensures p.state.stateType == Some("pipeline_state_in_progress_paused") ==> IsPaused(p)
    ensures p.state.stateType == Some("PAUSED") && p.state.stage.None? ==> !IsPaused(p)
    ensures p.state.stage == Some(PipelineStage(Some("Paused"), None)) ==> IsPaused(p)
  {
    var t := "pipeline_state_in_progress_paused";
    assert OccursAt(t, "paused", 27);
    ContainsIffOccurs(t, "paused");
    if p.state.stateType == Some("PAUSED") && p.state.stage.None? {
      ContainsIffOccurs("PAUSED", "paused");
      assert "PAUSED"[0..6][0] != "paused"[0];
      forall i | OccursAt("PAUSED", "paused", i) ensures false {
      }
    }
    if p.state.stage == Some(PipelineStage(Some("Paused"), None)) {
      PausedUpper();
    }
  }

  /** The stage name the API reports for a run waiting on a manual step, upper-cased. */
  lemma PausedUpper()
    ensures AsciiUpper("Paused") == "PAUSED"
  {
    var u := AsciiUpper("Paused");
    assert forall i :: 0 <= i < 6 ==> u[i] == "PAUSED"[i];
  }
}
