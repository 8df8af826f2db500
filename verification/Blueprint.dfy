/** Blueprints, stage results and the validation of stage references. */
module Blueprint {
  import opened Common

  datatype StageStatus = Pending | InProgress | Completed | Failed | Skipped

  datatype StageType = Deterministic | Agentic | UnknownType

  datatype Stage = Stage(
    name: string,
    kind: StageType,
    action: string,
    commands: seq<string>,
    maxRetries: int,
    onSuccess: string,
    onFailure: string,
    createCheckpoint: bool,
    runQualityGates: bool)

  datatype StageResult = StageResult(stageName: string, status: StageStatus, attempt: int, output: string,
      error: string)

  datatype Blueprint = Blueprint(id: string, name: string, stages: map<string, Stage>, initialStage: string)

  const COMPLETE := "complete"

  /** Stage names at which the engine's loop ends. */
  predicate IsEnd(stage: string) {
    stage == COMPLETE || stage == ""
  }

  predicate ReferencesKnown(bp: Blueprint, stage: Stage) {
    && (stage.onSuccess != "" && stage.onSuccess != COMPLETE ==> stage.onSuccess in bp.stages)
    && (stage.onFailure != "" ==> stage.onFailure in bp.stages)
  }

  predicate Valid(bp: Blueprint) {
    && bp.id != "" && bp.name != "" && bp.initialStage != ""
    && bp.initialStage in bp.stages
    && forall key :: key in bp.stages ==> ReferencesKnown(bp, bp.stages[key])
  }

  /** What makes a blueprint invalid. */
  lemma InvalidIff(bp: Blueprint)
    ensures !Valid(bp) <==>
              || bp.id == "" || bp.name == "" || bp.initialStage == "" || bp.initialStage !in bp.stages
              || (exists key :: key in bp.stages &&
                    var stage := bp.stages[key];
                    || (stage.onSuccess != "" && stage.onSuccess != "complete" && stage.onSuccess !in bp.stages)
                    || (stage.onFailure != "" && stage.onFailure !in bp.stages))
  {
    if !(forall key :: key in bp.stages ==> ReferencesKnown(bp, bp.stages[key])) {
      var key :| key in bp.stages && !ReferencesKnown(bp, bp.stages[key]);
    }
  }

  /** Checks the stage references in any iteration order of the stage map. */
  method Validate(bp: Blueprint) returns (ok: bool)
    ensures ok <==> Valid(bp)
  {
    if bp.id == "" || bp.name == "" || bp.initialStage == "" || bp.initialStage !in bp.stages {
      return false;
    }
    var left := bp.stages.Keys;
    while left != {}
      invariant left <= bp.stages.Keys
      invariant forall key :: key in bp.stages.Keys - left ==> ReferencesKnown(bp, bp.stages[key])
      decreases left
    {
      var key :| key in left;
      var stage := bp.stages[key];
      if stage.onSuccess != "" && stage.onSuccess != COMPLETE && stage.onSuccess !in bp.stages {
        return false;
      }
      if stage.onFailure != "" && stage.onFailure !in bp.stages {
        return false;
      }
      left := left - {key};
    }
    return true;
  }

  /** Retries are counted under a stage's name and limited by the stage found under a key: these agree. */
  predicate NamesMatch(bp: Blueprint) {
    forall key :: key in bp.stages ==> bp.stages[key].name == key
  }

  function NewStageResult(name: string, attempt: int): StageResult {
    StageResult(name, InProgress, attempt, "", "")
  }
}
