/** The blueprint engine: one loop over the current stage, driven by whatever the stage executor returns. */
module Engine {
  import opened Common
  import opened Blueprint

  /** What an executor call hands back: a result, an error, or both. */
  datatype Outcome = Outcome(result: Option<StageResult>, err: Option<string>)

  /** A result must come with a nil error. */
  predicate ProperOutcome(o: Outcome) {
    o.err.None? ==> o.result.Some?
  }

  /** What the environment does in one turn of the loop. */
  datatype Turn = Cancelled | Executed(outcome: Outcome)

  predicate ProperTurn(t: Turn) {
    t.Executed? ==> ProperOutcome(t.outcome)
  }

  predicate ProperTurns(turns: seq<Turn>) {
    forall i :: 0 <= i < |turns| ==> ProperTurn(turns[i])
  }

  datatype RunStatus = RunPending | RunRunning | RunPaused | RunCompleted | RunFailed | RunCancelled

  datatype RunState = RunState(
    status: RunStatus,
    currentStage: string,
    stageRetries: map<string, int>,
    results: seq<StageResult>,
    checkpoints: seq<string>,
    error: string)

  /** Why the loop is over, if it is. */
  datatype Phase = Active | Succeeded | StageFailed | RetriesExceeded | Stopped | StageMissing

  /** One executed stage: the key it was found under and its result. */
  datatype Visit = Visit(stage: string, result: StageResult)

  datatype ExecState = ExecState(run: RunState, trace: seq<Visit>, totalRetries: nat, phase: Phase)

  function Retries(run: RunState, name: string): int {
    if name in run.stageRetries then run.stageRetries[name] else 0
  }

  function NewRun(initialStage: string): RunState {
    RunState(RunPending, initialStage, map[], [], [], "")
  }

  /** An error turns the result into a failure and keeps what evidence there is. */
  function EffectiveResult(o: Outcome, name: string, attempt: int): StageResult
    requires ProperOutcome(o)
  {
    match o.err
    case None => o.result.value
    case Some(e) =>
      match o.result
      case None => NewStageResult(name, attempt).(status := Failed, error := e)
      case Some(r) => r.(status := Failed, error := if r.error == "" then e else r.error)
  }

  /** The guard of the loop: an end stage completes the run. */
  function Settle(s: ExecState): ExecState {
    if s.phase.Active? && IsEnd(s.run.currentStage) then s.(phase := Succeeded, run := s.run.(status := RunCompleted))
        else s
  }

  /** What handling one result leaves behind. */
  datatype Verdict = Verdict(run: RunState, totalRetries: nat, phase: Phase)

  function Fail(run: RunState, error: string): RunState {
    run.(status := RunFailed, error := error)
  }

  /** Moves the run on from a recorded result of `stage`. */
  function Handle(run: RunState, totalRetries: nat, stage: Stage, result: StageResult, maxTotal: int): Verdict {
    match result.status
    case Completed =>
      var checkpoints := if stage.createCheckpoint then run.checkpoints + [run.currentStage] else run.checkpoints;
      Verdict(run.(checkpoints := checkpoints, currentStage := stage.onSuccess), totalRetries, Active)
    case Failed =>
      if stage.onFailure != "" && Retries(run, stage.name) < stage.maxRetries then
        var retried := run.(stageRetries := run.stageRetries[stage.name := Retries(run, stage.name) + 1]);
        if totalRetries + 1 > maxTotal then
          Verdict(Fail(retried, "exceeded maximum total retries"), totalRetries + 1, RetriesExceeded)
        else
          Verdict(retried.(currentStage := stage.onFailure), totalRetries + 1, Active)
      else
        Verdict(Fail(run, result.error), totalRetries, StageFailed)
    case _ => Verdict(run, totalRetries, Active)
  }

  function TurnResult(bp: Blueprint, run: RunState, turn: Turn): StageResult
    requires turn.Executed? && ProperTurn(turn) && run.currentStage in bp.stages
  {
    var stage := bp.stages[run.currentStage];
    EffectiveResult(turn.outcome, stage.name, Retries(run, stage.name) + 1)
  }

  /** One turn of the loop. */
  function Step(bp: Blueprint, maxTotal: int, s: ExecState, turn: Turn): ExecState
    requires ProperTurn(turn)
  {
    if !s.phase.Active? then s
    else if turn.Cancelled? then s.(phase := Stopped, run := s.run.(status := RunCancelled))
    else if s.run.currentStage !in bp.stages then s.(phase := StageMissing, run := Fail(s.run, "stage not found"))
    else
      var result := TurnResult(bp, s.run, turn);
      var recorded := s.run.(results := s.run.results + [result]);
      var v := Handle(recorded, s.totalRetries, bp.stages[s.run.currentStage], result, maxTotal);
      Settle(ExecState(v.run, s.trace + [Visit(s.run.currentStage, result)], v.totalRetries, v.phase))
  }

  function Begin(run: RunState): ExecState {
    Settle(ExecState(run, [], 0, Active))
  }

  /** The engine after the turns so far. */
  function Exec(bp: Blueprint, maxTotal: int, run: RunState, turns: seq<Turn>): ExecState
    requires ProperTurns(turns)
  {
    if turns == [] then Begin(run)
    else Step(bp, maxTotal, Exec(bp, maxTotal, run, turns[..|turns| - 1]), turns[|turns| - 1])
  }

  /** A run as the engine updates it. */
  class Run {
    var status: RunStatus
    var currentStage: string
    var stageRetries: map<string, int>
    var results: seq<StageResult>
    var checkpoints: seq<string>
    var error: string

    constructor (initialStage: string)
      ensures View() == NewRun(initialStage)
    {
      status := RunPending;
      currentStage := initialStage;
      stageRetries := map[];
      results := [];
      checkpoints := [];
      error := "";
    }

    function View(): RunState
      reads this
    {
      RunState(status, currentStage, stageRetries, results, checkpoints, error)
    }

    function GetRetries(name: string): int
      reads this
    {
      if name in stageRetries then stageRetries[name] else 0
    }

    method AddResult(result: StageResult)
      modifies this
      ensures View() == old(View()).(results := old(results) + [result])
    {
      results := results + [result];
    }

    method IncrementRetries(name: string)
      modifies this
      ensures View() == old(View()).(stageRetries := old(stageRetries)[name := old(GetRetries(name)) + 1])
    {
      stageRetries := stageRetries[name := GetRetries(name) + 1];
    }

    method AddCheckpoint()
      modifies this
      ensures View() == old(View()).(checkpoints := old(checkpoints) + [old(currentStage)])
    {
      checkpoints := checkpoints + [currentStage];
    }

    method Complete()
      modifies this
      ensures View() == old(View()).(status := RunCompleted)
    {
      status := RunCompleted;
    }

    method Fail(message: string)
      modifies this
      ensures View() == old(View()).(status := RunFailed, error := message)
    {
      status := RunFailed;
      error := message;
    }

    method Cancel()
      modifies this
      ensures View() == old(View()).(status := RunCancelled)
    {
      status := RunCancelled;
    }
  }

  method HandleResult(run: Run, totalRetries0: nat, stage: Stage, result: StageResult, maxTotal: int)
      returns (totalRetries: nat, phase: Phase)
    modifies run
    ensures Verdict(run.View(), totalRetries, phase) == Handle(old(run.View()), totalRetries0, stage, result, maxTotal)
  {
    totalRetries, phase := totalRetries0, Active;
    match result.status {
      case Completed =>
        if stage.createCheckpoint {
          run.AddCheckpoint();
        }
        run.currentStage := stage.onSuccess;
      case Failed =>
        if stage.onFailure != "" && run.GetRetries(stage.name) < stage.maxRetries {
          run.IncrementRetries(stage.name);
          totalRetries := totalRetries + 1;
          if totalRetries > maxTotal {
            run.Fail("exceeded maximum total retries");
            return totalRetries, RetriesExceeded;
          }
          run.currentStage := stage.onFailure;
        } else {
          run.Fail(result.error);
          return totalRetries, StageFailed;
        }
      case _ =>
    }
  }

  /** The body of the loop. */
  method TakeTurn(bp: Blueprint, maxTotal: int, run: Run, totalRetries0: nat, turn: Turn, ghost trace: seq<Visit>)
    returns (totalRetries: nat, phase: Phase, ghost trace': seq<Visit>)
    requires ProperTurn(turn)
    modifies run
    ensures Settle(ExecState(run.View(), trace', totalRetries, phase))
         == Step(bp, maxTotal, ExecState(old(run.View()), trace, totalRetries0, Active), turn)
  {
    totalRetries, trace' := totalRetries0, trace;
    if turn.Cancelled? {
      run.Cancel();
      return totalRetries, Stopped, trace;
    }
    if run.currentStage !in bp.stages {
      run.Fail("stage not found");
      return totalRetries, StageMissing, trace;
    }
    var stage := bp.stages[run.currentStage];
    var attempt := run.GetRetries(stage.name) + 1;
    var result := EffectiveResult(turn.outcome, stage.name, attempt);
    trace' := trace + [Visit(run.currentStage, result)];
    run.AddResult(result);
    totalRetries, phase := HandleResult(run, totalRetries, stage, result, maxTotal);
  }

  /**
   * Runs the loop over as many turns as the environment offers, and leaves the run exactly as the turn-by-turn
   * account says.
   */
  method Execute(bp: Blueprint, maxTotal: int, run: Run, turns: seq<Turn>) returns (phase: Phase, used: nat)
    requires ProperTurns(turns)
    modifies run
    ensures used <= |turns| && (phase.Active? ==> used == |turns|)
    ensures var s := Exec(bp, maxTotal, old(run.View()), turns[..used]);
            run.View() == s.run && phase == s.phase
  {
    var totalRetries := 0;
    used, phase := 0, Active;
    ghost var trace := [];
    assert turns[..0] == [];
    while run.currentStage != COMPLETE && run.currentStage != ""
      invariant used <= |turns| && phase.Active?
      invariant Settle(ExecState(run.View(), trace, totalRetries, Active))
          == Exec(bp, maxTotal, old(run.View()), turns[..used])
      decreases |turns| - used
    {
      if used == |turns| {
        return Active, used;
      }
      assert turns[..used + 1][..used] == turns[..used];
      totalRetries, phase, trace := TakeTurn(bp, maxTotal, run, totalRetries, turns[used], trace);
      used := used + 1;
      if !phase.Active? {
        return phase, used;
      }
    }
    run.Complete();
    return Succeeded, used;
  }
}
