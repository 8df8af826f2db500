/** The standard blueprint driven by the default executor, and the length of its runs. */
module StandardRuns {
  import opened Common
  import opened Blueprint
  import opened Engine
  import opened EngineRuns
  import opened EngineTermination
  import opened StageExecution
  import opened StandardBlueprint

  // Runs driven by the default executor

  /** The turns the default executor produces when the i-th execution observes `worlds[i]`. */
  function Drive(bp: Blueprint, cfg: Settings, maxTotal: int, run0: RunState, worlds: seq<World>): (turns: seq<Turn>)
    ensures ProperTurns(turns) && |turns| == |worlds|
  {
    if worlds == [] then []
    else
      var front := Drive(bp, cfg, maxTotal, run0, worlds[..|worlds| - 1]);
      var stage := Exec(bp, maxTotal, run0, front).run.currentStage;
      front + [if stage in bp.stages then Executed(Perform(cfg, bp.stages[stage], worlds[|worlds| - 1])) else Cancelled]
  }

  /** A visit's result is what the executor returned in the world of that visit; an executor error is a failure. */
  predicate Witnessed(bp: Blueprint, cfg: Settings, v: Visit, w: World) {
    && v.stage in bp.stages
    && var o := Perform(cfg, bp.stages[v.stage], w);
       if o.err.None? then o.result == Some(v.result) else v.result.status == Failed
  }

  lemma {:induction false} DrivenVisitsAreWitnessed(bp: Blueprint, cfg: Settings, maxTotal: int, run0: RunState,
      worlds: seq<World>)
    ensures var s := Exec(bp, maxTotal, run0, Drive(bp, cfg, maxTotal, run0, worlds));
            |s.trace| <= |worlds| && forall i :: 0 <= i < |s.trace| ==> Witnessed(bp, cfg, s.trace[i], worlds[i])
  {
    if worlds != [] {
      var before := worlds[..|worlds| - 1];
      var front := Drive(bp, cfg, maxTotal, run0, before);
      var turns := Drive(bp, cfg, maxTotal, run0, worlds);
      assert turns[..|turns| - 1] == front;
      var s := Exec(bp, maxTotal, run0, front);
      DrivenVisitsAreWitnessed(bp, cfg, maxTotal, run0, before);
      ActiveMeansExecuted(bp, maxTotal, run0, front);
      if s.phase.Active? && s.run.currentStage in bp.stages {
        WitnessedStep(bp, cfg, maxTotal, s, worlds[|worlds| - 1]);
        OneMoreWitness(bp, cfg, s.trace, Exec(bp, maxTotal, run0, turns).trace, worlds);
      }
    }
  }

  lemma OneMoreWitness(bp: Blueprint, cfg: Settings, trace: seq<Visit>, trace': seq<Visit>, worlds: seq<World>)
    requires worlds != [] && |trace| == |worlds| - 1
    requires forall i :: 0 <= i < |trace| ==> Witnessed(bp, cfg, trace[i], worlds[i])
    requires exists v :: trace' == trace + [v] && Witnessed(bp, cfg, v, worlds[|worlds| - 1])
    ensures |trace'| == |worlds| && forall i :: 0 <= i < |trace'| ==> Witnessed(bp, cfg, trace'[i], worlds[i])
  {
  }

  lemma WitnessedStep(bp: Blueprint, cfg: Settings, maxTotal: int, s: ExecState, w: World)
    requires s.phase.Active? && s.run.currentStage in bp.stages
    ensures var turn := Executed(Perform(cfg, bp.stages[s.run.currentStage], w));
            && ProperTurn(turn)
            && (exists v :: Step(bp, maxTotal, s, turn).trace == s.trace + [v] && Witnessed(bp, cfg, v, w))
  {
    var turn := Executed(Perform(cfg, bp.stages[s.run.currentStage], w));
    var v := Visit(s.run.currentStage, TurnResult(bp, s.run, turn));
    assert Step(bp, maxTotal, s, turn).trace == s.trace + [v] && Witnessed(bp, cfg, v, w);
  }

  /** The stage has commands, in this world all of them succeeded, and no quality gate failed. */
  predicate ChecksPassed(stage: Stage, w: World) {
    stage.commands != [] && AllCommandsOk(stage, w) && !GatesFail(stage, w)
  }

  /**
   * Under the default executor, a run of the standard graph completes only if after the last implementation it
   * visited lint, then test, then review, each Completed, and at the lint and the test visit all commands
   * succeeded and no quality gate failed.
   */
  lemma CompletedRunPassedChecks(bp: Blueprint, cfg: Settings, maxTotal: int, worlds: seq<World>)
      returns (h: nat, i: nat, j: nat, k: nat)
    requires StandardGraph(bp)
    requires bp.stages[LINT].kind.Deterministic? && bp.stages[LINT].action == ""
    requires bp.stages[TEST].kind.Deterministic? && bp.stages[TEST].action == ""
    requires Exec(bp, maxTotal, NewRun(GATHER), Drive(bp, cfg, maxTotal, NewRun(GATHER), worlds)).run.status
        == RunCompleted
    ensures var trace := Exec(bp, maxTotal, NewRun(GATHER), Drive(bp, cfg, maxTotal, NewRun(GATHER), worlds)).trace;
            && LastImplementation(trace, h) && h < i < j < k < |trace| <= |worlds|
            && Done(trace[i], LINT) && Done(trace[j], TEST) && Done(trace[k], REVIEW)
    ensures ChecksPassed(bp.stages[LINT], worlds[i])
    ensures ChecksPassed(bp.stages[TEST], worlds[j])
  {
    var turns := Drive(bp, cfg, maxTotal, NewRun(GATHER), worlds);
    CompletedStatus(bp, maxTotal, NewRun(GATHER), turns);
    CompletedRunIsVerified(bp, maxTotal, turns);
    DrivenVisitsAreWitnessed(bp, cfg, maxTotal, NewRun(GATHER), worlds);
    h, i, j, k := ReviewedWitnesses(Exec(bp, maxTotal, NewRun(GATHER), turns).trace);
    DoneCommandStage(bp, cfg, Exec(bp, maxTotal, NewRun(GATHER), turns).trace[i], LINT, worlds[i]);
    DoneCommandStage(bp, cfg, Exec(bp, maxTotal, NewRun(GATHER), turns).trace[j], TEST, worlds[j]);
  }

  lemma ReviewedWitnesses(trace: seq<Visit>) returns (h: nat, i: nat, j: nat, k: nat)
    requires Reviewed(trace)
    ensures LastImplementation(trace, h) && h < i < j < k < |trace|
    ensures Done(trace[i], LINT) && Done(trace[j], TEST) && Done(trace[k], REVIEW)
  {
    var h', i', j', k' :| ReviewChain(trace, h', i', j', k');
    h, i, j, k := h', i', j', k';
  }

  lemma DoneCommandStage(bp: Blueprint, cfg: Settings, v: Visit, stage: string, w: World)
    requires Witnessed(bp, cfg, v, w) && Done(v, stage) && bp.stages[stage].kind.Deterministic?
        && bp.stages[stage].action == ""
    ensures ChecksPassed(bp.stages[stage], w)
  {
    CommandStageVerdict(cfg, bp.stages[stage], w);
  }

  /** The run's status says how its loop ended. */
  lemma {:induction false} CompletedStatus(bp: Blueprint, maxTotal: int, run0: RunState, turns: seq<Turn>)
    requires ProperTurns(turns) && run0.status != RunCompleted
    ensures var s := Exec(bp, maxTotal, run0, turns); s.run.status == RunCompleted <==> s.phase.Succeeded?
  {
    if turns != [] {
      CompletedStatus(bp, maxTotal, run0, turns[..|turns| - 1]);
    }
  }

  // Length of runs with the shipped limits

  predicate ShippedLimits(bp: Blueprint) {
    && bp.stages.Keys >= {IMPLEMENT, CONTRACTS, LINT, TEST, READINESS}
    && bp.stages[IMPLEMENT].maxRetries == 3
    && bp.stages[CONTRACTS].maxRetries == 0
    && bp.stages[LINT].maxRetries == 0
    && bp.stages[TEST].maxRetries == 0
    && bp.stages[READINESS].maxRetries == 0
  }

  lemma StandardHasShippedLimits()
    ensures ShippedLimits(STANDARD_BLUEPRINT)
  {
    StandardIsStandard();
  }

  predicate IsFixStage(stage: string) {
    stage == FIX_LINT || stage == FIX_TESTS
  }

  /** Executions still possible from a stage once `implement` has been retried `r` times. */
  function ExecutionsLeft(stage: string, r: int): int {
    if stage == GATHER then 10
    else if stage == IMPLEMENT then 9 - r
    else if stage == CONTRACTS then 5
    else if stage == LINT then 4
    else if stage == TEST then 3
    else if stage == READINESS then 2
    else if stage == REVIEW then 1
    else 0
  }

  /** Along each edge the shipped limits allow, the executions left drop, and no fix stage is entered. */
  lemma EdgeSpends(bp: Blueprint, v: Visit, next: string, r: int)
    requires StandardGraph(bp) && EdgeFrom(bp, v, next) && !IsFixStage(v.stage) && !IsEnd(v.stage)
    requires v.result.status == Completed || (v.result.status == Failed && v.stage == IMPLEMENT)
    requires 0 <= r <= 3
    ensures !IsFixStage(next)
    ensures ExecutionsLeft(next, if v.result.status == Failed then r + 1 else r) < ExecutionsLeft(v.stage, r)
  {
  }

  ghost predicate Short(s: ExecState) {
    && (forall i :: 0 <= i < |s.trace| ==> !IsFixStage(s.trace[i].stage))
    && |s.trace| <= 10
    && (s.phase.Active? ==>
          && !IsFixStage(s.run.currentStage)
          && Retries(s.run, IMPLEMENT) >= 0
          && ExecutionsLeft(s.run.currentStage, Retries(s.run, IMPLEMENT)) >= 1
          && |s.trace| + ExecutionsLeft(s.run.currentStage, Retries(s.run, IMPLEMENT)) <= 10)
  }

  /** A failure the loop moved on from was one of `implement`. */
  ghost predicate OnlyImplementRetried(s: ExecState) {
    forall i :: 0 <= i < |s.trace| && s.trace[i].result.status == Failed ==>
      s.trace[i].stage == IMPLEMENT || (i == |s.trace| - 1 && !s.phase.Active?)
  }

  lemma StageHasExecutionsLeft(bp: Blueprint, stage: string, r: int)
    requires StandardGraph(bp) && stage in bp.stages && !IsFixStage(stage) && r <= 3
    ensures ExecutionsLeft(stage, r) >= 1
  {
  }

  /** Which failures the shipped limits let the engine retry: those of `implement` only. */
  lemma OnlyImplementRetries(bp: Blueprint, stage: string)
    requires StandardGraph(bp) && ShippedLimits(bp) && stage in bp.stages && !IsFixStage(stage)
    ensures bp.stages[stage].onFailure != "" && bp.stages[stage].maxRetries > 0 ==> stage == IMPLEMENT
  {
  }

  lemma ShortStep(bp: Blueprint, maxTotal: int, s: ExecState, turn: Turn)
    requires StandardGraph(bp) && ShippedLimits(bp) && NamesMatch(bp) && ProperTurn(turn) && Decisive([turn])
        && Short(s)
    requires Linked(bp, NewRun(GATHER), s) && RetriesRight(bp, maxTotal, NewRun(GATHER), s)
    ensures Short(Step(bp, maxTotal, s, turn))
  {
    if s.phase.Active? && turn.Executed? {
      StandardGraphIsValid(bp);
      var s' := Step(bp, maxTotal, s, turn);
      var v := ExecutedTurn(bp, maxTotal, NewRun(GATHER), s, turn);
      RetriesStep(bp, maxTotal, NewRun(GATHER), s, turn);
      assert [turn][0] == turn;
      OnlyImplementRetries(bp, v.stage);
      if s'.phase.Active? {
        LinkedStep(bp, maxTotal, NewRun(GATHER), s, turn);
        ActiveStep(bp, maxTotal, s, turn);
        RetryBounds(bp, maxTotal, s, v.stage);
        RetryBounds(bp, maxTotal, s', IMPLEMENT);
        RetryBounds(bp, maxTotal, s, IMPLEMENT);
        EdgeSpends(bp, v, s'.run.currentStage, Retries(s.run, IMPLEMENT));
        StageHasExecutionsLeft(bp, s'.run.currentStage, Retries(s'.run, IMPLEMENT));
      }
    }
  }

  lemma RetriedStep(bp: Blueprint, maxTotal: int, s: ExecState, turn: Turn)
    requires StandardGraph(bp) && ShippedLimits(bp) && NamesMatch(bp) && ProperTurn(turn) && Decisive([turn])
    requires Short(s) && OnlyImplementRetried(s)
    requires Linked(bp, NewRun(GATHER), s) && RetriesRight(bp, maxTotal, NewRun(GATHER), s)
    ensures OnlyImplementRetried(Step(bp, maxTotal, s, turn))
  {
    if s.phase.Active? && turn.Executed? {
      var s' := Step(bp, maxTotal, s, turn);
      OnlyImplementRetries(bp, s.run.currentStage);
      RetryBounds(bp, maxTotal, s, s.run.currentStage);
      if s'.phase.Active? {
        ActiveStep(bp, maxTotal, s, turn);
      }
    }
  }

  lemma RetryBounds(bp: Blueprint, maxTotal: int, s: ExecState, stage: string)
    requires ShippedLimits(bp) && stage in bp.stages && RetriesRight(bp, maxTotal, NewRun(GATHER), s)
    ensures 0 <= Retries(s.run, stage)
    ensures Retries(s.run, stage) <= Max(0, bp.stages[stage].maxRetries)
  {
    assert Retries(NewRun(GATHER), stage) == 0;
  }

  /** A decisive turn that leaves the loop active either succeeded or counted a retry of its stage. */
  lemma ActiveStep(bp: Blueprint, maxTotal: int, s: ExecState, turn: Turn)
    requires NamesMatch(bp) && ProperTurn(turn) && Decisive([turn]) && s.phase.Active? && turn.Executed?
        && s.run.currentStage in bp.stages
    requires Step(bp, maxTotal, s, turn).phase.Active?
    ensures var status := TurnResult(bp, s.run, turn).status;
            var stage := bp.stages[s.run.currentStage];
            var run' := Step(bp, maxTotal, s, turn).run;
            || (status == Completed && run'.stageRetries == s.run.stageRetries)
            || (status == Failed && stage.onFailure != "" && Retries(s.run, stage.name) < stage.maxRetries
                && run'.stageRetries == s.run.stageRetries[stage.name := Retries(s.run, stage.name) + 1])
  {
    assert [turn][0] == turn;
  }

  /**
   * With the shipped limits, a decisive run executes at most ten stages, whatever the total limit, never a fix
   * stage, and moves on from a failure only of `implement`.
   */
  lemma {:induction false} ShippedRunsAreShort(bp: Blueprint, maxTotal: int, turns: seq<Turn>)
    requires StandardGraph(bp) && ShippedLimits(bp) && NamesMatch(bp) && ProperTurns(turns) && Decisive(turns)
    ensures Short(Exec(bp, maxTotal, NewRun(GATHER), turns))
    ensures OnlyImplementRetried(Exec(bp, maxTotal, NewRun(GATHER), turns))
  {
    StandardGraphIsValid(bp);
    if turns == [] {
      LevelOfStart();
    } else {
      var front := turns[..|turns| - 1];
      ShippedRunsAreShort(bp, maxTotal, front);
      RunsFollowEdges(bp, maxTotal, NewRun(GATHER), front);
      RetriesAreCounted(bp, maxTotal, NewRun(GATHER), front);
      ShortStep(bp, maxTotal, Exec(bp, maxTotal, NewRun(GATHER), front), turns[|turns| - 1]);
      RetriedStep(bp, maxTotal, Exec(bp, maxTotal, NewRun(GATHER), front), turns[|turns| - 1]);
    }
  }

  /** So ten decisive turns always end a run of the shipped blueprint. */
  lemma ShippedRunsHalt(maxTotal: int, turns: seq<Turn>)
    requires ProperTurns(turns) && Decisive(turns)
    ensures var s := Exec(STANDARD_BLUEPRINT, maxTotal, NewRun(GATHER), turns);
            && |s.trace| <= 10
            && (|turns| >= 10 ==> !s.phase.Active?)
            && forall i :: 0 <= i < |s.trace| ==> s.trace[i].stage != FIX_LINT && s.trace[i].stage != FIX_TESTS
  {
    StandardIsStandard();
    StandardHasShippedLimits();
    ShippedRunsAreShort(STANDARD_BLUEPRINT, maxTotal, turns);
    ActiveMeansExecuted(STANDARD_BLUEPRINT, maxTotal, NewRun(GATHER), turns);
  }
}
