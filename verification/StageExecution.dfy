/** The default stage executor, with commands, actions and the agent supplied by the environment. */
module StageExecution {
  import opened Common
  import opened Blueprint
  import opened Engine

  datatype CommandOutcome = CommandOutcome(output: string, error: Option<string>) {
    predicate Ok() { error.None? }
  }

  /** A registered action either errs or reports a status. */
  datatype ActionOutcome = ActionError(message: string) | ActionReport(status: StageStatus, output: string,
      error: string)

  datatype AgentOutcome = AgentError(message: string) | AgentReport(output: string, peakTokens: Option<int>)

  /** Everything outside the executor that one stage execution can observe. */
  datatype World = World(
    hasRegistry: bool,
    actions: map<string, ActionOutcome>,
    command: nat -> CommandOutcome, // the outcome of the i-th command, if it is run
    agent: Option<AgentOutcome>)

  datatype Settings = Settings(smartZoneTokens: int, hardStop: bool)

  const RUN_GATES := "run_gates"
  const DEFAULT_SMART_ZONE_TOKENS := 100_000

  function Registered(w: World, action: string): Option<ActionOutcome> {
    if w.hasRegistry && action in w.actions then Some(w.actions[action]) else None
  }

  /** Quality gates are configured, registered, and report a failure. */
  predicate GatesFail(stage: Stage, w: World) {
    && stage.runQualityGates
    && var gates := Registered(w, RUN_GATES);
       gates.Some? && gates.value.ActionReport? && gates.value.status == Failed
  }

  function RunQualityGates(stage: Stage, w: World, result: StageResult): StageResult {
    if !stage.runQualityGates then result
    else
      match Registered(w, RUN_GATES)
      case None => result
      case Some(ActionError(m)) => result.(output := result.output + "\n\nWarning: failed to run quality gates: " + m)
      case Some(ActionReport(status, output, error)) =>
        if status == Failed then
          result.(status := Failed, error := "Quality gates failed: " + error,
              output := result.output + "\n\n=== QUALITY GATE FAILURE ===\n" + output)
        else if output != "" then
          result.(output := result.output + "\n\n=== QUALITY GATES PASSED ===\n" + output)
        else result
  }

  /** The first command that fails, or the number of commands. */
  function FirstFailure(w: World, n: nat): nat {
    if n == 0 then 0
    else
      var k := FirstFailure(w, n - 1);
      if k < n - 1 then k else if w.command(n - 1).Ok() then n else n - 1
  }

  lemma {:induction false} FirstFailureMeaning(w: World, n: nat)
    ensures FirstFailure(w, n) <= n
    ensures forall i :: 0 <= i < FirstFailure(w, n) ==> w.command(i).Ok()
    ensures FirstFailure(w, n) < n ==> !w.command(FirstFailure(w, n)).Ok()
  {
    if n > 0 {
      FirstFailureMeaning(w, n - 1);
    }
  }

  /** The outputs of the first `n` commands, separated as the source separates them. */
  function JoinOutputs(w: World, n: nat): string {
    if n == 0 then ""
    else if n == 1 then w.command(0).output
    else JoinOutputs(w, n - 1) + "\n---\n" + w.command(n - 1).output
  }

  function CommandsResult(stage: Stage, w: World): StageResult {
    var k := FirstFailure(w, |stage.commands|);
    if k < |stage.commands| then
      var reason := if w.command(k).error.Some? then w.command(k).error.value else "";
      NewStageResult(stage.name, 1).(status := Failed, output := JoinOutputs(w, k + 1),
          error := "command failed: " + reason)
    else
      NewStageResult(stage.name, 1).(status := Completed, output := "all commands succeeded")
  }

  function ActionResult(stage: Stage, w: World, outcome: ActionOutcome): StageResult {
    var blank := NewStageResult(stage.name, 1);
    match outcome
    case ActionError(m) => blank.(status := Failed, error := m)
    case ActionReport(status, output, error) =>
      var r := blank.(status := status, output := output, error := error);
      if status == Completed then RunQualityGates(stage, w, r) else r
  }

  function Deterministically(stage: Stage, w: World): StageResult {
    if stage.action != "" && Registered(w, stage.action).Some? then
      ActionResult(stage, w, Registered(w, stage.action).value)
    else if stage.commands != [] then
      var r := CommandsResult(stage, w);
      if r.status == Completed then RunQualityGates(stage, w, r) else r
    else
      NewStageResult(stage.name, 1).(status := Failed, error := if stage.action != "" then "action is not registered"
          else "no commands to run")
  }

  predicate Overrun(cfg: Settings, peak: Option<int>) {
    && cfg.smartZoneTokens >= 0
    && peak.Some?
    && peak.value > if cfg.smartZoneTokens == 0 then DEFAULT_SMART_ZONE_TOKENS else cfg.smartZoneTokens
  }

  function Agentically(cfg: Settings, stage: Stage, w: World): Outcome {
    var blank := NewStageResult(stage.name, 1);
    match w.agent
    case None =>
      Outcome(Some(blank.(status := Failed, error := "agentic runner not configured")),
          Some("agentic runner not configured"))
    case Some(AgentError(m)) => Outcome(Some(blank.(status := Failed, error := m)), None)
    case Some(AgentReport(output, peak)) =>
      if Overrun(cfg, peak) && cfg.hardStop then
        Outcome(Some(blank.(status := Failed, output := output, error := "smart-zone budget exceeded")), None)
      else
        Outcome(Some(RunQualityGates(stage, w, blank.(status := Completed, output := output))), None)
  }

  /** What the executor returns for a stage. */
  function Perform(cfg: Settings, stage: Stage, w: World): Outcome {
    match stage.kind
    case Deterministic => Outcome(Some(Deterministically(stage, w)), None)
    case Agentic => Agentically(cfg, stage, w)
    case UnknownType =>
      Outcome(Some(NewStageResult(stage.name, 1).(status := Failed, error := "unknown stage type")),
          Some("unknown stage type"))
  }

  /** Runs the commands one after the other and stops at the first failure; `ran` counts those started. */
  method RunCommands(stage: Stage, w: World, result0: StageResult) returns (result: StageResult, ran: nat)
    requires result0 == NewStageResult(stage.name, 1)
    ensures result == CommandsResult(stage, w)
    ensures ran == if result.status == Completed then |stage.commands| else FirstFailure(w, |stage.commands|) + 1
  {
    result := result0;
    ran := 0;
    var outputs := "";
    for i := 0 to |stage.commands|
      invariant ran == i && FirstFailure(w, i) == i && outputs == JoinOutputs(w, i)
      invariant result == result0
    {
      var outcome := w.command(i);
      ran := ran + 1;
      outputs := if i == 0 then outcome.output else outputs + "\n---\n" + outcome.output;
      if outcome.error.Some? {
        FailureSticks(w, i, |stage.commands|);
        result := result.(output := outputs);
        result := result.(status := Failed, error := "command failed: " + outcome.error.value);
        return;
      }
    }
    result := result.(output := outputs);
    result := result.(status := Completed, output := "all commands succeeded");
  }

  lemma {:induction false} FailureSticks(w: World, i: nat, n: nat)
    requires FirstFailure(w, i) == i && !w.command(i).Ok() && i < n
    ensures FirstFailure(w, n) == i
  {
    if n > i + 1 {
      FailureSticks(w, i, n - 1);
    }
  }

  method ExecuteDeterministic(stage: Stage, w: World, result0: StageResult) returns (result: StageResult)
    requires result0 == NewStageResult(stage.name, 1)
    ensures result == Deterministically(stage, w)
  {
    result := result0;
    if stage.action != "" && w.hasRegistry && stage.action in w.actions {
      match w.actions[stage.action] {
        case ActionError(m) =>
          result := result.(status := Failed, error := m);
        case ActionReport(status, output, error) =>
          result := result.(status := status);
          result := result.(output := output);
          result := result.(error := error);
          if result.status == Completed {
            result := RunQualityGates(stage, w, result);
          }
      }
      return;
    }
    if |stage.commands| > 0 {
      var ran;
      result, ran := RunCommands(stage, w, result);
      if result.status == Failed {
        return;
      }
    } else if stage.action != "" {
      result := result.(status := Failed, error := "action is not registered");
      return;
    } else {
      result := result.(status := Failed, error := "no commands to run");
      return;
    }
    result := RunQualityGates(stage, w, result);
  }

  method ExecuteAgentic(cfg: Settings, stage: Stage, w: World, result0: StageResult) returns (outcome: Outcome)
    requires result0 == NewStageResult(stage.name, 1)
    ensures outcome == Agentically(cfg, stage, w)
  {
    var result := result0;
    if w.agent.None? {
      result := result.(status := Failed, error := "agentic runner not configured");
      return Outcome(Some(result), Some("agentic runner not configured"));
    }
    match w.agent.value
    case AgentError(m) =>
      return Outcome(Some(result.(status := Failed, error := m)), None);
    case AgentReport(output, peak) =>
      result := result.(status := Completed, output := output);
      if Overrun(cfg, peak) && cfg.hardStop {
        return Outcome(Some(result.(status := Failed, error := "smart-zone budget exceeded")), None);
      }
      result := RunQualityGates(stage, w, result);
      return Outcome(Some(result), None);
  }

  /** Executes a stage: a nil error always comes with a result. */
  method ExecuteStage(cfg: Settings, stage: Stage, w: World) returns (outcome: Outcome)
    ensures outcome == Perform(cfg, stage, w) && ProperOutcome(outcome)
  {
    var result := NewStageResult(stage.name, 1);
    match stage.kind
    case Deterministic =>
      result := ExecuteDeterministic(stage, w, result);
      outcome := Outcome(Some(result), None);
    case Agentic =>
      outcome := ExecuteAgentic(cfg, stage, w, result);
    case UnknownType =>
      result := result.(status := Failed, error := "unknown stage type");
      outcome := Outcome(Some(result), Some("unknown stage type"));
  }

  predicate AllCommandsOk(stage: Stage, w: World) {
    forall i :: 0 <= i < |stage.commands| ==> w.command(i).Ok()
  }

  /**
   * A stage that only runs commands completes exactly when it has some, all succeed, and no quality gate objects;
   * else it fails.
   */
  lemma CommandStageVerdict(cfg: Settings, stage: Stage, w: World)
    requires stage.kind.Deterministic? && stage.action == ""
    ensures var r := Perform(cfg, stage, w).result.value;
            && (r.status == Completed <==> stage.commands != [] && AllCommandsOk(stage, w) && !GatesFail(stage, w))
            && (r.status == Completed || r.status == Failed)
  {
    FirstFailureMeaning(w, |stage.commands|);
  }

  /**
   * A stage with a registered action takes the action's word: an error fails it with that message, a status other than
   * Completed is returned as reported, and Completed stands exactly when no quality gate fails.
   */
  lemma ActionStageVerdict(cfg: Settings, stage: Stage, w: World)
    requires stage.kind.Deterministic? && stage.action != "" && Registered(w, stage.action).Some?
    ensures var o := Perform(cfg, stage, w); var action := Registered(w, stage.action).value;
            && o.err.None? && o.result.Some?
            && var r := o.result.value;
               && (r.status == Completed <==>
                     action.ActionReport? && action.status == Completed && !GatesFail(stage, w))
               && (action.ActionError? ==> r.status == Failed && r.error == action.message)
               && (action.ActionReport? && action.status != Completed ==>
                     r.status == action.status && r.output == action.output && r.error == action.error)
               && (action.ActionReport? && action.status == Completed && GatesFail(stage, w) ==> r.status == Failed)
  {
  }

  /** The first failing command, if any, ends the stage and is the cause reported. */
  lemma FirstFailureIsReported(cfg: Settings, stage: Stage, w: World, k: nat, message: string)
    requires stage.kind.Deterministic? && stage.action == "" && k < |stage.commands|
    requires w.command(k).error == Some(message) && forall i :: 0 <= i < k ==> w.command(i).Ok()
    ensures var r := Perform(cfg, stage, w).result.value;
            r.status == Failed && r.error == "command failed: " + message && r.output == JoinOutputs(w, k + 1)
  {
    FirstFailureMeaning(w, |stage.commands|);
    assert FirstFailure(w, |stage.commands|) == k;
  }

  /** What a command stage reports when all its commands succeed and there are no gates to run. */
  lemma SuccessIsReported(cfg: Settings, stage: Stage, w: World)
    requires stage.kind.Deterministic? && stage.action == "" && stage.commands != [] && AllCommandsOk(stage, w)
    requires !stage.runQualityGates
    ensures var r := Perform(cfg, stage, w).result.value;
            r.status == Completed && r.output == "all commands succeeded" && r.error == ""
  {
    FirstFailureMeaning(w, |stage.commands|);
  }

  /** What the quality gates do to a result: nothing unless configured and registered; else fail it or add a note. */
  lemma GatesReport(stage: Stage, w: World, r: StageResult)
    ensures var r' := RunQualityGates(stage, w, r);
            if !stage.runQualityGates || !w.hasRegistry || "run_gates" !in w.actions then r' == r
            else
              && r.output <= r'.output
              && match w.actions["run_gates"]
                 case ActionError(m) => r'.status == r.status && r'.error == r.error && r' != r
                 case ActionReport(status, output, error) =>
                   if status == Failed then r'.status == Failed && r'.error == "Quality gates failed: " + error
                   else r'.status == r.status && r'.error == r.error && (output == "" <==> r' == r)
  {
    var r' := RunQualityGates(stage, w, r);
    if r' != r && stage.runQualityGates && w.hasRegistry && "run_gates" in w.actions {
      assert |r'.output| > |r.output|;
    }
  }

  /** How an agentic stage fails: without a runner, by the runner's error, or by a hard-stopped overrun. */
  lemma AgenticFailures(cfg: Settings, stage: Stage, w: World)
    requires stage.kind.Agentic?
    ensures var o := Perform(cfg, stage, w);
            && o.result.Some?
            && (w.agent.None? ==> o.err.Some? && o.result.value.status == Failed)
            && (w.agent.Some? ==> o.err.None?)
            && (w.agent.Some? && w.agent.value.AgentError? ==>
                  o.result.value.status == Failed && o.result.value.error == w.agent.value.message)
            && (w.agent.Some? && w.agent.value.AgentReport?
                && cfg.hardStop && Overrun(cfg, w.agent.value.peakTokens) ==>
                  o.result.value.status == Failed && o.result.value.output == w.agent.value.output)
  {
  }

  /** A stage of no known type fails with an error. */
  lemma UnknownTypeFails(cfg: Settings, stage: Stage, w: World)
    requires stage.kind.UnknownType?
    ensures var o := Perform(cfg, stage, w); o.err.Some? && o.result.Some? && o.result.value.status == Failed
  {
  }

  /** The smart zone: a negative setting switches it off, zero stands for 100000 tokens, reaching it is no overrun. */
  lemma OverrunMeaning(cfg: Settings, peak: int)
    ensures Overrun(cfg, Some(peak)) <==>
              (cfg.smartZoneTokens > 0 && peak > cfg.smartZoneTokens) || (cfg.smartZoneTokens == 0 && peak > 100_000)
    ensures !Overrun(cfg, None)
  {
  }

  /** A named but unregistered action never passes on its own. */
  lemma MissingActionFails(cfg: Settings, stage: Stage, w: World)
    requires stage.kind.Deterministic? && stage.action != "" && Registered(w, stage.action).None?
        && stage.commands == []
    ensures Perform(cfg, stage, w).result.value.status == Failed
  {
  }

  /**
   * An agentic stage completes exactly when its agent reports, no hard-stopped overrun happened, and no quality gate
   * objects.
   */
  lemma AgenticStageVerdict(cfg: Settings, stage: Stage, w: World)
    requires stage.kind.Agentic?
    ensures var o := Perform(cfg, stage, w);
            (o.err.None? && o.result.value.status == Completed <==>
              && w.agent.Some? && w.agent.value.AgentReport?
              && !(Overrun(cfg, w.agent.value.peakTokens) && cfg.hardStop)
              && !GatesFail(stage, w))
  {
  }
}
