/** What every run of the engine keeps, whatever the executor returns. */
module EngineRuns {
  import opened Common
  import opened Blueprint
  import opened Engine

  /** A run may be started at a stage of the blueprint or at an end. */
  predicate Startable(bp: Blueprint, run: RunState) {
    IsEnd(run.currentStage) || run.currentStage in bp.stages
  }

  /** The engine goes from a visit to `next` along the edge its status selects. */
  predicate EdgeFrom(bp: Blueprint, v: Visit, next: string) {
    && v.stage in bp.stages
    && match v.result.status
       case Completed => next == bp.stages[v.stage].onSuccess
       case Failed => next == bp.stages[v.stage].onFailure && next != ""
       case _ => next == v.stage
  }

  function Last(trace: seq<Visit>): Visit
    requires trace != []
  {
    trace[|trace| - 1]
  }

  /** The loop has left its last visit, as opposed to having ended the run on it. */
  predicate MovedOn(s: ExecState) {
    s.phase.Active? || s.phase.Succeeded? || s.phase.Stopped?
  }

  ghost predicate Linked(bp: Blueprint, run0: RunState, s: ExecState) {
    && !s.phase.StageMissing?
    && (s.phase.Active? ==> s.run.currentStage in bp.stages && !IsEnd(s.run.currentStage))
    && (s.phase.Succeeded? <==> MovedOn(s) && IsEnd(s.run.currentStage))
    && (s.trace != [] ==> s.trace[0].stage == run0.currentStage)
    && (forall i :: 0 <= i < |s.trace| ==> s.trace[i].stage in bp.stages && !IsEnd(s.trace[i].stage))
    && (forall i :: 0 <= i < |s.trace| - 1 ==> EdgeFrom(bp, s.trace[i], s.trace[i + 1].stage))
    && (MovedOn(s) ==> if s.trace == [] then s.run.currentStage == run0.currentStage
        else EdgeFrom(bp, Last(s.trace), s.run.currentStage))
    && (!MovedOn(s) ==> s.trace != [] && Last(s.trace).result.status == Failed)
  }

  lemma LinkedStep(bp: Blueprint, maxTotal: int, run0: RunState, s: ExecState, turn: Turn)
    requires Valid(bp) && ProperTurn(turn) && Linked(bp, run0, s)
    ensures Linked(bp, run0, Step(bp, maxTotal, s, turn))
  {
    if s.phase.Active? && turn.Executed? {
      var v := Visit(s.run.currentStage, TurnResult(bp, s.run, turn));
      LinkedVisit(bp, run0, s, v, Step(bp, maxTotal, s, turn));
    }
  }

  lemma LinkedVisit(bp: Blueprint, run0: RunState, s: ExecState, v: Visit, s': ExecState)
    requires Valid(bp) && Linked(bp, run0, s) && s.phase.Active? && v.stage == s.run.currentStage
    requires s'.trace == s.trace + [v] && !s'.phase.StageMissing? && !s'.phase.Stopped?
    requires MovedOn(s') ==> EdgeFrom(bp, v, s'.run.currentStage)
    requires MovedOn(s') ==> (s'.phase.Succeeded? <==> IsEnd(s'.run.currentStage))
    requires !MovedOn(s') ==> v.result.status == Failed
    ensures Linked(bp, run0, s')
  {
    assert ReferencesKnown(bp, bp.stages[v.stage]);
  }

  /** An executed turn appends one visit of the current stage and leaves it along that visit's edge. */
  lemma ExecutedTurn(bp: Blueprint, maxTotal: int, run0: RunState, s: ExecState, turn: Turn) returns (v: Visit)
    requires Valid(bp) && ProperTurn(turn) && Linked(bp, run0, s) && s.phase.Active? && turn.Executed?
    ensures v == Visit(s.run.currentStage, TurnResult(bp, s.run, turn))
    ensures var s' := Step(bp, maxTotal, s, turn);
            s'.trace == s.trace + [v] && (MovedOn(s') ==> EdgeFrom(bp, v, s'.run.currentStage))
  {
    v := Visit(s.run.currentStage, TurnResult(bp, s.run, turn));
    LinkedStep(bp, maxTotal, run0, s, turn);
  }

  /** The engine never looks up a missing stage, and consecutive visits follow the edges of the graph. */
  lemma {:induction false} RunsFollowEdges(bp: Blueprint, maxTotal: int, run0: RunState, turns: seq<Turn>)
    requires Valid(bp) && Startable(bp, run0) && ProperTurns(turns)
    ensures Linked(bp, run0, Exec(bp, maxTotal, run0, turns))
  {
    if turns != [] {
      var front := turns[..|turns| - 1];
      RunsFollowEdges(bp, maxTotal, run0, front);
      LinkedStep(bp, maxTotal, run0, Exec(bp, maxTotal, run0, front), turns[|turns| - 1]);
    }
  }

  function Results(trace: seq<Visit>): seq<StageResult> {
    seq(|trace|, i requires 0 <= i < |trace| => trace[i].result)
  }

  /** The visits that leave a checkpoint. */
  function CheckpointsOf(bp: Blueprint, trace: seq<Visit>): seq<string> {
    if trace == [] then []
    else
      var v := Last(trace);
      CheckpointsOf(bp, trace[..|trace| - 1]) +
      if v.stage in bp.stages && bp.stages[v.stage].createCheckpoint && v.result.status == Completed then [v.stage]
          else []
  }

  ghost predicate Recorded(bp: Blueprint, run0: RunState, s: ExecState) {
    && s.run.results == run0.results + Results(s.trace)
    && s.run.checkpoints == run0.checkpoints + CheckpointsOf(bp, s.trace)
  }

  lemma RecordedVisit(bp: Blueprint, run0: RunState, s: ExecState, v: Visit, s': ExecState)
    requires Recorded(bp, run0, s) && s'.trace == s.trace + [v] && s'.run.results == s.run.results + [v.result]
    requires s'.run.checkpoints == s.run.checkpoints +
               if v.stage in bp.stages && bp.stages[v.stage].createCheckpoint && v.result.status == Completed
                   then [v.stage] else []
    ensures Recorded(bp, run0, s')
  {
    assert (s.trace + [v])[..|s.trace|] == s.trace;
    assert Results(s.trace + [v]) == Results(s.trace) + [v.result];
  }

  lemma RecordedStep(bp: Blueprint, maxTotal: int, run0: RunState, s: ExecState, turn: Turn)
    requires ProperTurn(turn) && Recorded(bp, run0, s)
    ensures Recorded(bp, run0, Step(bp, maxTotal, s, turn))
  {
    if s.phase.Active? && turn.Executed? && s.run.currentStage in bp.stages {
      var v := Visit(s.run.currentStage, TurnResult(bp, s.run, turn));
      StepCheckpoints(bp, maxTotal, s, turn);
      RecordedVisit(bp, run0, s, v, Step(bp, maxTotal, s, turn));
    }
  }

  lemma StepCheckpoints(bp: Blueprint, maxTotal: int, s: ExecState, turn: Turn)
    requires s.phase.Active? && turn.Executed? && ProperTurn(turn) && s.run.currentStage in bp.stages
    ensures Step(bp, maxTotal, s, turn).run.checkpoints == s.run.checkpoints +
              if bp.stages[s.run.currentStage].createCheckpoint && TurnResult(bp, s.run, turn).status == Completed
                  then [s.run.currentStage] else []
  {
  }

  /**
   * Results holds every visit in order; Checkpoints holds exactly the completed visits of checkpointing stages, in
   * order.
   */
  lemma {:induction false} RunsAreRecorded(bp: Blueprint, maxTotal: int, run0: RunState, turns: seq<Turn>)
    requires ProperTurns(turns)
    ensures Recorded(bp, run0, Exec(bp, maxTotal, run0, turns))
  {
    if turns != [] {
      var front := turns[..|turns| - 1];
      RunsAreRecorded(bp, maxTotal, run0, front);
      RecordedStep(bp, maxTotal, run0, Exec(bp, maxTotal, run0, front), turns[|turns| - 1]);
    }
  }

  // Retry accounting

  function FailuresOf(trace: seq<Visit>, stage: string): nat {
    if trace == [] then 0
    else FailuresOf(trace[..|trace| - 1], stage) + if Last(trace).stage == stage && Last(trace).result.status == Failed
        then 1 else 0
  }

  function Failures(trace: seq<Visit>): nat {
    if trace == [] then 0
    else Failures(trace[..|trace| - 1]) + if Last(trace).result.status == Failed then 1 else 0
  }

  /** The failure edges taken: failed visits the loop moved on from. */
  function FailureEdges(s: ExecState): nat {
    Failures(if MovedOn(s) || s.trace == [] then s.trace else s.trace[..|s.trace| - 1])
  }

  /** The visits whose failure was counted as a retry. */
  function Counted(s: ExecState): seq<Visit> {
    if s.phase.StageFailed? && s.trace != [] then s.trace[..|s.trace| - 1] else s.trace
  }

  function Max(a: int, b: int): int {
    if a < b then b else a
  }

  ghost predicate RetriesRight(bp: Blueprint, maxTotal: int, run0: RunState, s: ExecState) {
    && (forall name :: Retries(s.run, name) == Retries(run0, name) + FailuresOf(Counted(s), name))
    && (forall name :: name in bp.stages ==>
        Retries(s.run, name) <= Max(Retries(run0, name), bp.stages[name].maxRetries))
    && s.totalRetries == Failures(Counted(s))
    && (s.phase.RetriesExceeded? ==>
        s.trace != [] && Last(s.trace).result.status == Failed && s.totalRetries == Max(maxTotal, 0) + 1)
    && (!s.phase.RetriesExceeded? ==> s.totalRetries <= Max(maxTotal, 0))
  }

  lemma FailuresAppend(trace: seq<Visit>, v: Visit)
    ensures forall name :: FailuresOf(trace + [v], name) == FailuresOf(trace, name) + if v.stage == name
        && v.result.status == Failed then 1 else 0
    ensures Failures(trace + [v]) == Failures(trace) + if v.result.status == Failed then 1 else 0
  {
    assert (trace + [v])[..|trace|] == trace;
  }

  /** A visit that counts no retry. */
  lemma UncountedVisit(bp: Blueprint, maxTotal: int, run0: RunState, s: ExecState, v: Visit, s': ExecState)
    requires RetriesRight(bp, maxTotal, run0, s) && s.phase.Active?
    requires s'.trace == s.trace + [v] && s'.totalRetries == s.totalRetries && s'.run.stageRetries == s.run.stageRetries
    requires !s'.phase.RetriesExceeded? && (s'.phase.StageFailed? <==> v.result.status == Failed)
    ensures RetriesRight(bp, maxTotal, run0, s')
  {
    FailuresAppend(s.trace, v);
    assert (s.trace + [v])[..|s.trace|] == s.trace;
  }

  /** A failed visit that counts one. */
  lemma CountedVisit(bp: Blueprint, maxTotal: int, run0: RunState, s: ExecState, v: Visit, s': ExecState)
    requires RetriesRight(bp, maxTotal, run0, s) && s.phase.Active? && v.result.status == Failed
    requires v.stage in bp.stages && Retries(s.run, v.stage) < bp.stages[v.stage].maxRetries
    requires s'.trace == s.trace + [v] && s'.totalRetries == s.totalRetries + 1
    requires s'.run.stageRetries == s.run.stageRetries[v.stage := Retries(s.run, v.stage) + 1]
    requires !s'.phase.StageFailed? && (s'.phase.RetriesExceeded? <==> s.totalRetries + 1 > maxTotal)
    ensures RetriesRight(bp, maxTotal, run0, s')
  {
    FailuresAppend(s.trace, v);
  }

  lemma RetriesStep(bp: Blueprint, maxTotal: int, run0: RunState, s: ExecState, turn: Turn)
    requires NamesMatch(bp) && ProperTurn(turn) && RetriesRight(bp, maxTotal, run0, s)
    ensures RetriesRight(bp, maxTotal, run0, Step(bp, maxTotal, s, turn))
  {
    if s.phase.Active? && turn.Executed? && s.run.currentStage in bp.stages {
      var stage := bp.stages[s.run.currentStage];
      var v := Visit(s.run.currentStage, TurnResult(bp, s.run, turn));
      if v.result.status == Failed && stage.onFailure != "" && Retries(s.run, stage.name) < stage.maxRetries {
        CountedVisit(bp, maxTotal, run0, s, v, Step(bp, maxTotal, s, turn));
      } else {
        UncountedVisit(bp, maxTotal, run0, s, v, Step(bp, maxTotal, s, turn));
      }
    }
  }

  /**
   * Per stage, the new retries are the failures counted for it; none passes its limit, and the total stays within the
   * run's.
   */
  lemma {:induction false} RetriesAreCounted(bp: Blueprint, maxTotal: int, run0: RunState, turns: seq<Turn>)
    requires NamesMatch(bp) && ProperTurns(turns)
    ensures RetriesRight(bp, maxTotal, run0, Exec(bp, maxTotal, run0, turns))
  {
    if turns != [] {
      var front := turns[..|turns| - 1];
      RetriesAreCounted(bp, maxTotal, run0, front);
      RetriesStep(bp, maxTotal, run0, Exec(bp, maxTotal, run0, front), turns[|turns| - 1]);
    }
  }

  /** The stage has a failure edge, and its failures so far, with what the run brought along, leave it a retry. */
  predicate CanRetry(bp: Blueprint, run0: RunState, trace: seq<Visit>, i: nat)
    requires i < |trace| && trace[i].stage in bp.stages
  {
    var stage := bp.stages[trace[i].stage];
    stage.onFailure != "" && Retries(run0, trace[i].stage) + FailuresOf(trace[..i], trace[i].stage) < stage.maxRetries
  }

  /** A failed visit ends the run as a failed stage exactly when its stage cannot be retried. */
  ghost predicate FailuresJudged(bp: Blueprint, run0: RunState, s: ExecState) {
    forall i :: 0 <= i < |s.trace| && s.trace[i].result.status == Failed ==>
      && s.trace[i].stage in bp.stages
      && ((s.phase.StageFailed? && i == |s.trace| - 1) <==> !CanRetry(bp, run0, s.trace, i))
  }

  lemma JudgedVisit(bp: Blueprint, run0: RunState, s: ExecState, v: Visit, s': ExecState)
    requires FailuresJudged(bp, run0, s) && s.phase.Active? && s'.trace == s.trace + [v]
    requires v.result.status != Failed ==> !s'.phase.StageFailed?
    requires v.result.status == Failed ==>
               && v.stage in bp.stages
               && (s'.phase.StageFailed? <==> !CanRetry(bp, run0, s'.trace, |s.trace|))
    ensures FailuresJudged(bp, run0, s')
  {
    forall i | 0 <= i < |s'.trace| && s'.trace[i].result.status == Failed
      ensures s'.trace[i].stage in bp.stages
      ensures (s'.phase.StageFailed? && i == |s'.trace| - 1) <==> !CanRetry(bp, run0, s'.trace, i)
    {
      if i < |s.trace| {
        assert s'.trace[i] == s.trace[i] && s'.trace[..i] == s.trace[..i];
      }
    }
  }

  lemma JudgedStep(bp: Blueprint, maxTotal: int, run0: RunState, s: ExecState, turn: Turn)
    requires Valid(bp) && NamesMatch(bp) && ProperTurn(turn) && FailuresJudged(bp, run0, s)
    requires Linked(bp, run0, s) && RetriesRight(bp, maxTotal, run0, s)
    ensures FailuresJudged(bp, run0, Step(bp, maxTotal, s, turn))
  {
    if s.phase.Active? && turn.Executed? {
      var v := Visit(s.run.currentStage, TurnResult(bp, s.run, turn));
      var s' := Step(bp, maxTotal, s, turn);
      assert s'.trace[..|s.trace|] == s.trace && Counted(s) == s.trace;
      assert Retries(s.run, v.stage) == Retries(run0, v.stage) + FailuresOf(s.trace, v.stage);
      JudgedVisit(bp, run0, s, v, s');
    }
  }

  /** Over every run a stage is retried as often as its limit allows, and no more. */
  lemma {:induction false} FailuresAreJudged(bp: Blueprint, maxTotal: int, run0: RunState, turns: seq<Turn>)
    requires Valid(bp) && NamesMatch(bp) && Startable(bp, run0) && ProperTurns(turns)
    ensures FailuresJudged(bp, run0, Exec(bp, maxTotal, run0, turns))
  {
    if turns != [] {
      var front := turns[..|turns| - 1];
      FailuresAreJudged(bp, maxTotal, run0, front);
      RunsFollowEdges(bp, maxTotal, run0, front);
      RetriesAreCounted(bp, maxTotal, run0, front);
      JudgedStep(bp, maxTotal, run0, Exec(bp, maxTotal, run0, front), turns[|turns| - 1]);
    }
  }

  /** The status and error a run is left with, by how its loop ended. */
  ghost predicate EndRecorded(run0: RunState, s: ExecState) {
    match s.phase
    case Active => s.run.status == run0.status && s.run.error == run0.error
    case Succeeded => s.run.status == RunCompleted && s.run.error == run0.error
    case Stopped => s.run.status == RunCancelled && s.run.error == run0.error
    case StageFailed => s.run.status == RunFailed && s.trace != [] && s.run.error == Last(s.trace).result.error
    case RetriesExceeded => s.run.status == RunFailed && s.run.error == "exceeded maximum total retries"
    case StageMissing => s.run.status == RunFailed && s.run.error == "stage not found"
  }

  lemma {:induction false} EndsAreRecorded(bp: Blueprint, maxTotal: int, run0: RunState, turns: seq<Turn>)
    requires ProperTurns(turns)
    ensures EndRecorded(run0, Exec(bp, maxTotal, run0, turns))
  {
    if turns != [] {
      EndsAreRecorded(bp, maxTotal, run0, turns[..|turns| - 1]);
      EndStep(bp, maxTotal, run0, Exec(bp, maxTotal, run0, turns[..|turns| - 1]), turns[|turns| - 1]);
    }
  }

  lemma EndStep(bp: Blueprint, maxTotal: int, run0: RunState, s: ExecState, turn: Turn)
    requires ProperTurn(turn) && EndRecorded(run0, s)
    ensures EndRecorded(run0, Step(bp, maxTotal, s, turn))
  {
    var s' := Step(bp, maxTotal, s, turn);
    if s.phase.Active? && turn.Executed? && s.run.currentStage in bp.stages {
      assert Last(s'.trace).result == TurnResult(bp, s.run, turn);
    }
  }

  /** An executor error makes the visit a failure that keeps the evidence and names a cause. */
  lemma ErrorsBecomeFailures(o: Outcome, name: string, attempt: int, e: string)
    requires o.err == Some(e)
    ensures var r := EffectiveResult(o, name, attempt);
            && r.status == Failed
            && (o.result.None? ==> r.error == e && r.stageName == name && r.attempt == attempt)
            && (o.result.Some? ==> r.output == o.result.value.output && r.attempt == o.result.value.attempt)
            && (o.result.Some? && o.result.value.error != "" ==> r.error == o.result.value.error)
            && (o.result.Some? && o.result.value.error == "" ==> r.error == e)
  {
  }

  lemma {:induction false} FailuresAddUp(trace: seq<Visit>, keys: set<string>)
    requires forall i :: 0 <= i < |trace| ==> trace[i].stage in keys
    ensures SumOver(keys, name => FailuresOf(trace, name)) == Failures(trace)
  {
    if trace == [] {
      SumZero(keys);
      SumSame(keys, name => FailuresOf(trace, name), (name: string) => 0);
    } else {
      var front := trace[..|trace| - 1];
      FailuresAddUp(front, keys);
      var f := (name: string) => FailuresOf(front, name);
      var g := (name: string) => FailuresOf(trace, name);
      SumChange(keys, f, g, Last(trace).stage);
    }
  }

  lemma {:induction false} SumZero(keys: set<string>)
    ensures SumOver(keys, (name: string) => 0) == 0
  {
    if keys != {} {
      var k :| k in keys && SumOver(keys, (name: string) => 0) == SumOver(keys - {k}, (name: string) => 0);
      SumZero(keys - {k});
    }
  }

  lemma CountedEdges(s: ExecState)
    requires !MovedOn(s) ==> s.trace != [] && Last(s.trace).result.status == Failed
    requires !s.phase.StageMissing?
    ensures Failures(Counted(s)) == FailureEdges(s) + if s.phase.RetriesExceeded? then 1 else 0
  {
  }

  /** Over all stages, the new retries are the failure edges taken, plus one if the total limit ended the run. */
  lemma NewRetriesAreFailureEdges(bp: Blueprint, maxTotal: int, run0: RunState, turns: seq<Turn>)
    requires Valid(bp) && NamesMatch(bp) && Startable(bp, run0) && ProperTurns(turns)
    ensures var s := Exec(bp, maxTotal, run0, turns);
            SumOver(bp.stages.Keys, name => Retries(s.run, name) - Retries(run0, name))
              == FailureEdges(s) + if s.phase.RetriesExceeded? then 1 else 0
  {
    var s := Exec(bp, maxTotal, run0, turns);
    RunsFollowEdges(bp, maxTotal, run0, turns);
    RetriesAreCounted(bp, maxTotal, run0, turns);
    var counted := Counted(s);
    CountedEdges(s);
    assert forall i :: 0 <= i < |counted| ==> counted[i] == s.trace[i];
    FailuresAddUp(counted, bp.stages.Keys);
    SumSame(bp.stages.Keys, name => FailuresOf(counted, name), name => Retries(s.run, name) - Retries(run0, name));
  }

  /**
   * Some stage may retry into the name that ends the loop; a validated blueprint allows this only if a stage is keyed
   * "complete".
   */
  predicate FailureCanEnd(bp: Blueprint) {
    exists key :: key in bp.stages && !IsEnd(key) && bp.stages[key].onFailure == COMPLETE
        && bp.stages[key].maxRetries > 0
  }

  lemma FailureCanEndNeedsCompleteStage(bp: Blueprint)
    requires Valid(bp) && FailureCanEnd(bp)
    ensures COMPLETE in bp.stages
  {
    var key :| key in bp.stages && bp.stages[key].onFailure == COMPLETE;
    assert ReferencesKnown(bp, bp.stages[key]);
  }

  /** The last edge into the end, if there was one, was a success edge. */
  ghost predicate EndedBySuccess(s: ExecState) {
    s.phase.Succeeded? && s.trace != [] ==> Last(s.trace).result.status == Completed
  }

  ghost predicate RetriesNonNegative(run: RunState) {
    forall name :: Retries(run, name) >= 0
  }

  /**
   * A turn reaches the end along a failure edge only where such an edge exists and the total limit leaves room for
   * it.
   */
  lemma LastEdge(bp: Blueprint, maxTotal: int, s: ExecState, turn: Turn)
    requires !FailureCanEnd(bp) || maxTotal < 1
    requires ProperTurn(turn) && EndedBySuccess(s) && RetriesNonNegative(s.run)
    requires s.phase.Active? ==> !IsEnd(s.run.currentStage)
    ensures var s' := Step(bp, maxTotal, s, turn);
            EndedBySuccess(s') && RetriesNonNegative(s'.run) && (s'.phase.Active? ==> !IsEnd(s'.run.currentStage))
  {
    var s' := Step(bp, maxTotal, s, turn);
    forall name ensures Retries(s'.run, name) >= 0 {
      assert Retries(s.run, name) >= 0;
    }
  }

  lemma {:induction false} RunsEndBySuccess(bp: Blueprint, maxTotal: int, run0: RunState, turns: seq<Turn>)
    requires !FailureCanEnd(bp) || maxTotal < 1
    requires RetriesNonNegative(run0) && ProperTurns(turns)
    ensures var s := Exec(bp, maxTotal, run0, turns);
            EndedBySuccess(s) && RetriesNonNegative(s.run) && (s.phase.Active? ==> !IsEnd(s.run.currentStage))
  {
    if turns == [] {
      assert forall name :: Retries(Begin(run0).run, name) == Retries(run0, name);
    } else {
      var front := turns[..|turns| - 1];
      RunsEndBySuccess(bp, maxTotal, run0, front);
      LastEdge(bp, maxTotal, Exec(bp, maxTotal, run0, front), turns[|turns| - 1]);
    }
  }

  /** Every run that ends Completed after at least one visit ends on a Completed visit. */
  ghost predicate CompletedMeansSuccess(bp: Blueprint, maxTotal: int) {
    forall run0, turns :: RetriesNonNegative(run0) && ProperTurns(turns) ==>
        EndedBySuccess(Exec(bp, maxTotal, run0, turns))
  }

  /**
   * This holds of a blueprint and a total retry limit exactly when no stage can retry into the end, or nothing can
   * retry at all.
   */
  lemma CompletedRunsEndCompletedIff(bp: Blueprint, maxTotal: int)
    ensures CompletedMeansSuccess(bp, maxTotal) <==> !FailureCanEnd(bp) || maxTotal < 1
  {
    if !FailureCanEnd(bp) || maxTotal < 1 {
      forall run0, turns | RetriesNonNegative(run0) && ProperTurns(turns)
        ensures EndedBySuccess(Exec(bp, maxTotal, run0, turns))
      {
        RunsEndBySuccess(bp, maxTotal, run0, turns);
      }
    } else {
      var key :| key in bp.stages && !IsEnd(key) && bp.stages[key].onFailure == COMPLETE
          && bp.stages[key].maxRetries > 0;
      var turns := FailedRunCanEndCompleted(bp, maxTotal, key);
      assert RetriesNonNegative(NewRun(key));
      assert !EndedBySuccess(Exec(bp, maxTotal, NewRun(key), turns));
    }
  }

  /** The failing runs: start at such a stage and let it fail once. */
  lemma FailedRunCanEndCompleted(bp: Blueprint, maxTotal: int, key: string) returns (turns: seq<Turn>)
    requires key in bp.stages && !IsEnd(key) && bp.stages[key].onFailure == COMPLETE && bp.stages[key].maxRetries > 0
        && maxTotal >= 1
    ensures ProperTurns(turns)
    ensures var s := Exec(bp, maxTotal, NewRun(key), turns);
            s.phase.Succeeded? && s.run.status == RunCompleted && |s.trace| == 1 && s.trace[0].result.status == Failed
  {
    turns := [Executed(Outcome(None, Some("boom")))];
    assert turns[..0] == [];
    assert Exec(bp, maxTotal, NewRun(key), turns[..0]) == Begin(NewRun(key));
  }

  const BUILD := Stage("build", Agentic, "", [], 1, COMPLETE, COMPLETE, false, false)
  const WRAP_UP := Stage(COMPLETE, Agentic, "", [], 0, "", "", false, false)
  const RETRIES_INTO_END := Blueprint("b", "b", map["build" := BUILD, COMPLETE := WRAP_UP], "build")

  /** A blueprint that passes validation and whose run ends Completed on its only, failed, stage. */
  lemma ValidatedBlueprintCanFail(maxTotal: int) returns (turns: seq<Turn>)
    requires maxTotal >= 1
    ensures Valid(RETRIES_INTO_END) && NamesMatch(RETRIES_INTO_END) && FailureCanEnd(RETRIES_INTO_END)
    ensures ProperTurns(turns)
    ensures var s := Exec(RETRIES_INTO_END, maxTotal, NewRun(RETRIES_INTO_END.initialStage), turns);
            s.run.status == RunCompleted && |s.trace| == 1 && s.trace[0].result.status == Failed
  {
    assert "build"[0] != COMPLETE[0];
    assert "build" in RETRIES_INTO_END.stages && RETRIES_INTO_END.stages["build"] == BUILD;
    turns := FailedRunCanEndCompleted(RETRIES_INTO_END, maxTotal, "build");
  }
}
