/** The shipped standard blueprint: how long it can run, and what a completed run proves about the work. */
module StandardBlueprint {
  import opened Common
  import opened Blueprint
  import opened Engine
  import opened EngineRuns
  import opened StageExecution

  const GATHER := "gather_context"
  const IMPLEMENT := "implement"
  const CONTRACTS := "generate_contract_tests"
  const LINT := "lint"
  const FIX_LINT := "fix_lint"
  const TEST := "test"
  const FIX_TESTS := "fix_tests"
  const READINESS := "production_readiness_check"
  const REVIEW := "review"

  const STANDARD_STAGES: map<string, Stage> := map[
    GATHER := Stage(GATHER, Deterministic, "build_context", [], 0, IMPLEMENT, "", true, false),
    IMPLEMENT := Stage(IMPLEMENT, Agentic, "", [], 3, CONTRACTS, IMPLEMENT, false, false),
    CONTRACTS := Stage(CONTRACTS, Deterministic, "contracts.GenerateTests", [], 0, LINT, LINT, false, false),
    LINT := Stage(LINT, Deterministic, "", [], 0, TEST, FIX_LINT, false, false),
    FIX_LINT := Stage(FIX_LINT, Agentic, "", [], 2, LINT, "", false, false),
    TEST := Stage(TEST, Deterministic, "", [], 0, READINESS, FIX_TESTS, false, false),
    FIX_TESTS := Stage(FIX_TESTS, Agentic, "", [], 2, TEST, "", false, false),
    READINESS := Stage(READINESS, Deterministic, "checklist.Run", [], 0, REVIEW, REVIEW, false, false),
    REVIEW := Stage(REVIEW, Agentic, "", [], 0, COMPLETE, "", true, false)]

  const STANDARD_BLUEPRINT := Blueprint("standard_task", "Standard Task", STANDARD_STAGES, GATHER)

  predicate HasEdges(bp: Blueprint, stage: string, onSuccess: string, onFailure: string) {
    stage in bp.stages && bp.stages[stage].onSuccess == onSuccess && bp.stages[stage].onFailure == onFailure
  }

  /** The shipped stage graph, with any retry limits, commands, actions and checkpoints. */
  predicate StandardGraph(bp: Blueprint) {
    && bp.id != "" && bp.name != ""
    && bp.initialStage == GATHER
    && bp.stages.Keys == {GATHER, IMPLEMENT, CONTRACTS, LINT, FIX_LINT, TEST, FIX_TESTS, READINESS, REVIEW}
    && HasEdges(bp, GATHER, IMPLEMENT, "")
    && HasEdges(bp, IMPLEMENT, CONTRACTS, IMPLEMENT)
    && HasEdges(bp, CONTRACTS, LINT, LINT)
    && HasEdges(bp, LINT, TEST, FIX_LINT)
    && HasEdges(bp, FIX_LINT, LINT, "")
    && HasEdges(bp, TEST, READINESS, FIX_TESTS)
    && HasEdges(bp, FIX_TESTS, TEST, "")
    && HasEdges(bp, READINESS, REVIEW, REVIEW)
    && HasEdges(bp, REVIEW, COMPLETE, "")
  }

  lemma StandardIsStandard()
    ensures StandardGraph(STANDARD_BLUEPRINT) && NamesMatch(STANDARD_BLUEPRINT) && Valid(STANDARD_BLUEPRINT)
  {
    assert STANDARD_STAGES.Keys == {GATHER, IMPLEMENT, CONTRACTS, LINT, FIX_LINT, TEST, FIX_TESTS, READINESS, REVIEW};
    StandardGraphIsValid(STANDARD_BLUEPRINT);
  }

  lemma StandardGraphIsValid(bp: Blueprint)
    requires StandardGraph(bp)
    ensures Valid(bp)
  {
  }

  // Domination: what must have happened after the last implementation

  predicate Done(v: Visit, stage: string) {
    v.stage == stage && v.result.status == Completed
  }

  /** `h` is the last implementation of the trace, and it completed. */
  predicate LastImplementation(trace: seq<Visit>, h: int) {
    0 <= h < |trace| && Done(trace[h], IMPLEMENT) && forall m :: h < m < |trace| ==> trace[m].stage != IMPLEMENT
  }

  ghost predicate Implemented(trace: seq<Visit>) {
    exists h :: LastImplementation(trace, h)
  }

  ghost predicate Linted(trace: seq<Visit>) {
    exists h, i :: LastImplementation(trace, h) && h < i < |trace| && Done(trace[i], LINT)
  }

  ghost predicate Tested(trace: seq<Visit>) {
    exists h, i, j :: LastImplementation(trace, h) && h < i < j < |trace| && Done(trace[i], LINT)
        && Done(trace[j], TEST)
  }

  /** A lint, a test and a review completed in this order after the last implementation. */
  predicate ReviewChain(trace: seq<Visit>, h: int, i: int, j: int, k: int) {
    && LastImplementation(trace, h) && h < i < j < k < |trace|
    && Done(trace[i], LINT) && Done(trace[j], TEST) && Done(trace[k], REVIEW)
  }

  ghost predicate Reviewed(trace: seq<Visit>) {
    exists h, i, j, k :: ReviewChain(trace, h, i, j, k)
  }

  /** What the trace has established, from nothing (0) to a review (4). */
  ghost predicate Reaches(trace: seq<Visit>, level: int) {
    && (level >= 1 ==> Implemented(trace))
    && (level >= 2 ==> Linted(trace))
    && (level >= 3 ==> Tested(trace))
    && (level >= 4 ==> Reviewed(trace))
  }

  /** What must be established before the engine stands at a stage. */
  function Level(stage: string): nat {
    if stage in {GATHER, IMPLEMENT} then 0
    else if stage in {CONTRACTS, LINT, FIX_LINT} then 1
    else if stage in {TEST, FIX_TESTS} then 2
    else if stage in {READINESS, REVIEW} then 3
    else 4
  }

  /** An edge of the graph raises the level by one only out of a passed lint, test, review or implementation. */
  lemma EdgeLevels(bp: Blueprint, v: Visit, next: string)
    requires StandardGraph(bp) && EdgeFrom(bp, v, next)
    ensures v.stage == IMPLEMENT ==> Level(next) <= if v.result.status == Completed then 1 else 0
    ensures v.stage != IMPLEMENT && Level(next) > Level(v.stage) ==>
              && v.result.status == Completed
              && Level(next) == Level(v.stage) + 1
              && v.stage == (match Level(v.stage) case 1 => LINT case 2 => TEST case _ => REVIEW)
              && 1 <= Level(v.stage) <= 3
  {
  }

  lemma KeepsImplemented(trace: seq<Visit>, v: Visit)
    requires v.stage != IMPLEMENT && Implemented(trace)
    ensures Implemented(trace + [v])
  {
    var h :| LastImplementation(trace, h);
    assert LastImplementation(trace + [v], h);
  }

  lemma KeepsLinted(trace: seq<Visit>, v: Visit)
    requires v.stage != IMPLEMENT && Linted(trace)
    ensures Linted(trace + [v])
  {
    var after := trace + [v];
    var h, i :| LastImplementation(trace, h) && h < i < |trace| && Done(trace[i], LINT);
    assert LastImplementation(after, h) && Done(after[i], LINT);
  }

  lemma KeepsTested(trace: seq<Visit>, v: Visit)
    requires v.stage != IMPLEMENT && Tested(trace)
    ensures Tested(trace + [v])
  {
    var after := trace + [v];
    var h, i, j :| LastImplementation(trace, h) && h < i < j < |trace| && Done(trace[i], LINT) && Done(trace[j], TEST);
    assert LastImplementation(after, h) && Done(after[i], LINT) && Done(after[j], TEST);
  }

  lemma LaterVisitKeeps(trace: seq<Visit>, v: Visit, level: int)
    requires v.stage != IMPLEMENT && Reaches(trace, level) && level <= 3
    ensures Reaches(trace + [v], level)
  {
    if level >= 1 { KeepsImplemented(trace, v); }
    if level >= 2 { KeepsLinted(trace, v); }
    if level >= 3 { KeepsTested(trace, v); }
  }

  lemma PassedLint(trace: seq<Visit>, v: Visit)
    requires Implemented(trace) && Done(v, LINT)
    ensures Linted(trace + [v])
  {
    var after, n := trace + [v], |trace|;
    var h :| LastImplementation(trace, h);
    assert LastImplementation(after, h) && Done(after[n], LINT);
  }

  lemma PassedTest(trace: seq<Visit>, v: Visit)
    requires Linted(trace) && Done(v, TEST)
    ensures Tested(trace + [v])
  {
    var after, n := trace + [v], |trace|;
    var h, i :| LastImplementation(trace, h) && h < i < n && Done(trace[i], LINT);
    assert LastImplementation(after, h) && Done(after[i], LINT) && Done(after[n], TEST);
  }

  lemma PassedReview(trace: seq<Visit>, v: Visit)
    requires Tested(trace) && Done(v, REVIEW)
    ensures Reviewed(trace + [v])
  {
    var after, n := trace + [v], |trace|;
    var h, i, j :| LastImplementation(trace, h) && h < i < j < n && Done(trace[i], LINT) && Done(trace[j], TEST);
    assert LastImplementation(after, h) && Done(after[i], LINT) && Done(after[j], TEST) && Done(after[n], REVIEW);
    assert ReviewChain(after, h, i, j, n);
  }

  lemma ReachesStep(bp: Blueprint, trace: seq<Visit>, v: Visit, next: string)
    requires StandardGraph(bp) && EdgeFrom(bp, v, next) && Reaches(trace, Level(v.stage)) && Level(v.stage) <= 3
    ensures Reaches(trace + [v], Level(next))
  {
    EdgeLevels(bp, v, next);
    if v.stage == IMPLEMENT {
      if v.result.status == Completed {
        assert LastImplementation(trace + [v], |trace|);
      }
    } else {
      LaterVisitKeeps(trace, v, Level(v.stage));
      if Level(next) > Level(v.stage) {
        match Level(v.stage)
        case 1 => PassedLint(trace, v);
        case 2 => PassedTest(trace, v);
        case _ => PassedReview(trace, v);
      }
    }
  }

  lemma LevelOfStages(bp: Blueprint, stage: string)
    requires StandardGraph(bp)
    ensures stage in bp.stages ==> Level(stage) <= 3
    ensures IsEnd(stage) ==> Level(stage) == 4
  {
  }

  lemma {:induction false} ReachesAlways(bp: Blueprint, maxTotal: int, turns: seq<Turn>)
    requires StandardGraph(bp) && ProperTurns(turns)
    ensures var s := Exec(bp, maxTotal, NewRun(GATHER), turns);
            MovedOn(s) ==> Reaches(s.trace, Level(s.run.currentStage))
  {
    StandardGraphIsValid(bp);
    RunsFollowEdges(bp, maxTotal, NewRun(GATHER), turns);
    if turns != [] {
      var front := turns[..|turns| - 1];
      var s := Exec(bp, maxTotal, NewRun(GATHER), front);
      var s' := Exec(bp, maxTotal, NewRun(GATHER), turns);
      ReachesAlways(bp, maxTotal, front);
      RunsFollowEdges(bp, maxTotal, NewRun(GATHER), front);
      if s.phase.Active? && turns[|turns| - 1].Executed? && MovedOn(s') {
        var v := ExecutedTurn(bp, maxTotal, NewRun(GATHER), s, turns[|turns| - 1]);
        LevelOfStages(bp, v.stage);
        ReachesStep(bp, s.trace, v, s'.run.currentStage);
      }
    } else {
      LevelOfStart();
    }
  }

  lemma LevelOfStart()
    ensures Level(GATHER) == 0 && !IsEnd(GATHER)
  {
  }

  /**
   * With any retry limits, a completed run has, after its last implementation, a passed lint, then a passed test,
   * then a passed review.
   */
  lemma CompletedRunIsVerified(bp: Blueprint, maxTotal: int, turns: seq<Turn>)
    requires StandardGraph(bp) && ProperTurns(turns)
    requires Exec(bp, maxTotal, NewRun(GATHER), turns).phase.Succeeded?
    ensures Reviewed(Exec(bp, maxTotal, NewRun(GATHER), turns).trace)
  {
    StandardGraphIsValid(bp);
    RunsFollowEdges(bp, maxTotal, NewRun(GATHER), turns);
    ReachesAlways(bp, maxTotal, turns);
    LevelOfStages(bp, Exec(bp, maxTotal, NewRun(GATHER), turns).run.currentStage);
  }
}
