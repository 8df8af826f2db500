/** When the engine's loop must end, and how soon. */
module EngineTermination {
  import opened Common
  import opened Blueprint
  import opened Engine
  import opened EngineRuns

  /** A stage the loop can execute. */
  predicate Live(bp: Blueprint, stage: string) {
    stage in bp.stages && !IsEnd(stage)
  }

  predicate IsSuccessWalk(bp: Blueprint, p: seq<string>) {
    && (forall i :: 0 <= i < |p| ==> Live(bp, p[i]))
    && (forall i :: 0 <= i < |p| - 1 ==> Live(bp, p[i]) && p[i + 1] == bp.stages[p[i]].onSuccess)
  }

  predicate IsSuccessCycle(bp: Blueprint, p: seq<string>) {
    |p| >= 2 && p[0] == p[|p| - 1] && IsSuccessWalk(bp, p)
  }

  ghost predicate SuccessAcyclic(bp: Blueprint) {
    forall p :: !IsSuccessCycle(bp, p)
  }

  /** The live stages met by following success edges, at most `n` of them. */
  function SuccessPath(bp: Blueprint, stage: string, n: nat): seq<string>
    decreases n
  {
    if n == 0 || !Live(bp, stage) then [] else [stage] + SuccessPath(bp, bp.stages[stage].onSuccess, n - 1)
  }

  lemma {:induction false} SuccessPathIsWalk(bp: Blueprint, stage: string, n: nat)
    ensures |SuccessPath(bp, stage, n)| <= n
    ensures IsSuccessWalk(bp, SuccessPath(bp, stage, n))
    ensures SuccessPath(bp, stage, n) != [] ==> SuccessPath(bp, stage, n)[0] == stage
    decreases n
  {
    if n > 0 && Live(bp, stage) {
      var rest := SuccessPath(bp, bp.stages[stage].onSuccess, n - 1);
      SuccessPathIsWalk(bp, bp.stages[stage].onSuccess, n - 1);
      var p := [stage] + rest;
      forall i | 0 <= i < |p| - 1 ensures Live(bp, p[i]) && p[i + 1] == bp.stages[p[i]].onSuccess {
        if i > 0 {
          assert p[i] == rest[i - 1] && p[i + 1] == rest[i];
        }
      }
    }
  }

  /** A walk longer than the number of stages contains a cycle. */
  lemma LongWalkHasCycle(bp: Blueprint, p: seq<string>) returns (q: seq<string>)
    requires IsSuccessWalk(bp, p) && |p| > |bp.stages.Keys|
    ensures IsSuccessCycle(bp, q)
  {
    var i, j := Pigeonhole(p, bp.stages.Keys);
    q := p[i..j + 1];
    forall k | 0 <= k < |q| - 1 ensures Live(bp, q[k]) && q[k + 1] == bp.stages[q[k]].onSuccess {
      assert q[k] == p[i + k] && q[k + 1] == p[i + k + 1];
    }
  }

  /** Without cycles a success path visits each stage at most once. */
  lemma SuccessPathIsShort(bp: Blueprint, stage: string, n: nat)
    requires SuccessAcyclic(bp)
    ensures |SuccessPath(bp, stage, n)| <= |bp.stages|
  {
    SuccessPathIsWalk(bp, stage, n);
    assert |bp.stages| == |bp.stages.Keys|;
    if |SuccessPath(bp, stage, n)| > |bp.stages.Keys| {
      var q := LongWalkHasCycle(bp, SuccessPath(bp, stage, n));
    }
  }

  lemma {:induction false} SuccessPathGrows(bp: Blueprint, stage: string, n: nat)
    ensures |SuccessPath(bp, stage, n + 1)| > n || SuccessPath(bp, stage, n + 1) == SuccessPath(bp, stage, n)
    decreases n
  {
    if n > 0 && Live(bp, stage) {
      SuccessPathGrows(bp, bp.stages[stage].onSuccess, n - 1);
    }
  }

  /** How many stages an unbroken streak of successes would still execute. */
  function Rank(bp: Blueprint, stage: string): nat {
    |SuccessPath(bp, stage, |bp.stages| + 1)|
  }

  lemma RankDrops(bp: Blueprint, stage: string)
    requires SuccessAcyclic(bp)
    ensures Rank(bp, stage) <= |bp.stages|
    ensures Live(bp, stage) ==> Rank(bp, stage) == 1 + Rank(bp, bp.stages[stage].onSuccess)
  {
    SuccessPathIsShort(bp, stage, |bp.stages| + 1);
    if Live(bp, stage) {
      var next := bp.stages[stage].onSuccess;
      SuccessPathIsShort(bp, next, |bp.stages| + 1);
      SuccessPathGrows(bp, next, |bp.stages|);
    }
  }

  predicate IsDecisive(o: Outcome) {
    o.err.None? && o.result.Some? ==> o.result.value.status == Completed || o.result.value.status == Failed
  }

  /** Every executor call came back Completed or Failed. */
  predicate Decisive(turns: seq<Turn>) {
    forall i :: 0 <= i < |turns| && turns[i].Executed? ==> IsDecisive(turns[i].outcome)
  }

  /** Stage executions still possible: a full success path per unused retry, and the rest of the current one. */
  function Budget(bp: Blueprint, maxTotal: int, s: ExecState): int {
    if s.phase.Active? then (Max(maxTotal, 0) - s.totalRetries) * |bp.stages| + Rank(bp, s.run.currentStage) else 0
  }

  function Bound(bp: Blueprint, maxTotal: int): nat {
    (Max(maxTotal, 0) + 1) * |bp.stages|
  }

  lemma RetryPays(m: nat, t: nat, n: nat)
    requires t < m
    ensures (m - (t + 1)) * n + n == (m - t) * n
  {
  }

  lemma BudgetNonNegative(m: nat, t: nat, n: nat)
    requires t <= m
    ensures (m - t) * n >= 0
  {
  }

  lemma BudgetStep(bp: Blueprint, maxTotal: int, s: ExecState, turn: Turn)
    requires SuccessAcyclic(bp) && ProperTurn(turn) && Decisive([turn])
    requires s.phase.Active? && Live(bp, s.run.currentStage) && s.totalRetries <= Max(maxTotal, 0)
    ensures var s' := Step(bp, maxTotal, s, turn);
            |s'.trace| + Budget(bp, maxTotal, s') <= |s.trace| + Budget(bp, maxTotal, s)
  {
    var s' := Step(bp, maxTotal, s, turn);
    RankDrops(bp, s.run.currentStage);
    BudgetNonNegative(Max(maxTotal, 0), s.totalRetries, |bp.stages|);
    if turn.Executed? && s'.phase.Active? {
      assert [turn][0] == turn;
      RankDrops(bp, s'.run.currentStage);
      if TurnResult(bp, s.run, turn).status == Failed {
        RetryPays(Max(maxTotal, 0), s.totalRetries, |bp.stages|);
      }
    }
  }

  /** While the loop is active the total of retries is within its limit. */
  lemma {:induction false} TotalWithinLimit(bp: Blueprint, maxTotal: int, run0: RunState, turns: seq<Turn>)
    requires ProperTurns(turns)
    ensures var s := Exec(bp, maxTotal, run0, turns); s.phase.Active? ==> s.totalRetries <= Max(maxTotal, 0)
  {
    if turns != [] {
      TotalWithinLimit(bp, maxTotal, run0, turns[..|turns| - 1]);
    }
  }

  lemma {:induction false} BudgetHolds(bp: Blueprint, maxTotal: int, run0: RunState, turns: seq<Turn>)
    requires Valid(bp) && Startable(bp, run0) && SuccessAcyclic(bp) && ProperTurns(turns) && Decisive(turns)
    ensures var s := Exec(bp, maxTotal, run0, turns);
            |s.trace| + Budget(bp, maxTotal, s) <= Bound(bp, maxTotal)
  {
    if turns == [] {
      RankDrops(bp, run0.currentStage);
      RetryPays(Max(maxTotal, 0) + 1, 0, |bp.stages|);
    } else {
      var front := turns[..|turns| - 1];
      var turn := turns[|turns| - 1];
      var s := Exec(bp, maxTotal, run0, front);
      BudgetHolds(bp, maxTotal, run0, front);
      RunsFollowEdges(bp, maxTotal, run0, front);
      TotalWithinLimit(bp, maxTotal, run0, front);
      if s.phase.Active? {
        BudgetStep(bp, maxTotal, s, turn);
      }
    }
  }

  /** While the loop is active, every turn has executed a stage. */
  lemma {:induction false} ActiveMeansExecuted(bp: Blueprint, maxTotal: int, run0: RunState, turns: seq<Turn>)
    requires ProperTurns(turns)
    ensures var s := Exec(bp, maxTotal, run0, turns); s.phase.Active? ==> |s.trace| == |turns|
  {
    if turns != [] {
      ActiveMeansExecuted(bp, maxTotal, run0, turns[..|turns| - 1]);
    }
  }

  /**
   * Without success cycles, any decisive executor brings the run to an end within (total retries + 1) times the
   * number of stages.
   */
  lemma Halts(bp: Blueprint, maxTotal: int, run0: RunState, turns: seq<Turn>)
    requires Valid(bp) && Startable(bp, run0) && SuccessAcyclic(bp) && ProperTurns(turns) && Decisive(turns)
    ensures var s := Exec(bp, maxTotal, run0, turns);
            |s.trace| <= Bound(bp, maxTotal) && (|turns| >= Bound(bp, maxTotal) ==> !s.phase.Active?)
  {
    var s := Exec(bp, maxTotal, run0, turns);
    BudgetHolds(bp, maxTotal, run0, turns);
    ActiveMeansExecuted(bp, maxTotal, run0, turns);
    RunsFollowEdges(bp, maxTotal, run0, turns);
    TotalWithinLimit(bp, maxTotal, run0, turns);
    if s.phase.Active? {
      RankDrops(bp, s.run.currentStage);
      BudgetNonNegative(Max(maxTotal, 0), s.totalRetries, |bp.stages|);
    }
  }

  function Repeat(turn: Turn, n: nat): seq<Turn> {
    seq(n, _ => turn)
  }

  const SUCCESS := Executed(Outcome(Some(StageResult("", Completed, 1, "", "")), None))
  const SKIP := Executed(Outcome(Some(StageResult("", Skipped, 1, "", "")), None))

  /** A success cycle keeps a run that only ever succeeds going for as long as one likes. */
  lemma {:induction false} CycleNeverHalts(bp: Blueprint, maxTotal: int, p: seq<string>, n: nat)
    requires IsSuccessCycle(bp, p)
    ensures ProperTurns(Repeat(SUCCESS, n)) && Decisive(Repeat(SUCCESS, n))
    ensures var s := Exec(bp, maxTotal, NewRun(p[0]), Repeat(SUCCESS, n));
            s.phase.Active? && |s.trace| == n && s.run.currentStage == p[n % (|p| - 1)]
  {
    if n > 0 {
      CycleNeverHalts(bp, maxTotal, p, n - 1);
      assert Repeat(SUCCESS, n)[..n - 1] == Repeat(SUCCESS, n - 1);
      var m := |p| - 1;
      var i := (n - 1) % m;
      assert p[i + 1] == bp.stages[p[i]].onSuccess && Live(bp, p[i + 1]);
      NextRemainder(n, m);
    }
  }

  /** Every decisive run is over after as many turns as the bound. */
  ghost predicate AlwaysHalts(bp: Blueprint, maxTotal: int) {
    forall run0, turns ::
      (Startable(bp, run0) && ProperTurns(turns) && Decisive(turns) && |turns| >= Bound(bp, maxTotal)) ==>
      !Exec(bp, maxTotal, run0, turns).phase.Active?
  }

  /** For a validated blueprint this holds, with any retry limit, exactly when the success edges have no cycle. */
  lemma AlwaysHaltsIff(bp: Blueprint, maxTotal: int)
    requires Valid(bp)
    ensures AlwaysHalts(bp, maxTotal) <==> SuccessAcyclic(bp)
  {
    if SuccessAcyclic(bp) {
      forall run0, turns |
        Startable(bp, run0) && ProperTurns(turns) && Decisive(turns) && |turns| >= Bound(bp, maxTotal)
        ensures !Exec(bp, maxTotal, run0, turns).phase.Active?
      {
        Halts(bp, maxTotal, run0, turns);
      }
    } else {
      var p :| IsSuccessCycle(bp, p);
      var n := Bound(bp, maxTotal);
      CycleNeverHalts(bp, maxTotal, p, n);
      assert Startable(bp, NewRun(p[0])) && Exec(bp, maxTotal, NewRun(p[0]), Repeat(SUCCESS, n)).phase.Active?;
    }
  }

  lemma NextRemainder(n: nat, m: nat)
    requires n > 0 && m > 0
    ensures n % m == if (n - 1) % m + 1 == m then 0 else (n - 1) % m + 1
  {
    var q, r := (n - 1) / m, (n - 1) % m;
    assert n == q * m + r + 1;
    if r + 1 == m {
      assert n == (q + 1) * m;
      QuotientRemainder(n, m, q + 1, 0);
    } else {
      QuotientRemainder(n, m, q, r + 1);
    }
  }

  lemma QuotientRemainder(n: nat, m: nat, q: nat, r: nat)
    requires m > 0 && n == q * m + r && r < m
    ensures n % m == r
  {
    var d := n / m - q;
    assert n % m - r == -(d * m);
    MultiplesApart(d, m);
  }

  lemma MultiplesApart(d: int, m: nat)
    ensures d > 0 ==> d * m >= m
    ensures d < 0 ==> d * m <= 0 - m
  {
    if d > 0 {
      assert (d - 1) * m >= 0;
    } else if d < 0 {
      assert (0 - d - 1) * m >= 0;
    }
  }

  /** An executor that never decides repeats its stage for as long as one likes. */
  lemma {:induction false} IndecisionNeverHalts(bp: Blueprint, maxTotal: int, stage: string, n: nat)
    requires Live(bp, stage)
    ensures ProperTurns(Repeat(SKIP, n))
    ensures var s := Exec(bp, maxTotal, NewRun(stage), Repeat(SKIP, n));
            s.phase.Active? && |s.trace| == n && s.run.currentStage == stage
  {
    if n > 0 {
      IndecisionNeverHalts(bp, maxTotal, stage, n - 1);
      assert Repeat(SKIP, n)[..n - 1] == Repeat(SKIP, n - 1);
    }
  }
}
