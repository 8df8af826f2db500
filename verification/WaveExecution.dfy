/** All interleavings of the main goroutine and the workers while a plan's waves run. */
module WaveExecution {
  import opened Common
  import opened TaskGraph
  import opened Multisets
  import opened Waves

  datatype WorkerResult = WorkerResult(subtaskID: ID, failed: bool, output: string)

  /** A worker goroutine, by the statement it executes next. */
  datatype WorkerPC =
    | NotStarted
    | Waiting // at the semaphore
    | Running // inside runWorker
    | Recorded // result stored under the lock
    | Sent // result in the wave's channel
    | Released // semaphore slot given back
    | Done // wait group decremented

  datatype Config = Config(subtasks: seq<Subtask>, order: seq<ID>, waves: seq<seq<Subtask>>, maxWorkers: nat)

  datatype State = State(
    wave: nat, // the main goroutine's position in the outer loop
    spawned: nat, // and in the spawn loop
    workers: seq<WorkerPC>,
    sem: nat, // slots taken in the semaphore channel
    buffered: nat, // results in the wave's channel
    waiting: nat, // wait group counter
    completed: map<ID, WorkerResult>)

  datatype Step =
    | Spawn | Acquire(i: nat) | Finish(i: nat, result: WorkerResult) | Send(i: nat) | Release(i: nat) | Exit(i: nat)
    | NextWave

  /** The configured worker limit as the constructor normalises it. */
  function EffectiveWorkers(configured: int): (n: nat)
    ensures configured >= 1 ==> n == configured
    ensures configured < 1 ==> n == 4
  {
    if configured <= 0 then 4 else configured
  }

  ghost predicate ValidConfig(c: Config) {
    && IsTopologicalOrder(c.subtasks, c.order)
    && IsLayering(c.subtasks, c.order, c.waves)
    && c.maxWorkers >= 1
  }

  function Width(c: Config, wave: nat): nat {
    if wave < |c.waves| then |c.waves[wave]| else 0
  }

  function StartWave(c: Config, wave: nat, completed: map<ID, WorkerResult>): State {
    State(wave, 0, seq(Width(c, wave), _ => NotStarted), 0, 0, 0, completed)
  }

  function Init(c: Config): State {
    StartWave(c, 0, map[])
  }

  predicate Final(c: Config, s: State) {
    s.wave >= |c.waves|
  }

  predicate At(s: State, i: nat, pc: WorkerPC) {
    i < |s.workers| && s.workers[i] == pc
  }

  predicate Enabled(c: Config, s: State, step: Step) {
    !Final(c, s) &&
    match step
    case Spawn => s.spawned < |s.workers|
    case Acquire(i) => At(s, i, Waiting) && s.sem < c.maxWorkers
    case Finish(i, r) => At(s, i, Running) && i < |c.waves[s.wave]| && r.subtaskID == c.waves[s.wave][i].id
    case Send(i) => At(s, i, Recorded) && s.buffered < |c.waves[s.wave]|
    case Release(i) => At(s, i, Sent) && s.sem > 0
    case Exit(i) => At(s, i, Released) && s.waiting > 0
    case NextWave => s.spawned == |s.workers| && s.waiting == 0
  }

  function Apply(c: Config, s: State, step: Step): State
    requires Enabled(c, s, step)
  {
    match step
    case Spawn => s.(workers := s.workers[s.spawned := Waiting], spawned := s.spawned + 1, waiting := s.waiting + 1)
    case Acquire(i) => s.(workers := s.workers[i := Running], sem := s.sem + 1)
    case Finish(i, r) => s.(workers := s.workers[i := Recorded], completed := s.completed[r.subtaskID := r])
    case Send(i) => s.(workers := s.workers[i := Sent], buffered := s.buffered + 1)
    case Release(i) => s.(workers := s.workers[i := Released], sem := s.sem - 1)
    case Exit(i) => s.(workers := s.workers[i := Done], waiting := s.waiting - 1)
    case NextWave => StartWave(c, s.wave + 1, s.completed)
  }

  /** The state after a schedule, if every step of it was enabled. */
  function After(c: Config, steps: seq<Step>): Option<State> {
    if steps == [] then Some(Init(c))
    else
      var before := After(c, steps[..|steps| - 1]);
      var step := steps[|steps| - 1];
      if before.Some? && Enabled(c, before.value, step) then Some(Apply(c, before.value, step)) else None
  }

  // Counting workers

  predicate Holding(pc: WorkerPC) { pc.Running? || pc.Recorded? || pc.Sent? }
  predicate Delivered(pc: WorkerPC) { pc.Sent? || pc.Released? || pc.Done? }
  predicate Unfinished(pc: WorkerPC) { !pc.NotStarted? && !pc.Done? }
  predicate HasResult(pc: WorkerPC) { pc.Recorded? || Delivered(pc) }

  function Count(workers: seq<WorkerPC>, p: WorkerPC -> bool): nat {
    if workers == [] then 0
    else Count(workers[..|workers| - 1], p) + if p(workers[|workers| - 1]) then 1 else 0
  }

  lemma {:induction false} CountUpdate(workers: seq<WorkerPC>, p: WorkerPC -> bool, i: nat, pc: WorkerPC)
    requires i < |workers|
    ensures Count(workers[i := pc], p)
        == Count(workers, p) - (if p(workers[i]) then 1 else 0) + (if p(pc) then 1 else 0)
  {
    var n := |workers| - 1;
    if i < n {
      CountUpdate(workers[..n], p, i, pc);
      assert workers[i := pc][..n] == workers[..n][i := pc];
    } else {
      assert workers[i := pc][..n] == workers[..n];
    }
  }

  lemma {:induction false} CountNone(workers: seq<WorkerPC>, p: WorkerPC -> bool)
    ensures Count(workers, p) == 0 <==> forall i :: 0 <= i < |workers| ==> !p(workers[i])
  {
    if workers != [] {
      CountNone(workers[..|workers| - 1], p);
    }
  }

  lemma {:induction false} CountAll(workers: seq<WorkerPC>, p: WorkerPC -> bool)
    ensures Count(workers, p) <= |workers|
    ensures Count(workers, p) == |workers| ==> forall i :: 0 <= i < |workers| ==> p(workers[i])
  {
    if workers != [] {
      CountAll(workers[..|workers| - 1], p);
    }
  }

  function Members(workers: seq<WorkerPC>, p: WorkerPC -> bool): set<int> {
    set i | 0 <= i < |workers| && p(workers[i])
  }

  /** Counting by predicate agrees with the size of the set of such workers. */
  lemma {:induction false} CountIsSize(workers: seq<WorkerPC>, p: WorkerPC -> bool)
    ensures |Members(workers, p)| == Count(workers, p)
  {
    if workers != [] {
      var n := |workers| - 1;
      CountIsSize(workers[..n], p);
      var before := Members(workers[..n], p);
      assert Members(workers, p) == if p(workers[n]) then before + {n} else before;
    }
  }

  // The invariant

  /** The ids whose results are stored: all earlier waves, and the workers past their store. */
  ghost predicate CompletedExactly(c: Config, s: State) {
    forall id :: id in s.completed <==>
      || (exists k :: 0 <= k < s.wave && k < |c.waves| && id in Ids(c.waves[k]))
      || (exists i ::
            && 0 <= i < |s.workers| && i < Width(c, s.wave)
            && HasResult(s.workers[i]) && c.waves[s.wave][i].id == id)
  }

  ghost predicate Inv(c: Config, s: State) {
    && s.wave <= |c.waves|
    && |s.workers| == Width(c, s.wave)
    && s.spawned <= |s.workers|
    && (forall i :: 0 <= i < |s.workers| ==> (s.workers[i].NotStarted? <==> i >= s.spawned))
    && s.sem == Count(s.workers, Holding) && s.sem <= c.maxWorkers
    && s.buffered == Count(s.workers, Delivered)
    && s.waiting == Count(s.workers, Unfinished)
    && (forall id :: id in s.completed ==> s.completed[id].subtaskID == id)
    && CompletedExactly(c, s)
  }

  lemma StartWaveInv(c: Config, wave: nat, completed: map<ID, WorkerResult>)
    requires wave <= |c.waves|
    requires forall id :: id in completed ==> completed[id].subtaskID == id
    requires forall id :: id in completed <==> exists k :: 0 <= k < wave && id in Ids(c.waves[k])
    ensures Inv(c, StartWave(c, wave, completed))
  {
    var s := StartWave(c, wave, completed);
    CountNone(s.workers, Holding);
    CountNone(s.workers, Delivered);
    CountNone(s.workers, Unfinished);
  }

  lemma InitInv(c: Config)
    ensures Inv(c, Init(c))
  {
    StartWaveInv(c, 0, map[]);
  }

  /** Moving one worker of the current wave changes the three counters by what its old and new place hold. */
  lemma WorkerMove(c: Config, s: State, i: nat, pc: WorkerPC)
    requires Inv(c, s) && i < |s.workers|
    ensures var w := s.workers[i := pc];
            && Count(w, Holding) == s.sem - (if Holding(s.workers[i]) then 1 else 0) + (if Holding(pc) then 1 else 0)
            && Count(w, Delivered)
                == s.buffered - (if Delivered(s.workers[i]) then 1 else 0) + (if Delivered(pc) then 1 else 0)
            && Count(w, Unfinished)
                == s.waiting - (if Unfinished(s.workers[i]) then 1 else 0) + (if Unfinished(pc) then 1 else 0)
  {
    CountUpdate(s.workers, Holding, i, pc);
    CountUpdate(s.workers, Delivered, i, pc);
    CountUpdate(s.workers, Unfinished, i, pc);
  }

  /** Moves that do not store a result leave the set of stored ids right. */
  lemma CompletedKept(c: Config, s: State, i: nat, pc: WorkerPC, s': State)
    requires Inv(c, s) && i < |s.workers| && HasResult(pc) == HasResult(s.workers[i])
    requires s'.wave == s.wave && s'.workers == s.workers[i := pc] && s'.completed == s.completed
    ensures CompletedExactly(c, s')
  {
    forall id ensures id in s'.completed <==>
        || (exists k :: 0 <= k < s'.wave && k < |c.waves| && id in Ids(c.waves[k]))
        || (exists j ::
            && 0 <= j < |s'.workers| && j < Width(c, s'.wave)
            && HasResult(s'.workers[j]) && c.waves[s'.wave][j].id == id)
    {
      if j :| 0 <= j < |s.workers| && j < Width(c, s.wave) && HasResult(s.workers[j]) && c.waves[s.wave][j].id == id {
        assert HasResult(s'.workers[j]);
      }
      if j :|
        && 0 <= j < |s'.workers| && j < Width(c, s'.wave)
        && HasResult(s'.workers[j]) && c.waves[s'.wave][j].id == id
      {
        assert HasResult(s.workers[j]);
      }
    }
  }

  lemma CompletedStored(c: Config, s: State, i: nat, r: WorkerResult)
    requires Inv(c, s) && Enabled(c, s, Finish(i, r))
    ensures CompletedExactly(c, Apply(c, s, Finish(i, r)))
  {
    var s' := Apply(c, s, Finish(i, r));
    forall id ensures id in s'.completed <==>
        || (exists k :: 0 <= k < s'.wave && k < |c.waves| && id in Ids(c.waves[k]))
        || (exists j ::
            && 0 <= j < |s'.workers| && j < Width(c, s'.wave)
            && HasResult(s'.workers[j]) && c.waves[s'.wave][j].id == id)
    {
      if j :| 0 <= j < |s.workers| && j < Width(c, s.wave) && HasResult(s.workers[j]) && c.waves[s.wave][j].id == id {
        assert HasResult(s'.workers[j]);
      }
      if j :|
        && 0 <= j < |s'.workers| && j < Width(c, s'.wave)
        && HasResult(s'.workers[j]) && c.waves[s'.wave][j].id == id
      {
        assert j != i ==> HasResult(s.workers[j]);
      }
      assert HasResult(s'.workers[i]);
    }
  }

  lemma NextWaveInv(c: Config, s: State)
    requires Inv(c, s) && Enabled(c, s, NextWave)
    ensures Inv(c, Apply(c, s, NextWave))
  {
    CountNone(s.workers, Unfinished);
    forall id ensures id in s.completed <==> exists k :: 0 <= k < s.wave + 1 && id in Ids(c.waves[k]) {
      if id in Ids(c.waves[s.wave]) {
        var i :| 0 <= i < |Ids(c.waves[s.wave])| && Ids(c.waves[s.wave])[i] == id;
        assert HasResult(s.workers[i]);
      }
      if i :| 0 <= i < |s.workers| && i < Width(c, s.wave) && HasResult(s.workers[i]) && c.waves[s.wave][i].id == id {
        assert Ids(c.waves[s.wave])[i] == id;
      }
    }
    StartWaveInv(c, s.wave + 1, s.completed);
  }

  /** A worker's move keeps the invariant when it adjusts the counters as the move requires. */
  lemma MoveInv(c: Config, s: State, i: nat, pc: WorkerPC, s': State)
    requires Inv(c, s) && i < |s.workers| && !pc.NotStarted?
    requires s'.wave == s.wave && s'.workers == s.workers[i := pc]
    requires s'.spawned == s.spawned + if s.workers[i].NotStarted? then 1 else 0
    requires s.workers[i].NotStarted? ==> i == s.spawned
    requires s'.sem == s.sem - (if Holding(s.workers[i]) then 1 else 0) + (if Holding(pc) then 1 else 0)
        && s'.sem <= c.maxWorkers
    requires s'.buffered == s.buffered - (if Delivered(s.workers[i]) then 1 else 0) + (if Delivered(pc) then 1 else 0)
    requires s'.waiting == s.waiting - (if Unfinished(s.workers[i]) then 1 else 0) + (if Unfinished(pc) then 1 else 0)
    requires forall id :: id in s'.completed ==> s'.completed[id].subtaskID == id
    requires CompletedExactly(c, s')
    ensures Inv(c, s')
  {
    WorkerMove(c, s, i, pc);
  }

  /** The moves that store nothing. */
  lemma QuietMoveInv(c: Config, s: State, step: Step, i: nat, pc: WorkerPC)
    requires Inv(c, s) && Enabled(c, s, step) && !step.Finish? && !step.NextWave?
    requires i < |s.workers| && HasResult(pc) == HasResult(s.workers[i]) && !pc.NotStarted?
    requires Apply(c, s, step).workers == s.workers[i := pc]
    requires s.workers[i].NotStarted? ==> step.Spawn? && i == s.spawned && pc == Waiting
    requires step.Acquire? ==> s.workers[i] == Waiting && pc == Running
    requires step.Send? ==> s.workers[i] == Recorded && pc == Sent
    requires step.Release? ==> s.workers[i] == Sent && pc == Released
    requires step.Exit? ==> s.workers[i] == Released && pc == Done
    requires step.Spawn? ==> s.workers[i].NotStarted?
    ensures Inv(c, Apply(c, s, step))
  {
    var s' := Apply(c, s, step);
    CompletedKept(c, s, i, pc, s');
    MoveInv(c, s, i, pc, s');
  }

  lemma StepInv(c: Config, s: State, step: Step)
    requires Inv(c, s) && Enabled(c, s, step)
    ensures Inv(c, Apply(c, s, step))
  {
    match step
    case Spawn => QuietMoveInv(c, s, step, s.spawned, Waiting);
    case Acquire(i) => QuietMoveInv(c, s, step, i, Running);
    case Finish(i, r) =>
      CompletedStored(c, s, i, r);
      MoveInv(c, s, i, Recorded, Apply(c, s, step));
    case Send(i) => QuietMoveInv(c, s, step, i, Sent);
    case Release(i) => QuietMoveInv(c, s, step, i, Released);
    case Exit(i) => QuietMoveInv(c, s, step, i, Done);
    case NextWave => NextWaveInv(c, s);
  }

  lemma {:induction false} ReachableInv(c: Config, steps: seq<Step>)
    requires After(c, steps).Some?
    ensures Inv(c, After(c, steps).value)
  {
    if steps == [] {
      InitInv(c);
    } else {
      var front := steps[..|steps| - 1];
      ReachableInv(c, front);
      StepInv(c, After(c, front).value, steps[|steps| - 1]);
    }
  }

  // What every interleaving guarantees

  /** A worker that has been spawned finds the result of each of its dependencies already stored. */
  lemma StartsAfterDependencies(c: Config, steps: seq<Step>, i: nat, dep: ID)
    requires ValidConfig(c) && After(c, steps).Some?
    requires var s := After(c, steps).value;
             i < |s.workers| && i < Width(c, s.wave) && !s.workers[i].NotStarted?
                 && DependsOn(c.subtasks, c.waves[s.wave][i].id, dep)
    ensures dep in After(c, steps).value.completed
  {
    var s := After(c, steps).value;
    ReachableInv(c, steps);
    var id := c.waves[s.wave][i].id;
    assert Ids(c.waves[s.wave])[i] == id;
    DependenciesInEarlierWaves(c.subtasks, c.order, c.waves, id, dep, s.wave);
  }

  /** At most `maxWorkers` goroutines are between taking and giving back a semaphore slot. */
  lemma BoundedConcurrency(c: Config, steps: seq<Step>)
    requires After(c, steps).Some?
    ensures |Members(After(c, steps).value.workers, Holding)| <= c.maxWorkers
  {
    var s := After(c, steps).value;
    ReachableInv(c, steps);
    CountIsSize(s.workers, Holding);
  }

  /** Whatever has happened so far, something can happen next until the last wave is over. */
  lemma NoDeadlock(c: Config, steps: seq<Step>) returns (step: Step)
    requires c.maxWorkers >= 1 && After(c, steps).Some? && !Final(c, After(c, steps).value)
    ensures Enabled(c, After(c, steps).value, step)
  {
    var s := After(c, steps).value;
    ReachableInv(c, steps);
    if s.spawned < |s.workers| {
      step := Spawn;
    } else if i :| 0 <= i < |s.workers| && s.workers[i].Running? {
      step := Finish(i, WorkerResult(c.waves[s.wave][i].id, false, ""));
    } else if i :| 0 <= i < |s.workers| && s.workers[i].Recorded? {
      CountAll(s.workers, Delivered);
      step := Send(i);
    } else if i :| 0 <= i < |s.workers| && s.workers[i].Sent? {
      CountNone(s.workers, Holding);
      step := Release(i);
    } else if i :| 0 <= i < |s.workers| && s.workers[i].Released? {
      CountNone(s.workers, Unfinished);
      step := Exit(i);
    } else if i :| 0 <= i < |s.workers| && s.workers[i].Waiting? {
      CountNone(s.workers, Holding);
      step := Acquire(i);
    } else {
      CountNone(s.workers, Unfinished);
      step := NextWave;
    }
  }

  /** Steps a worker still has to take. */
  function StepsLeft(pc: WorkerPC): nat {
    match pc
    case NotStarted => 6
    case Waiting => 5
    case Running => 4
    case Recorded => 3
    case Sent => 2
    case Released => 1
    case Done => 0
  }

  function WorkLeft(workers: seq<WorkerPC>): nat {
    if workers == [] then 0 else WorkLeft(workers[..|workers| - 1]) + StepsLeft(workers[|workers| - 1])
  }

  lemma {:induction false} WorkLeftUpdate(workers: seq<WorkerPC>, i: nat, pc: WorkerPC)
    requires i < |workers|
    ensures WorkLeft(workers[i := pc]) == WorkLeft(workers) - StepsLeft(workers[i]) + StepsLeft(pc)
  {
    var n := |workers| - 1;
    if i < n {
      WorkLeftUpdate(workers[..n], i, pc);
      assert workers[i := pc][..n] == workers[..n][i := pc];
    } else {
      assert workers[i := pc][..n] == workers[..n];
    }
  }

  lemma {:induction false} WorkLeftConstant(workers: seq<WorkerPC>, pc: WorkerPC)
    requires forall i :: 0 <= i < |workers| ==> workers[i] == pc
    ensures WorkLeft(workers) == |workers| * StepsLeft(pc)
  {
    if workers != [] {
      WorkLeftConstant(workers[..|workers| - 1], pc);
    }
  }

  /** Six steps per worker and one per wave, from `wave` on. */
  function WavesLeft(c: Config, wave: nat): nat
    decreases |c.waves| - wave
  {
    if wave >= |c.waves| then 0 else 6 * |c.waves[wave]| + 1 + WavesLeft(c, wave + 1)
  }

  function Measure(c: Config, s: State): nat {
    if Final(c, s) then 0 else WavesLeft(c, s.wave + 1) + 1 + WorkLeft(s.workers)
  }

  lemma StartWaveMeasure(c: Config, wave: nat, completed: map<ID, WorkerResult>)
    ensures Measure(c, StartWave(c, wave, completed)) == WavesLeft(c, wave)
  {
    WorkLeftConstant(StartWave(c, wave, completed).workers, NotStarted);
  }

  lemma NextWaveMeasure(c: Config, s: State)
    requires Inv(c, s) && Enabled(c, s, NextWave)
    ensures Measure(c, Apply(c, s, NextWave)) + 1 == Measure(c, s)
  {
    CountNone(s.workers, Unfinished);
    WorkLeftConstant(s.workers, Done);
    StartWaveMeasure(c, s.wave + 1, s.completed);
  }

  lemma MoveMeasure(c: Config, s: State, i: nat, pc: WorkerPC, s': State)
    requires !Final(c, s) && i < |s.workers| && StepsLeft(pc) + 1 == StepsLeft(s.workers[i])
    requires s'.wave == s.wave && s'.workers == s.workers[i := pc]
    ensures Measure(c, s') + 1 == Measure(c, s)
  {
    WorkLeftUpdate(s.workers, i, pc);
  }

  lemma StepMeasure(c: Config, s: State, step: Step)
    requires Inv(c, s) && Enabled(c, s, step)
    ensures Measure(c, Apply(c, s, step)) + 1 == Measure(c, s)
  {
    var s' := Apply(c, s, step);
    match step
    case Spawn => MoveMeasure(c, s, s.spawned, Waiting, s');
    case Acquire(i) => MoveMeasure(c, s, i, Running, s');
    case Finish(i, r) => MoveMeasure(c, s, i, Recorded, s');
    case Send(i) => MoveMeasure(c, s, i, Sent, s');
    case Release(i) => MoveMeasure(c, s, i, Released, s');
    case Exit(i) => MoveMeasure(c, s, i, Done, s');
    case NextWave => NextWaveMeasure(c, s);
  }

  /** Every schedule is finite, and all complete schedules have the same length. */
  lemma {:induction false} Terminates(c: Config, steps: seq<Step>)
    requires After(c, steps).Some?
    ensures |steps| + Measure(c, After(c, steps).value) == WavesLeft(c, 0)
  {
    if steps == [] {
      StartWaveMeasure(c, 0, map[]);
    } else {
      var front := steps[..|steps| - 1];
      Terminates(c, front);
      ReachableInv(c, front);
      StepMeasure(c, After(c, front).value, steps[|steps| - 1]);
    }
  }

  function IsStored(completed: map<ID, WorkerResult>): ID -> bool {
    (id: ID) => id in completed
  }

  /** Collects the stored results in dependency order, skipping ids without one. */
  method CollectResults(order: seq<ID>, completed: map<ID, WorkerResult>) returns (results: seq<WorkerResult>)
    ensures var stored := Filtered(order, IsStored(completed));
            && |results| == |stored|
            && forall i :: 0 <= i < |stored| ==> stored[i] in completed && results[i] == completed[stored[i]]
    ensures (forall id :: id in order ==> id in completed) ==>
              |results| == |order| && forall i :: 0 <= i < |order| ==> results[i] == completed[order[i]]
  {
    results := [];
    for n := 0 to |order|
      invariant var stored := Filtered(order[..n], IsStored(completed));
                && |results| == |stored|
                && forall i :: 0 <= i < |stored| ==> stored[i] in completed && results[i] == completed[stored[i]]
    {
      assert order[..n + 1][..n] == order[..n];
      if order[n] in completed {
        results := results + [completed[order[n]]];
      }
    }
    assert order[..|order|] == order;
    if forall id :: id in order ==> id in completed {
      FilteredAll(order, IsStored(completed));
    }
  }

  /** When the last wave is over, each subtask of the order has exactly one stored result, its own. */
  lemma FinalResults(c: Config, steps: seq<Step>)
    requires ValidConfig(c) && After(c, steps).Some? && Final(c, After(c, steps).value)
    ensures var completed := After(c, steps).value.completed;
            && completed.Keys == Elements(Ids(c.subtasks))
            && forall id :: id in c.order ==> id in completed && completed[id].subtaskID == id
  {
    var s := After(c, steps).value;
    ReachableInv(c, steps);
    forall id ensures id in s.completed <==> id in Ids(c.subtasks) {
      if id in Ids(c.subtasks) {
        var k := WavesPartition(c.subtasks, c.order, c.waves, id);
      }
      if k :| 0 <= k < |c.waves| && id in Ids(c.waves[k]) {
        LayerMembers(c.subtasks, c.order, k);
        assert id in Elements(c.order);
      }
    }
    forall id | id in c.order ensures id in s.completed {
      assert id in Elements(c.order);
    }
  }

  // File ownership

  function AllFiles(subtasks: seq<Subtask>): seq<string> {
    if subtasks == [] then [] else AllFiles(subtasks[..|subtasks| - 1]) + subtasks[|subtasks| - 1].files
  }

  /** Claims the files of one subtask after those in `before`. */
  method ClaimFiles(st: Subtask, owner0: map<string, ID>, ghost before: seq<string>)
      returns (owner: map<string, ID>, ok: bool)
    requires owner0.Keys == Elements(before) && NoDuplicates(before)
    ensures ok <==> NoDuplicates(before + st.files)
    ensures ok ==> owner.Keys == Elements(before + st.files)
  {
    owner := owner0;
    assert before + st.files[..0] == before;
    for j := 0 to |st.files|
      invariant owner.Keys == Elements(before + st.files[..j])
      invariant NoDuplicates(before + st.files[..j])
    {
      var f := st.files[j];
      assert before + st.files[..j + 1] == (before + st.files[..j]) + [f];
      if f in owner {
        RepeatStays(before + st.files[..j], f, st.files[j + 1..]);
        assert (before + st.files[..j]) + [f] + st.files[j + 1..] == before + st.files;
        return owner, false;
      }
      ClaimOne(before + st.files[..j], f);
      owner := owner[f := st.id];
    }
    assert st.files[..|st.files|] == st.files;
    ok := true;
  }

  lemma ClaimOne(seen: seq<string>, f: string)
    requires NoDuplicates(seen) && f !in seen
    ensures NoDuplicates(seen + [f]) && Elements(seen + [f]) == Elements(seen) + {f}
  {
  }

  /** Accepts a plan exactly when no file is assigned twice, be it to one subtask or to two. */
  method ValidateNoFileConflicts(subtasks: seq<Subtask>) returns (ok: bool)
    ensures ok <==> NoDuplicates(AllFiles(subtasks))
  {
    var owner: map<string, ID> := map[];
    for i := 0 to |subtasks|
      invariant owner.Keys == Elements(AllFiles(subtasks[..i]))
      invariant NoDuplicates(AllFiles(subtasks[..i]))
    {
      assert subtasks[..i + 1][..i] == subtasks[..i];
      owner, ok := ClaimFiles(subtasks[i], owner, AllFiles(subtasks[..i]));
      if !ok {
        PrefixOfFiles(subtasks, i + 1);
        return false;
      }
    }
    assert subtasks[..|subtasks|] == subtasks;
    return true;
  }

  lemma RepeatStays(seen: seq<string>, f: string, rest: seq<string>)
    requires f in seen
    ensures !NoDuplicates(seen + [f] + rest)
  {
    var k :| 0 <= k < |seen| && seen[k] == f;
    var all := seen + [f] + rest;
    assert all[k] == f && all[|seen|] == f;
  }

  lemma {:induction false} PrefixOfFiles(subtasks: seq<Subtask>, n: nat)
    requires n <= |subtasks|
    ensures AllFiles(subtasks[..n]) <= AllFiles(subtasks)
    decreases |subtasks|
  {
    if n < |subtasks| {
      var front := subtasks[..|subtasks| - 1];
      PrefixOfFiles(front, n);
      assert front[..n] == subtasks[..n];
    } else {
      assert subtasks[..n] == subtasks;
    }
  }

  lemma {:induction false} FileOffset(subtasks: seq<Subtask>, k: nat, x: nat) returns (at: nat)
    requires k < |subtasks| && x < |subtasks[k].files|
    ensures at < |AllFiles(subtasks)| && AllFiles(subtasks)[at] == subtasks[k].files[x]
    ensures |AllFiles(subtasks[..k])| <= at < |AllFiles(subtasks[..k + 1])|
    decreases |subtasks|
  {
    var front := subtasks[..|subtasks| - 1];
    if k < |front| {
      at := FileOffset(front, k, x);
      assert front[..k] == subtasks[..k] && front[..k + 1] == subtasks[..k + 1];
    } else {
      at := |AllFiles(front)| + x;
      assert subtasks[..k + 1] == subtasks;
    }
  }

  lemma {:induction false} FileOffsetsGrow(subtasks: seq<Subtask>, j: nat, k: nat)
    requires j <= k <= |subtasks|
    ensures |AllFiles(subtasks[..j])| <= |AllFiles(subtasks[..k])|
  {
    PrefixOfFiles(subtasks[..k], j);
    assert subtasks[..k][..j] == subtasks[..j];
  }

  lemma FilesApart(subtasks: seq<Subtask>, a: nat, x: nat, b: nat, y: nat)
    requires a < b < |subtasks| && x < |subtasks[a].files| && y < |subtasks[b].files|
    requires NoDuplicates(AllFiles(subtasks))
    ensures subtasks[a].files[x] != subtasks[b].files[y]
  {
    var p := FileOffset(subtasks, a, x);
    var q := FileOffset(subtasks, b, y);
    FileOffsetsGrow(subtasks, a + 1, b);
  }

  /** On a validated plan, no two subtasks at different places own a common file. */
  lemma DisjointFiles(subtasks: seq<Subtask>, j: nat, k: nat, f: string)
    requires NoDuplicates(AllFiles(subtasks)) && j < |subtasks| && k < |subtasks|
    requires f in subtasks[j].files && f in subtasks[k].files
    ensures j == k
  {
    var x :| 0 <= x < |subtasks[j].files| && subtasks[j].files[x] == f;
    var y :| 0 <= y < |subtasks[k].files| && subtasks[k].files[y] == f;
    if j < k {
      FilesApart(subtasks, j, x, k, y);
    } else if k < j {
      FilesApart(subtasks, k, y, j, x);
    }
  }

  /** So two workers of one wave never touch a common file. */
  lemma WorkersOwnDisjointFiles(c: Config, steps: seq<Step>, i: nat, j: nat, f: string)
    requires ValidConfig(c) && NoDuplicates(AllFiles(c.subtasks)) && After(c, steps).Some?
    requires var s := After(c, steps).value;
             s.wave < |c.waves| && i < |c.waves[s.wave]| && j < |c.waves[s.wave]| && f in c.waves[s.wave][i].files
                 && f in c.waves[s.wave][j].files
    ensures i == j
  {
    var s := After(c, steps).value;
    var wave := c.waves[s.wave];
    assert wave[i] in wave && wave[j] in wave;
    var a :| 0 <= a < |c.subtasks| && c.subtasks[a] == wave[i];
    var b :| 0 <= b < |c.subtasks| && c.subtasks[b] == wave[j];
    DisjointFiles(c.subtasks, a, b, f);
    LayerDistinct(c.subtasks, c.order, s.wave);
    assert Ids(wave)[i] == Ids(wave)[j];
  }
}
