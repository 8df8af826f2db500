/** Splitting the files of a parallel stage among agents. */
module Batches {

  const DEFAULT_AGENTS := 4

  function Min(a: int, b: int): int {
    if a < b then a else b
  }

  datatype Batch = Batch(index: nat, files: seq<string>, directory: string)

  datatype Stage = Stage(parallel: bool, maxAgents: int, byDirectory: bool)

  function NewMaxAgents(maxAgents: int): int {
    if maxAgents <= 0 then DEFAULT_AGENTS else maxAgents
  }

  function Concat(batches: seq<Batch>): seq<string> {
    if batches == [] then [] else Concat(batches[..|batches| - 1]) + batches[|batches| - 1].files
  }

  /** The agents a stage may use: its own limit if positive, else the executor's. */
  function AgentLimit(stage: Stage, maxAgents: int): int {
    if stage.maxAgents <= 0 then maxAgents else stage.maxAgents
  }

  /** Four agents unless the stage or the executor says otherwise. */
  lemma LimitMeaning(stage: Stage, configured: int)
    ensures AgentLimit(stage, NewMaxAgents(configured))
         == if stage.maxAgents > 0 then stage.maxAgents else if configured > 0 then configured else 4
  {
  }

  /** The batches split the files in order, and their sizes differ by at most one, larger ones first. */
  ghost predicate EvenSplit(batches: seq<Batch>, files: seq<string>) {
    && Concat(batches) == files
    && (forall i :: 0 <= i < |batches| ==> batches[i].index == i)
    && (forall i, j :: 0 <= i < j < |batches| ==> |batches[j].files| <= |batches[i].files| <= |batches[j].files| + 1)
  }

  /** Directory batching names a batch after the directory of its first file. */
  function DirectoryOf(stage: Stage, files: seq<string>, dirOf: string -> string): string {
    if stage.byDirectory && |files| > 0 then dirOf(files[0]) else ""
  }

  /** The first `extra` of the sizes have one more file. */
  function BatchSize(i: nat, each: nat, extra: nat): nat {
    if i < extra then each + 1 else each
  }

  predicate IsBatch(stage: Stage, b: Batch, i: nat, each: nat, extra: nat, dirOf: string -> string) {
    b.index == i && |b.files| == BatchSize(i, each, extra) && b.directory == DirectoryOf(stage, b.files, dirOf)
  }

  /** Where batch `i` starts. */
  function Start(i: nat, each: nat, extra: nat): nat {
    if i == 0 then 0 else Start(i - 1, each, extra) + BatchSize(i - 1, each, extra)
  }

  lemma {:induction false} StartClosed(i: nat, each: nat, extra: nat)
    ensures Start(i, each, extra) == i * each + Min(i, extra)
  {
    if i > 0 {
      StartClosed(i - 1, each, extra);
      assert i * each == (i - 1) * each + each;
    }
  }

  lemma {:induction false} StartGrows(i: nat, n: nat, each: nat, extra: nat)
    requires i <= n
    ensures Start(i, each, extra) <= Start(n, each, extra)
  {
    if i < n {
      StartGrows(i, n - 1, each, extra);
    }
  }

  /** Quotient and remainder place the end of the last batch at the end of the files. */
  lemma BatchesEndAtEnd(count: nat, n: nat)
    requires 0 < n <= count
    ensures count / n > 0 && Start(n, count / n, count % n) == count
  {
    StartClosed(n, count / n, count % n);
    assert count == n * (count / n) + count % n;
  }

  method CreateBatches(stage: Stage, maxAgents: int, files: seq<string>, dirOf: string -> string)
      returns (batches: seq<Batch>)
    requires maxAgents > 0
    ensures |batches| == if files == [] then 1 else Min(|files|, AgentLimit(stage, maxAgents))
    ensures EvenSplit(batches, files)
    ensures files != [] ==> forall i :: 0 <= i < |batches| ==> batches[i].files != []
    ensures stage.byDirectory && |batches| > 1 && files != [] ==>
              forall i :: 0 <= i < |batches| ==> batches[i].directory == dirOf(batches[i].files[0])
    ensures !stage.byDirectory || |batches| == 1 ==> forall i :: 0 <= i < |batches| ==> batches[i].directory == ""
  {
    var limit := stage.maxAgents;
    if limit <= 0 {
      limit := maxAgents;
    }
    var n := Min(|files|, limit);
    if n <= 1 {
      OneBatch(files);
      return [Batch(0, files, "")];
    }
    var filesPerBatch, extraFiles := Shares(|files|, n);
    batches := FillBatches(stage, files, n, filesPerBatch, extraFiles, dirOf);
    FilledEvenly(stage, files, batches, filesPerBatch, extraFiles, dirOf);
  }

  /** Quotient and remainder. */
  method Shares(count: nat, n: nat) returns (each: nat, extra: nat)
    requires 0 < n <= count
    ensures each > 0 && Start(n, each, extra) == count
  {
    BatchesEndAtEnd(count, n);
    each, extra := count / n, count % n;
  }

  lemma OneBatch(files: seq<string>)
    ensures EvenSplit([Batch(0, files, "")], files)
  {
    ConcatAppend([], Batch(0, files, ""));
    assert [] + [Batch(0, files, "")] == [Batch(0, files, "")];
  }

  lemma FilledEvenly(stage: Stage, files: seq<string>, batches: seq<Batch>, each: nat, extra: nat,
      dirOf: string -> string)
    requires Concat(batches) == files && each > 0
    requires forall j :: 0 <= j < |batches| ==> IsBatch(stage, batches[j], j, each, extra, dirOf)
    ensures EvenSplit(batches, files)
    ensures forall j :: 0 <= j < |batches| ==>
        batches[j].files != [] && batches[j].directory == DirectoryOf(stage, batches[j].files, dirOf)
  {
  }

  method FillBatches(stage: Stage, files: seq<string>, n: nat, each: nat, extra: nat, dirOf: string -> string)
      returns (batches: seq<Batch>)
    requires Start(n, each, extra) == |files|
    ensures |batches| == n && Concat(batches) == files
    ensures forall j :: 0 <= j < n ==> IsBatch(stage, batches[j], j, each, extra, dirOf)
  {
    batches := [];
    var fileIndex := 0;
    for i := 0 to n
      invariant |batches| == i && fileIndex == Start(i, each, extra) <= |files|
      invariant Concat(batches) == files[..fileIndex]
      invariant forall j :: 0 <= j < i ==> IsBatch(stage, batches[j], j, each, extra, dirOf)
    {
      StartGrows(i + 1, n, each, extra);
      var batchSize := each;
      if i < extra {
        batchSize := batchSize + 1;
      }
      var mine := files[fileIndex..fileIndex + batchSize];
      var directory := if stage.byDirectory && |mine| > 0 then dirOf(mine[0]) else "";
      assert directory == DirectoryOf(stage, mine, dirOf);
      ConcatAppend(batches, Batch(i, mine, directory));
      assert files[..fileIndex] + mine == files[..fileIndex + batchSize];
      batches := batches + [Batch(i, mine, directory)];
      fileIndex := fileIndex + batchSize;
    }
    assert files[..fileIndex] == files;
  }

  lemma ConcatAppend(batches: seq<Batch>, b: Batch)
    ensures Concat(batches + [b]) == Concat(batches) + b.files
  {
    assert (batches + [b])[..|batches|] == batches;
  }

  /** Which batches get an agent: none when the stage falls back to one sequential execution. */
  method AssignAgents(stage: Stage, configured: int, files: seq<string>, dirOf: string -> string)
      returns (parallel: bool, work: seq<seq<string>>)
    ensures parallel <==> stage.parallel && |files| > 1 && AgentLimit(stage, NewMaxAgents(configured)) > 1
    ensures parallel ==> |work| == Min(|files|, AgentLimit(stage, NewMaxAgents(configured))) && Flat(work) == files
    ensures parallel ==> forall i :: 0 <= i < |work| ==> work[i] != []
  {
    var maxAgents := NewMaxAgents(configured);
    work := [];
    if !stage.parallel || |files| <= 1 {
      return false, [];
    }
    var batches := CreateBatches(stage, maxAgents, files, dirOf);
    if |batches| == 1 {
      return false, [];
    }
    var numAgents := Min(|batches|, stage.maxAgents);
    if numAgents <= 0 {
      numAgents := Min(|batches|, maxAgents);
    }
    assert numAgents == |batches|;
    work := HandOut(batches, numAgents);
    assert batches[..numAgents] == batches;
    return true, work;
  }

  /** Agent `i` works on batch `i`. */
  method HandOut(batches: seq<Batch>, numAgents: nat) returns (work: seq<seq<string>>)
    requires numAgents <= |batches|
    ensures |work| == numAgents && Flat(work) == Concat(batches[..numAgents])
    ensures forall j :: 0 <= j < numAgents ==> work[j] == batches[j].files
  {
    work := [];
    for i := 0 to numAgents
      invariant |work| == i && Flat(work) == Concat(batches[..i])
      invariant forall j :: 0 <= j < i ==> work[j] == batches[j].files
    {
      assert batches[..i + 1] == batches[..i] + [batches[i]];
      ConcatAppend(batches[..i], batches[i]);
      FlatAppend(work, batches[i].files);
      work := work + [batches[i].files];
    }
  }

  function Flat(work: seq<seq<string>>): seq<string> {
    if work == [] then [] else Flat(work[..|work| - 1]) + work[|work| - 1]
  }

  lemma FlatAppend(work: seq<seq<string>>, files: seq<string>)
    ensures Flat(work + [files]) == Flat(work) + files
  {
    assert (work + [files])[..|work|] == work;
  }

  /** Position `p` of the input is the `o`-th file of agent `a`. */
  predicate WorksOn(work: seq<seq<string>>, a: nat, o: nat, p: nat) {
    a < |work| && o < |work[a]| && |Flat(work[..a])| + o == p
  }

  /** No file is lost, and each position of the input is worked on by one agent. */
  lemma {:induction false} EveryPositionHasOneAgent(work: seq<seq<string>>, p: nat) returns (agent: nat, offset: nat)
    requires p < |Flat(work)|
    ensures WorksOn(work, agent, offset, p)
    ensures work[agent][offset] == Flat(work)[p]
    ensures forall a: nat, o: nat :: WorksOn(work, a, o, p) ==> a == agent && o == offset
  {
    var n := |work| - 1;
    var front := work[..n];
    if p < |Flat(front)| {
      agent, offset := EveryPositionHasOneAgent(front, p);
      assert front[..agent] == work[..agent];
      forall a: nat, o: nat | WorksOn(work, a, o, p) ensures a == agent && o == offset {
        assert a < n by { assert work[..n] == front; }
        assert front[..a] == work[..a];
        assert WorksOn(front, a, o, p);
      }
    } else {
      agent, offset := n, p - |Flat(front)|;
      forall a: nat, o: nat | WorksOn(work, a, o, p) ensures a == agent && o == offset {
        if a < n {
          EndsBefore(work, a, o, n);
        }
      }
    }
  }

  lemma EndsBefore(work: seq<seq<string>>, a: nat, o: nat, n: nat)
    requires a < n <= |work| && o < |work[a]|
    ensures |Flat(work[..a])| + o < |Flat(work[..n])|
  {
    FlatGrows(work, a + 1, n);
    assert work[..a + 1][..a] == work[..a];
  }

  lemma {:induction false} FlatGrows(work: seq<seq<string>>, a: nat, b: nat)
    requires a <= b <= |work|
    ensures |Flat(work[..a])| <= |Flat(work[..b])|
  {
    if a < b {
      FlatGrows(work, a, b - 1);
      assert work[..b][..b - 1] == work[..b - 1];
    }
  }
}
