/** Exactly when a decided request can still change, and a run in which one does. */
module ApprovalStability {
  import opened Common
  import opened ApprovalStatus
  import opened ApprovalTables
  import opened ApprovalProtocol
  import opened ApprovalRuns

  predicate Queued(queue: seq<Request>, id: ID) {
    exists i :: 0 <= i < |queue| && queue[i].id == id
  }

  /** The process has read the request as pending and past its deadline, and its expiry write is still to come. */
  predicate WillExpire(p: Proc, id: ID) {
    match p
    case SweepWrite(queue) => Queued(queue, id)
    case SweepDecide(_, queue) => Queued(queue, id)
    case CheckWrite(r) => r.id == id
    case GateExpire(r) => r.id == id
    case _ => false
  }

  predicate HasStaleWriter(s: State, id: ID) {
    exists pid :: pid in s.procs && WillExpire(s.procs[pid], id)
  }

  predicate RowFinal(s: State, id: ID) {
    id in s.tables.requests && IsFinal(s.tables.requests[id].status)
  }

  lemma NoNewStaleWriter(t: Tables, now: int, p: Proc, id: ID)
    requires id in t.requests && IsFinal(t.requests[id].status) && !WillExpire(p, id)
    requires forall k :: k in t.requests ==> t.requests[k].id == k
    ensures var e := ProcStep(t, now, p);
            !WillExpire(e.next, id) && id in e.tables.requests && e.tables.requests[id].status == t.requests[id].status
  {
    if p.SweepWrite? && p.queue != [] {
      assert p.queue[0].id != id;
      assert forall i :: 0 <= i < |p.queue| - 1 ==> p.queue[1..][i] == p.queue[i + 1];
    }
  }

  lemma StableStep(s: State, l: Label, id: ID)
    requires RowFinal(s, id) && !HasStaleWriter(s, id)
    requires forall k :: k in s.tables.requests ==> s.tables.requests[k].id == k
    ensures var s' := Next(s, l);
            !HasStaleWriter(s', id) && id in s'.tables.requests
                && s'.tables.requests[id].status == s.tables.requests[id].status
  {
    if l.Act? && l.pid in s.procs {
      NoNewStaleWriter(s.tables, s.now, s.procs[l.pid], id);
    } else if l.Start? && IsEntry(l.proc) {
      assert !WillExpire(l.proc, id);
    }
  }

  /** A final status no stale writer holds is permanent. */
  lemma {:induction false} StableForever(s: State, labels: seq<Label>, id: ID)
    requires Inv(s) && RowFinal(s, id) && !HasStaleWriter(s, id)
    ensures var s' := Run(s, labels);
            !HasStaleWriter(s', id) && id in s'.tables.requests
                && s'.tables.requests[id].status == s.tables.requests[id].status
  {
    if labels != [] {
      var front := labels[..|labels| - 1];
      StableForever(s, front, id);
      RunInv(s, front);
      StableStep(Run(s, front), labels[|labels| - 1], id);
    }
  }

  lemma RunOne(s: State, l: Label)
    ensures Run(s, [l]) == Next(s, l)
  {
    assert [l][..0] == [];
    assert Run(s, []) == s;
  }

  lemma RunMore(s: State, l: Label, rest: seq<Label>)
    ensures Run(s, [l] + rest) == Run(Next(s, l), rest)
  {
    RunOne(s, l);
    RunConcat(s, [l], rest);
  }

  /** Let the process that holds the write run on, and the request ends up Expired. */
  lemma {:induction false} StaleWriterWins(s: State, pid: PID, id: ID) returns (labels: seq<Label>)
    requires Inv(s) && pid in s.procs && WillExpire(s.procs[pid], id)
    ensures RowIs(Run(s, labels).tables, id, Expired)
    decreases match s.procs[pid] case SweepWrite(q) => 2 * |q| case SweepDecide(_, q) => 2 * |q| + 1 case _ => 0
  {
    var p := s.procs[pid];
    var s' := Next(s, Act(pid));
    assert ProcOk(s.tables, s.log, p);
    NextInv(s, Act(pid));
    RunOne(s, Act(pid));
    labels := [Act(pid)];
    if p.SweepDecide? || (p.SweepWrite? && p.queue[0].id != id) {
      if p.SweepWrite? {
        assert IsSnapshot(s.tables, p.queue[0]);
        var i :| 0 <= i < |p.queue| && p.queue[i].id == id;
        assert p.queue[1..][i - 1] == p.queue[i];
      }
      var rest := StaleWriterWins(s', pid, id);
      RunMore(s, Act(pid), rest);
      labels := [Act(pid)] + rest;
    } else if p.SweepWrite? {
      assert IsSnapshot(s.tables, p.queue[0]);
    }
  }

  /**
   * In any reachable state, a final status is permanent if and only if it is Expired or no process holds a stale
   * expiry write for it.
   */
  lemma FinalStatusPermanentIff(before: seq<Label>, id: ID)
    requires RowFinal(Run(INIT, before), id)
    ensures var s := Run(INIT, before);
            (forall after :: RowIs(Run(s, after).tables, id, s.tables.requests[id].status))
              <==> (s.tables.requests[id].status == Expired || !HasStaleWriter(s, id))
  {
    var s := Run(INIT, before);
    var was := s.tables.requests[id].status;
    InitInv();
    RunInv(INIT, before);
    if was == Expired {
      forall after ensures RowIs(Run(s, after).tables, id, was) { RunInv(s, after); }
    } else if !HasStaleWriter(s, id) {
      forall after ensures RowIs(Run(s, after).tables, id, was) { StableForever(s, after, id); }
    } else {
      var pid :| pid in s.procs && WillExpire(s.procs[pid], id);
      var after := StaleWriterWins(s, pid, id);
      assert !RowIs(Run(s, after).tables, id, was);
    }
  }

  /** An agent that waits for a request still open to approval can always be told Expired while the approval stands. */
  lemma TimeoutCanHideApproval(before: seq<Label>, agent: PID, operator: PID, id: ID) returns (after: seq<Label>)
    requires var s := Run(INIT, before);
             && agent in s.procs && s.procs[agent] == GatePoll(id) && operator !in s.procs
             && IsRowPending(s.tables, id) && !IsExpired(s.tables.requests[id], s.now)
    ensures var s := Run(Run(INIT, before), after);
            RowIs(s.tables, id, Approved) && agent in s.procs && s.procs[agent] == GateDone(id, Expired)
  {
    var s := Run(INIT, before);
    InitInv();
    RunInv(INIT, before);
    assert s.tables.requests[id].id == id;
    var approve := [Start(operator, OpRead(Approve, id)), Act(operator), Act(operator)];
    ApproveCommits(s, operator, id);
    RunOne(Run(s, approve), TimeOut(agent));
    RunConcat(s, approve, [TimeOut(agent)]);
    after := approve + [TimeOut(agent)];
  }

  lemma ApproveCommits(s: State, operator: PID, id: ID)
    requires operator !in s.procs && IsRowPending(s.tables, id) && !IsExpired(s.tables.requests[id], s.now)
    requires s.tables.requests[id].id == id
    ensures var s' := Run(s, [Start(operator, OpRead(Approve, id)), Act(operator), Act(operator)]);
            RowIs(s'.tables, id, Approved) && forall pid :: pid in s.procs ==>
                pid in s'.procs && s'.procs[pid] == s.procs[pid]
  {
    var read := Next(Next(s, Start(operator, OpRead(Approve, id))), Act(operator));
    RunThree(s, Start(operator, OpRead(Approve, id)), Act(operator), Act(operator));
    assert read.procs[operator] == OpWrite(Approve, s.tables.requests[id]) && read.tables == s.tables;
  }

  // A run in which it does change: a sweep lists request 1 before an approval of it commits

  const ROW := Request(1, Pending, None, Some(5))
  const GATE := GateExtend(1, 5)
  const WAITING := State(Tables(map[1 := ROW], []), 0, map[0 := GATE], [Created(1, Pending)])
  const READ := State(Tables(map[1 := ROW], []), 6, map[0 := GATE, 1 := OpWrite(Approve, ROW)], [Created(1, Pending)])
  const DECIDED := State(Tables(map[1 := ROW.(status := Approved)], []), 6,
                         map[0 := GATE, 1 := OpDecide(Approve, 1), 2 := SweepWrite([ROW])],
                         [Created(1, Pending), Decided(1, Approved)])

  const CREATE := [Start(0, GateCreate(1, false, Some(5), 5)), Act(0)]
  const OPERATOR := [Start(1, OpRead(Approve, 1)), Act(1), Tick(6)]
  const RACE := [Start(2, SweepList), List(2, [ROW]), Act(1)]
  const FINISH := [Act(1), Act(2)]

  lemma RunTwo(s: State, a: Label, b: Label)
    ensures Run(s, [a, b]) == Next(Next(s, a), b)
  {
    assert [a, b] == [a] + [b];
    RunMore(s, a, [b]);
    RunOne(Next(s, a), b);
  }

  lemma RunThree(s: State, a: Label, b: Label, c: Label)
    ensures Run(s, [a, b, c]) == Next(Next(Next(s, a), b), c)
  {
    assert [a, b, c] == [a] + [b, c];
    RunMore(s, a, [b, c]);
    RunTwo(Next(s, a), b, c);
  }

  lemma RequestCreated()
    ensures Run(INIT, CREATE) == WAITING
  {
    RunTwo(INIT, CREATE[0], CREATE[1]);
  }

  lemma RequestRead()
    ensures Run(WAITING, OPERATOR) == READ
  {
    RunThree(WAITING, OPERATOR[0], OPERATOR[1], OPERATOR[2]);
  }

  lemma SweepListsFirst()
    ensures Run(READ, RACE) == DECIDED
  {
    RunThree(READ, RACE[0], RACE[1], RACE[2]);
    var listed := Next(Next(READ, RACE[0]), RACE[1]);
    assert listed.procs == map[0 := GATE, 1 := OpWrite(Approve, ROW), 2 := SweepWrite([ROW])];
    assert listed.log + [Decided(1, Approved)] == [Created(1, Pending), Decided(1, Approved)];
  }

  /**
   * An approval that committed, and whose operator was told Ok, is overwritten; its decision row still says Approved.
   */
  lemma ApprovalCanBeOverwritten() returns (before: seq<Label>, after: seq<Label>)
    ensures RowIs(Run(INIT, before).tables, 1, Approved)
    ensures RowIs(Run(INIT, before + after).tables, 1, Expired)
    ensures var s := Run(INIT, before + after);
            s.tables.decisions == [Decision(1, Approved)] && 1 in s.procs && s.procs[1] == OpDone(Approve, 1, Ok)
  {
    RequestCreated();
    RequestRead();
    SweepListsFirst();
    RunConcat(INIT, CREATE, OPERATOR);
    RunConcat(INIT, CREATE + OPERATOR, RACE);
    before := CREATE + OPERATOR + RACE;
    after := FINISH;
    RunConcat(INIT, before, after);
    RunTwo(DECIDED, FINISH[0], FINISH[1]);
  }
}
