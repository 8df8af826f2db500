/** What every interleaving of the approval protocol guarantees about a request and its decision. */
module ApprovalRuns {
  import opened Common
  import opened ApprovalStatus
  import opened ApprovalTables
  import opened ApprovalProtocol

  predicate IsVerdict(s: Status) {
    s == Approved || s == Rejected || s == Cancelled
  }

  /** Stored statuses and the log of commits tell the same story. */
  ghost predicate RowsMatchLog(t: Tables, log: seq<Commit>) {
    && (forall id :: id in t.requests ==> t.requests[id].id == id)
    && (forall id, st :: Created(id, st) in log ==>
        id in t.requests && (st == AutoApproved <==> t.requests[id].status == AutoApproved))
    && (forall id :: id in t.requests && t.requests[id].status == AutoApproved ==> Created(id, AutoApproved) in log)
    && (forall id, st :: Decided(id, st) in log ==>
          && id in t.requests && IsVerdict(st)
          && (t.requests[id].status == st || (t.requests[id].status == Expired && Lapsed(id, st) in log)))
    && (forall id :: id in t.requests && IsVerdict(t.requests[id].status) ==> Decided(id, t.requests[id].status) in log)
    && (forall id, was :: Lapsed(id, was) in log ==>
        id in t.requests && t.requests[id].status == Expired && was != AutoApproved)
    && (forall id :: id in t.requests && t.requests[id].status == Expired ==> exists was :: Lapsed(id, was) in log)
  }

  /** A request an expiry path or an operator holds in memory was read while pending. */
  predicate IsSnapshot(t: Tables, r: Request) {
    r.status == Pending && r.id in t.requests && t.requests[r.id].status != AutoApproved
  }

  predicate AllSnapshots(t: Tables, queue: seq<Request>) {
    forall i :: 0 <= i < |queue| ==> IsSnapshot(t, queue[i])
  }

  predicate RowIs(t: Tables, id: ID, s: Status) {
    id in t.requests && t.requests[id].status == s
  }

  /** A reported approval is backed by the commit that made it. */
  predicate Backed(log: seq<Commit>, id: ID, s: Status) {
    && (s == Approved ==> Decided(id, Approved) in log)
    && (s == AutoApproved ==> Created(id, AutoApproved) in log)
  }

  predicate IsDenied(t: Tables, id: ID) {
    id in t.requests && IsFinal(t.requests[id].status) && !IsApproved(t.requests[id].status)
  }

  predicate ProcOk(t: Tables, log: seq<Commit>, p: Proc) {
    match p
    case OpWrite(op, r) => IsSnapshot(t, r)
    case OpDecide(op, id) => Decided(id, Target(op)) in log
    case OpDone(op, id, answer) => answer == Ok ==> Decided(id, Target(op)) in log
    case SweepWrite(queue) => AllSnapshots(t, queue)
    case SweepDecide(id, queue) => RowIs(t, id, Expired) && AllSnapshots(t, queue)
    case CheckWrite(r) => IsSnapshot(t, r)
    case CheckDone(id, s) => Backed(log, id, s)
    case GateAutoDecide(id) => RowIs(t, id, AutoApproved)
    case GateExtend(id, _) => id in t.requests && t.requests[id].status != AutoApproved
    case GatePoll(id) => id in t.requests && t.requests[id].status != AutoApproved
    case GateExpire(r) => IsSnapshot(t, r)
    case GateExpireDecide(id) => RowIs(t, id, Expired)
    case GateDone(id, s) => Backed(log, id, s) && (s == Rejected ==> IsDenied(t, id))
    case _ => true
  }

  /** At most one decision row per request, and each row is backed by the status or by the commit it records. */
  ghost predicate DecisionsOk(t: Tables, log: seq<Commit>) {
    && (forall i, j :: 0 <= i < j < |t.decisions| ==> t.decisions[i].requestID != t.decisions[j].requestID)
    && (forall i :: 0 <= i < |t.decisions| ==> DecisionBacked(t, log, t.decisions[i]))
  }

  predicate DecisionBacked(t: Tables, log: seq<Commit>, d: Decision) {
    match d.decision
    case Pending => false
    case AutoApproved => RowIs(t, d.requestID, AutoApproved)
    case Expired => RowIs(t, d.requestID, Expired)
    case _ => Decided(d.requestID, d.decision) in log
  }

  ghost predicate Inv(s: State) {
    && RowsMatchLog(s.tables, s.log)
    && DecisionsOk(s.tables, s.log)
    && forall pid :: pid in s.procs ==> ProcOk(s.tables, s.log, s.procs[pid])
  }

  /** How tables and log may grow: rows stay, a final status is kept or becomes Expired, commits stay. */
  ghost predicate Grows(t: Tables, log: seq<Commit>, t': Tables, log': seq<Commit>) {
    && (forall id :: id in t.requests ==>
          && id in t'.requests
          && (t'.requests[id].status == t.requests[id].status || t.requests[id].status == Pending
              || t'.requests[id].status == Expired)
          && (t'.requests[id].status == AutoApproved <==> t.requests[id].status == AutoApproved))
    && (forall c :: c in log ==> c in log')
  }

  lemma ProcOkGrows(t: Tables, log: seq<Commit>, t': Tables, log': seq<Commit>, p: Proc)
    requires Grows(t, log, t', log') && ProcOk(t, log, p)
    ensures ProcOk(t', log', p)
  {
  }

  lemma DecisionsGrow(t: Tables, log: seq<Commit>, t': Tables, log': seq<Commit>)
    requires Grows(t, log, t', log') && DecisionsOk(t, log) && t'.decisions == t.decisions
    ensures DecisionsOk(t', log')
  {
  }

  // The kinds of statement

  lemma AfterCreate(t: Tables, log: seq<Commit>, r: Request)
    requires RowsMatchLog(t, log) && r.id !in t.requests && (r.status == Pending || r.status == AutoApproved)
    ensures RowsMatchLog(Create(t, r), log + [Created(r.id, r.status)])
    ensures Grows(t, log, Create(t, r), log + [Created(r.id, r.status)])
  {
  }

  lemma AfterGuardedUpdate(t: Tables, log: seq<Commit>, r: Request, st: Status)
    requires RowsMatchLog(t, log) && IsRowPending(t, r.id) && IsVerdict(st)
    ensures var t' := UpdateIf(t, r.(status := st), Pending);
            RowsMatchLog(t', log + [Decided(r.id, st)]) && Grows(t, log, t', log + [Decided(r.id, st)])
  {
    var t' := UpdateIf(t, r.(status := st), Pending);
    assert t'.requests[r.id].status == st;
    assert forall id :: id in t.requests && id != r.id ==> t'.requests[id] == t.requests[id];
  }

  lemma AfterLapse(t: Tables, log: seq<Commit>, r: Request)
    requires RowsMatchLog(t, log) && IsSnapshot(t, r)
    ensures var t' := Update(t, r.(status := Expired));
            var log' := log + [Lapsed(r.id, t.requests[r.id].status)];
            RowsMatchLog(t', log') && Grows(t, log, t', log') && RowIs(t', r.id, Expired)
  {
    var t' := Update(t, r.(status := Expired));
    var log' := log + [Lapsed(r.id, t.requests[r.id].status)];
    assert forall id :: id in t.requests && id != r.id ==> t'.requests[id] == t.requests[id];
    assert Lapsed(r.id, t.requests[r.id].status) in log';
  }

  lemma AfterExtend(t: Tables, log: seq<Commit>, id: ID, at: int)
    requires RowsMatchLog(t, log)
    ensures RowsMatchLog(Extend(t, id, at), log) && Grows(t, log, Extend(t, id, at), log)
  {
    var t' := Extend(t, id, at);
    assert forall i :: i in t.requests ==>
        t'.requests[i].status == t.requests[i].status && t'.requests[i].id == t.requests[i].id;
  }

  lemma AfterDecide(t: Tables, log: seq<Commit>, d: Decision)
    requires DecisionsOk(t, log) && DecisionBacked(t, log, d)
    ensures DecisionsOk(Decide(t, d), log)
  {
  }

  /** Each statement keeps tables and log in step, and leaves its process consistent. */
  ghost predicate EffectOk(t: Tables, log: seq<Commit>, e: Effect) {
    var log' := log + e.commits;
    RowsMatchLog(e.tables, log') && DecisionsOk(e.tables, log') && Grows(t, log, e.tables, log')
        && ProcOk(e.tables, log', e.next)
  }

  lemma NoChange(t: Tables, log: seq<Commit>, next: Proc)
    requires RowsMatchLog(t, log) && DecisionsOk(t, log) && ProcOk(t, log, next)
    ensures EffectOk(t, log, Effect(t, next, []))
  {
    assert log + [] == log;
  }

  lemma DecisionInserted(t: Tables, log: seq<Commit>, d: Decision, next: Proc)
    requires RowsMatchLog(t, log) && DecisionsOk(t, log) && DecisionBacked(t, log, d) && ProcOk(t, log, next)
    ensures EffectOk(t, log, Effect(Decide(t, d), next, []))
  {
    assert log + [] == log;
    AfterDecide(t, log, d);
  }

  lemma LapseOk(t: Tables, log: seq<Commit>, r: Request, next: Proc)
    requires RowsMatchLog(t, log) && DecisionsOk(t, log) && IsSnapshot(t, r)
    requires ProcOk(Update(t, r.(status := Expired)), log + [Lapsed(r.id, t.requests[r.id].status)], next)
    ensures EffectOk(t, log, Lapse(t, r, next))
  {
    AfterLapse(t, log, r);
    DecisionsGrow(t, log, Update(t, r.(status := Expired)), log + [Lapsed(r.id, t.requests[r.id].status)]);
  }

  lemma OperatorStepOk(t: Tables, log: seq<Commit>, now: int, p: Proc)
    requires RowsMatchLog(t, log) && DecisionsOk(t, log) && ProcOk(t, log, p)
        && (p.OpRead? || p.OpWrite? || p.OpDecide?)
    ensures EffectOk(t, log, OperatorStep(t, now, p))
  {
    var e := OperatorStep(t, now, p);
    match p
    case OpRead(op, id) =>
      NoChange(t, log, e.next);
    case OpWrite(op, r) =>
      if IsRowPending(t, r.id) {
        AfterGuardedUpdate(t, log, r, Target(op));
        DecisionsGrow(t, log, e.tables, log + e.commits);
      } else {
        NoChange(t, log, e.next);
      }
    case OpDecide(op, id) =>
      DecisionInserted(t, log, Decision(id, Target(op)), e.next);
  }

  lemma SweepStepOk(t: Tables, log: seq<Commit>, p: Proc)
    requires RowsMatchLog(t, log) && DecisionsOk(t, log) && ProcOk(t, log, p) && (p.SweepWrite? || p.SweepDecide?)
    ensures EffectOk(t, log, SweepStep(t, p))
  {
    match p
    case SweepWrite(queue) =>
      if queue == [] {
        NoChange(t, log, Stopped);
      } else {
        var r := queue[0];
        assert IsSnapshot(t, r);
        AfterLapse(t, log, r);
        ProcOkGrows(t, log, Update(t, r.(status := Expired)), log + [Lapsed(r.id, t.requests[r.id].status)],
            SweepWrite(queue[1..]));
        LapseOk(t, log, r, SweepDecide(r.id, queue[1..]));
      }
    case SweepDecide(id, queue) =>
      DecisionInserted(t, log, Decision(id, Expired), SweepWrite(queue));
  }

  lemma CheckStepOk(t: Tables, log: seq<Commit>, now: int, p: Proc)
    requires RowsMatchLog(t, log) && DecisionsOk(t, log) && ProcOk(t, log, p) && (p.CheckRead? || p.CheckWrite?)
    ensures EffectOk(t, log, CheckStep(t, now, p))
  {
    match p
    case CheckRead(id) =>
      NoChange(t, log, CheckStep(t, now, p).next);
    case CheckWrite(r) =>
      LapseOk(t, log, r, CheckDone(r.id, Expired));
  }

  lemma GateCreateOk(t: Tables, log: seq<Commit>, now: int, p: Proc)
    requires RowsMatchLog(t, log) && DecisionsOk(t, log) && p.GateCreate?
    ensures EffectOk(t, log, GateStep(t, now, p))
  {
    if p.id in t.requests {
      NoChange(t, log, Stopped);
    } else {
      var e := GateStep(t, now, p);
      AfterCreate(t, log, Request(p.id, if p.auto then AutoApproved else Pending, None, p.expiresAt));
      DecisionsGrow(t, log, e.tables, log + e.commits);
    }
  }

  lemma GateStepOk(t: Tables, log: seq<Commit>, now: int, p: Proc)
    requires RowsMatchLog(t, log) && DecisionsOk(t, log) && ProcOk(t, log, p)
    requires p.GateCreate? || p.GateAutoDecide? || p.GateExtend? || p.GatePoll? || p.GateExpire? || p.GateExpireDecide?
    ensures EffectOk(t, log, GateStep(t, now, p))
  {
    var e := GateStep(t, now, p);
    match p
    case GateCreate(_, _, _, _) =>
      GateCreateOk(t, log, now, p);
    case GateAutoDecide(id) =>
      DecisionInserted(t, log, Decision(id, AutoApproved), e.next);
    case GateExtend(id, extendTo) =>
      AfterExtend(t, log, id, extendTo);
      assert log + [] == log;
      DecisionsGrow(t, log, e.tables, log);
    case GatePoll(id) =>
      NoChange(t, log, e.next);
    case GateExpire(r) =>
      AfterLapse(t, log, r);
      LapseOk(t, log, r, GateExpireDecide(r.id));
    case GateExpireDecide(id) =>
      DecisionInserted(t, log, Decision(id, Expired), e.next);
  }

  lemma ProcStepOk(t: Tables, log: seq<Commit>, now: int, p: Proc)
    requires RowsMatchLog(t, log) && DecisionsOk(t, log) && ProcOk(t, log, p)
    ensures EffectOk(t, log, ProcStep(t, now, p))
  {
    if p.OpRead? || p.OpWrite? || p.OpDecide? {
      OperatorStepOk(t, log, now, p);
    } else if p.SweepWrite? || p.SweepDecide? {
      SweepStepOk(t, log, p);
    } else if p.CheckRead? || p.CheckWrite? {
      CheckStepOk(t, log, now, p);
    } else if p.GateCreate? || p.GateAutoDecide? || p.GateExtend? || p.GatePoll? || p.GateExpire?
        || p.GateExpireDecide? {
      GateStepOk(t, log, now, p);
    } else {
      NoChange(t, log, p);
    }
  }

  lemma NextInv(s: State, l: Label)
    requires Inv(s)
    ensures Inv(Next(s, l))
    ensures Grows(s.tables, s.log, Next(s, l).tables, Next(s, l).log)
  {
    if l.Act? && l.pid in s.procs {
      var e := ProcStep(s.tables, s.now, s.procs[l.pid]);
      ProcStepOk(s.tables, s.log, s.now, s.procs[l.pid]);
      forall pid | pid in s.procs ensures ProcOk(e.tables, s.log + e.commits, s.procs[pid]) {
        ProcOkGrows(s.tables, s.log, e.tables, s.log + e.commits, s.procs[pid]);
      }
    }
  }

  lemma {:induction false} RunInv(s: State, labels: seq<Label>)
    requires Inv(s)
    ensures Inv(Run(s, labels))
    ensures Grows(s.tables, s.log, Run(s, labels).tables, Run(s, labels).log)
  {
    if labels != [] {
      var front := labels[..|labels| - 1];
      RunInv(s, front);
      NextInv(Run(s, front), labels[|labels| - 1]);
    }
  }

  lemma InitInv()
    ensures Inv(INIT)
  {
  }

  /** The stored status of a request, seen at two moments of one run. */
  lemma FinalStatusIsKeptOrExpires(before: seq<Label>, after: seq<Label>, id: ID)
    requires id in Run(INIT, before).tables.requests && IsFinal(Run(INIT, before).tables.requests[id].status)
    ensures var was := Run(INIT, before).tables.requests[id].status;
            var rows := Run(INIT, before + after).tables.requests;
            && id in rows
            && (rows[id].status == was || rows[id].status == Expired)
            && (was == AutoApproved ==> rows[id].status == AutoApproved)
            && (IsApproved(rows[id].status) ==> rows[id].status == was)
  {
    InitInv();
    RunInv(INIT, before);
    RunConcat(INIT, before, after);
    RunInv(Run(INIT, before), after);
  }

  /**
   * An agent that is told Approved is told so because a guarded Approve committed on its request; AutoApproved,
   * because the request was created so.
   */
  lemma ReportedApprovalIsReal(labels: seq<Label>, pid: PID, id: ID) returns (i: nat, operator: PID)
    requires var s := Run(INIT, labels); pid in s.procs
    ensures var s := Run(INIT, labels);
            && (s.procs[pid] == GateDone(id, Approved) ==>
                  Decided(id, Approved) in s.log && Commits(labels, i, operator, Approve, id))
            && (s.procs[pid] == GateDone(id, AutoApproved) ==> Created(id, AutoApproved) in s.log)
  {
    InitInv();
    RunInv(INIT, labels);
    assert ProcOk(Run(INIT, labels).tables, Run(INIT, labels).log, Run(INIT, labels).procs[pid]);
    i, operator := 0, 0;
    if Decided(id, Approved) in Run(INIT, labels).log {
      i, operator := VerdictHasOperator(labels, id, Approved);
    }
  }

  /** Step `i` of the run is the guarded update of an operator that performs `op` on the request, still pending. */
  predicate Commits(labels: seq<Label>, i: nat, operator: PID, op: Operation, id: ID) {
    && i < |labels| && labels[i] == Act(operator)
    && var s := Run(INIT, labels[..i]);
       && operator in s.procs && s.procs[operator].OpWrite?
       && s.procs[operator].op == op && s.procs[operator].request.id == id
       && IsRowPending(s.tables, id)
  }

  /** A verdict is committed only by the guarded update of the operation it belongs to. */
  lemma DecidedByOperator(t: Tables, now: int, p: Proc, c: Commit)
    requires c in ProcStep(t, now, p).commits && c.Decided?
    ensures p.OpWrite? && p.request.id == c.id && IsRowPending(t, c.id)
    ensures c.status == match p.op { case Approve => Approved case Reject => Rejected case Cancel => Cancelled }
  {
  }

  /** Every verdict of a run goes back to such a step. */
  lemma {:induction false} VerdictHasOperator(labels: seq<Label>, id: ID, st: Status) returns (i: nat, operator: PID)
    requires Decided(id, st) in Run(INIT, labels).log
    ensures st == Approved || st == Rejected || st == Cancelled
    ensures st == Approved ==> Commits(labels, i, operator, Approve, id)
    ensures st == Rejected ==> Commits(labels, i, operator, Reject, id)
    ensures st == Cancelled ==> Commits(labels, i, operator, Cancel, id)
  {
    var n := |labels| - 1;
    var front, l := labels[..n], labels[n];
    var s := Run(INIT, front);
    if Decided(id, st) in s.log {
      i, operator := VerdictHasOperator(front, id, st);
      assert front[..i] == labels[..i];
    } else {
      DecidedByOperator(s.tables, s.now, s.procs[l.pid], Decided(id, st));
      i, operator := n, l.pid;
    }
  }

  /** An operator that was told Ok made the verdict of its own operation. */
  lemma ToldOkMeansDecided(labels: seq<Label>, pid: PID, id: ID)
    requires pid in Run(INIT, labels).procs
    ensures var s := Run(INIT, labels);
            && (s.procs[pid] == OpDone(Approve, id, Ok) ==> Decided(id, Approved) in s.log)
            && (s.procs[pid] == OpDone(Reject, id, Ok) ==> Decided(id, Rejected) in s.log)
            && (s.procs[pid] == OpDone(Cancel, id, Ok) ==> Decided(id, Cancelled) in s.log)
  {
    InitInv();
    RunInv(INIT, labels);
    assert ProcOk(Run(INIT, labels).tables, Run(INIT, labels).log, Run(INIT, labels).procs[pid]);
  }

  /** An agent that is told Rejected was denied for good: its request is not approved then, nor in any continuation. */
  lemma ReportedDenialIsFinal(before: seq<Label>, after: seq<Label>, pid: PID, id: ID)
    requires var s := Run(INIT, before); pid in s.procs && s.procs[pid] == GateDone(id, Rejected)
    ensures IsDenied(Run(INIT, before).tables, id) && IsDenied(Run(INIT, before + after).tables, id)
  {
    InitInv();
    RunInv(INIT, before);
    assert ProcOk(Run(INIT, before).tables, Run(INIT, before).log, Run(INIT, before).procs[pid]);
    RunConcat(INIT, before, after);
    RunInv(Run(INIT, before), after);
  }

  /** The operator's guarded update succeeded: it is about to record its decision, or was told Ok. */
  predicate HasWon(p: Proc, id: ID) {
    (p.OpDecide? && p.id == id) || (p.OpDone? && p.id == id && p.answer == Ok)
  }

  predicate OneWinner(s: State, id: ID) {
    forall a, b :: a in s.procs && b in s.procs && HasWon(s.procs[a], id) && HasWon(s.procs[b], id) ==> a == b
  }

  /** A process starts to win only by a guarded update of a pending row. */
  lemma WinningStep(t: Tables, now: int, p: Proc, id: ID)
    requires HasWon(ProcStep(t, now, p).next, id) && !HasWon(p, id)
    ensures IsRowPending(t, id)
  {
  }

  /** In every run at most one operator wins a request, also among operators of the same kind. */
  lemma {:induction false} OperatorsExclude(labels: seq<Label>, id: ID)
    ensures OneWinner(Run(INIT, labels), id)
  {
    if labels != [] {
      var front, l := labels[..|labels| - 1], labels[|labels| - 1];
      var s := Run(INIT, front);
      OperatorsExclude(front, id);
      InitInv();
      RunInv(INIT, front);
      if l.Act? && l.pid in s.procs {
        var e := ProcStep(s.tables, s.now, s.procs[l.pid]);
        if HasWon(e.next, id) && !HasWon(s.procs[l.pid], id) {
          WinningStep(s.tables, s.now, s.procs[l.pid], id);
          NobodyWonPending(s, id);
        }
      }
    }
  }

  lemma NobodyWonPending(s: State, id: ID)
    requires Inv(s) && IsRowPending(s.tables, id)
    ensures forall pid :: pid in s.procs ==> !HasWon(s.procs[pid], id)
  {
    forall pid | pid in s.procs ensures !HasWon(s.procs[pid], id) {
      assert ProcOk(s.tables, s.log, s.procs[pid]);
    }
  }

  /**
   * An agent whose wait ends is told Expired whatever is stored. The answer hides an approval exactly when an
   * Approve committed and no expiry write has landed on it.
   */
  lemma TimedOutAgentHidesApprovalIff(labels: seq<Label>, pid: PID, id: ID)
    requires var s := Run(INIT, labels); pid in s.procs && s.procs[pid] == GatePoll(id)
    ensures var s := Run(INIT, labels); var s' := Next(s, TimeOut(pid));
            && s'.procs[pid] == GateDone(id, Expired) && s'.tables == s.tables && id in s.tables.requests
            && (IsApproved(s'.tables.requests[id].status)
                <==> Decided(id, Approved) in s.log && Lapsed(id, Approved) !in s.log)
  {
    var s := Run(INIT, labels);
    InitInv();
    RunInv(INIT, labels);
    assert ProcOk(s.tables, s.log, s.procs[pid]);
  }

  /** Only one guarded update ever succeeds on a request. */
  ghost predicate OneDecided(log: seq<Commit>, id: ID) {
    forall i, j :: 0 <= i < j < |log| && log[i].Decided? && log[j].Decided? && log[i].id == id ==> log[j].id != id
  }

  lemma {:induction false} OneVerdict(labels: seq<Label>, id: ID)
    ensures OneDecided(Run(INIT, labels).log, id)
  {
    if labels != [] {
      var front := labels[..|labels| - 1];
      var l := labels[|labels| - 1];
      var s := Run(INIT, front);
      OneVerdict(front, id);
      InitInv();
      RunInv(INIT, front);
      if l.Act? && l.pid in s.procs {
        var p := s.procs[l.pid];
        var e := ProcStep(s.tables, s.now, p);
        if p.OpWrite? && IsRowPending(s.tables, p.request.id) {
          assert forall st :: Decided(p.request.id, st) !in s.log;
        } else {
          NoDecidedCommit(s.tables, s.now, p);
        }
      }
    }
  }

  lemma NoDecidedCommit(t: Tables, now: int, p: Proc)
    requires !(p.OpWrite? && IsRowPending(t, p.request.id))
    ensures var commits := ProcStep(t, now, p).commits; |commits| <= 1 && forall c :: c in commits ==> !c.Decided?
  {
  }

  // Decision rows

  /**
   * At most one decision row exists per request. A row differs from the stored status exactly when an expiry write
   * landed on the status the row records.
   */
  lemma DecisionRowsAgree(labels: seq<Label>, i: nat)
    requires i < |Run(INIT, labels).tables.decisions|
    ensures var s := Run(INIT, labels);
            var d := s.tables.decisions[i];
            && d.requestID in s.tables.requests
            && (forall j :: 0 <= j < |s.tables.decisions| && j != i ==> s.tables.decisions[j].requestID != d.requestID)
            && (s.tables.requests[d.requestID].status == d.decision
                <==> d.decision == Expired || Lapsed(d.requestID, d.decision) !in s.log)
            && (s.tables.requests[d.requestID].status != d.decision ==>
                s.tables.requests[d.requestID].status == Expired)
  {
    var s := Run(INIT, labels);
    InitInv();
    RunInv(INIT, labels);
    var d := s.tables.decisions[i];
    assert DecisionBacked(s.tables, s.log, d);
    forall j | 0 <= j < |s.tables.decisions| && j != i ensures s.tables.decisions[j].requestID != d.requestID {
      assert i < j || j < i;
    }
  }

  /** When no expiry write took part, every decision row equals the stored status. */
  lemma DecisionsAgreeWithoutExpiry(labels: seq<Label>, i: nat)
    requires i < |Run(INIT, labels).tables.decisions|
    requires forall c :: c in Run(INIT, labels).log ==> !c.Lapsed?
    ensures var s := Run(INIT, labels);
            var d := s.tables.decisions[i];
            d.requestID in s.tables.requests && s.tables.requests[d.requestID].status == d.decision
  {
    var s := Run(INIT, labels);
    DecisionRowsAgree(labels, i);
    assert DecisionBacked(s.tables, s.log, s.tables.decisions[i]) by {
      InitInv();
      RunInv(INIT, labels);
    }
    var d := s.tables.decisions[i];
    if d.decision == Expired {
      InitInv();
      RunInv(INIT, labels);
      assert RowIs(s.tables, d.requestID, Expired);
    }
  }
}
