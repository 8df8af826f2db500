/** Operators, agents and expiry sweeps as processes that interleave one table statement at a time. */
module ApprovalProtocol {
  import opened Common
  import opened ApprovalStatus
  import opened ApprovalTables

  type PID = nat

  datatype Operation = Approve | Reject | Cancel

  function Target(op: Operation): Status {
    match op
    case Approve => Approved
    case Reject => Rejected
    case Cancel => Cancelled
  }

  datatype Answer = Ok | NotFound | AlreadyDecided | TooLate | Conflict | DecisionLost

  /** A process, by the statement it runs next and the request it has in memory. */
  datatype Proc =
    // Manager.Approve, Reject and Cancel
    | OpRead(op: Operation, id: ID)
    | OpWrite(op: Operation, request: Request)
    | OpDecide(op: Operation, id: ID)
    | OpDone(op: Operation, id: ID, answer: Answer)
    // Manager.ExpireRequests
    | SweepList
    | SweepWrite(queue: seq<Request>)
    | SweepDecide(id: ID, queue: seq<Request>)
    // Manager.CheckApproval
    | CheckRead(id: ID)
    | CheckWrite(request: Request)
    | CheckDone(id: ID, status: Status)
    // PersistentGate.RequestApproval with Manager.RequestApproval and Manager.WaitForApproval inside
    | GateCreate(id: ID, auto: bool, expiresAt: Option<int>, extendTo: int)
    | GateAutoDecide(id: ID)
    | GateExtend(id: ID, extendTo: int)
    | GatePoll(id: ID)
    | GateExpire(request: Request)
    | GateExpireDecide(id: ID)
    | GateDone(id: ID, status: Status)
    | Stopped

  /** A committed change of a request's status, as an observer of the table would log it. */
  datatype Commit =
    | Created(id: ID, status: Status)
    | Decided(id: ID, status: Status) // by a guarded update
    | Lapsed(id: ID, was: Status) // by an unguarded update to Expired

  datatype State = State(tables: Tables, now: int, procs: map<PID, Proc>, log: seq<Commit>)

  /** What one process does in its next statement. */
  datatype Effect = Effect(tables: Tables, next: Proc, commits: seq<Commit>)

  predicate IsRowPending(t: Tables, id: ID) {
    id in t.requests && t.requests[id].status == Pending
  }

  /** An unguarded write of Expired over whatever is stored. */
  function Lapse(t: Tables, r: Request, next: Proc): Effect {
    if r.id in t.requests then
      Effect(Update(t, r.(status := Expired)), next, [Lapsed(r.id, t.requests[r.id].status)])
    else Effect(t, next, [])
  }

  /** Rows a sweep finds: pending with a deadline in the past, in any order. */
  predicate IsExpiredList(t: Tables, now: int, rows: seq<Request>) {
    forall i :: 0 <= i < |rows| ==>
      && rows[i].id in t.requests && t.requests[rows[i].id] == rows[i]
      && rows[i].status == Pending && IsExpired(rows[i], now)
  }

  function OperatorStep(t: Tables, now: int, p: Proc): Effect
    requires p.OpRead? || p.OpWrite? || p.OpDecide?
  {
    match p
    case OpRead(op, id) =>
      if id !in t.requests then Effect(t, OpDone(op, id, NotFound), [])
      else
        var r := t.requests[id];
        if op != Cancel && IsExpired(r, now) then Effect(t, OpDone(op, id, TooLate), [])
        else if IsFinal(r.status) then Effect(t, OpDone(op, id, AlreadyDecided), [])
        else Effect(t, OpWrite(op, r), [])
    case OpWrite(op, r) =>
      if IsRowPending(t, r.id) then
        Effect(UpdateIf(t, r.(status := Target(op)), Pending), OpDecide(op, r.id), [Decided(r.id, Target(op))])
      else Effect(t, OpDone(op, r.id, Conflict), [])
    case OpDecide(op, id) =>
      Effect(Decide(t, Decision(id, Target(op))), OpDone(op, id, if HasDecision(t, id) then DecisionLost else Ok), [])
  }

  function SweepStep(t: Tables, p: Proc): Effect
    requires p.SweepWrite? || p.SweepDecide?
  {
    match p
    case SweepWrite(queue) =>
      if queue == [] then Effect(t, Stopped, [])
      else
        Lapse(t, queue[0], if queue[0].id in t.requests then SweepDecide(queue[0].id, queue[1..])
            else SweepWrite(queue[1..]))
    case SweepDecide(id, queue) => Effect(Decide(t, Decision(id, Expired)), SweepWrite(queue), [])
  }

  function CheckStep(t: Tables, now: int, p: Proc): Effect
    requires p.CheckRead? || p.CheckWrite?
  {
    match p
    case CheckRead(id) =>
      if id !in t.requests then Effect(t, Stopped, [])
      else
        var r := t.requests[id];
        if IsExpired(r, now) && r.status == Pending then Effect(t, CheckWrite(r), [])
            else Effect(t, CheckDone(id, r.status), [])
    case CheckWrite(r) => Lapse(t, r, CheckDone(r.id, Expired))
  }

  function GateStep(t: Tables, now: int, p: Proc): Effect
    requires p.GateCreate? || p.GateAutoDecide? || p.GateExtend? || p.GatePoll? || p.GateExpire? || p.GateExpireDecide?
  {
    match p
    case GateCreate(id, auto, expiresAt, extendTo) =>
      var status := if auto then AutoApproved else Pending;
      if id in t.requests then Effect(t, Stopped, [])
      else
        Effect(Create(t, Request(id, status, None, expiresAt)), if auto then GateAutoDecide(id)
            else GateExtend(id, extendTo), [Created(id, status)])
    case GateAutoDecide(id) =>
      Effect(Decide(t, Decision(id, AutoApproved)), if HasDecision(t, id) then Stopped
          else GateDone(id, AutoApproved), [])
    case GateExtend(id, extendTo) => Effect(Extend(t, id, extendTo), GatePoll(id), [])
    case GatePoll(id) =>
      if id !in t.requests then Effect(t, Stopped, [])
      else
        var r := t.requests[id];
        if r.status != Pending then Effect(t, GateDone(id, if IsApproved(r.status) then Approved else Rejected), [])
        else if IsExpired(r, now) then Effect(t, GateExpire(r), [])
        else Effect(t, GatePoll(id), [])
    case GateExpire(r) => Lapse(t, r, GateExpireDecide(r.id))
    case GateExpireDecide(id) => Effect(Decide(t, Decision(id, Expired)), GateDone(id, Rejected), [])
  }

  /** The next statement of a process; a sweep's listing is supplied by the scheduler. */
  function ProcStep(t: Tables, now: int, p: Proc): Effect {
    if p.OpRead? || p.OpWrite? || p.OpDecide? then OperatorStep(t, now, p)
    else if p.SweepWrite? || p.SweepDecide? then SweepStep(t, p)
    else if p.CheckRead? || p.CheckWrite? then CheckStep(t, now, p)
    else if p.GateCreate? || p.GateAutoDecide? || p.GateExtend? || p.GatePoll? || p.GateExpire? || p.GateExpireDecide?
        then GateStep(t, now, p)
    else Effect(t, p, [])
  }

  /** Where a process may begin. */
  predicate IsEntry(p: Proc) {
    p.OpRead? || p.SweepList? || p.CheckRead? || p.GateCreate?
  }

  /** One scheduling choice. Choices that do not apply change nothing. */
  datatype Label =
    | Start(pid: PID, proc: Proc)
    | Act(pid: PID)
    | List(pid: PID, rows: seq<Request>)
    | TimeOut(pid: PID) // the waiting agent's own deadline or cancellation
    | Halt(pid: PID) // a process stops where it is
    | Tick(delta: nat)

  function Next(s: State, l: Label): State {
    match l
    case Start(pid, p) => if pid in s.procs || !IsEntry(p) then s else s.(procs := s.procs[pid := p])
    case Act(pid) =>
      if pid !in s.procs then s
      else
        var e := ProcStep(s.tables, s.now, s.procs[pid]);
        State(e.tables, s.now, s.procs[pid := e.next], s.log + e.commits)
    case List(pid, rows) =>
      if pid in s.procs && s.procs[pid].SweepList? && IsExpiredList(s.tables, s.now, rows)
          then s.(procs := s.procs[pid := SweepWrite(rows)]) else s
    case TimeOut(pid) =>
      if pid in s.procs && s.procs[pid].GatePoll? then s.(procs := s.procs[pid := GateDone(s.procs[pid].id, Expired)])
          else s
    case Halt(pid) => if pid in s.procs then s.(procs := s.procs[pid := Stopped]) else s
    case Tick(delta) => s.(now := s.now + delta)
  }

  const INIT := State(Tables(map[], []), 0, map[], [])

  function Run(s: State, labels: seq<Label>): State {
    if labels == [] then s else Next(Run(s, labels[..|labels| - 1]), labels[|labels| - 1])
  }

  lemma {:induction false} RunConcat(s: State, a: seq<Label>, b: seq<Label>)
    ensures Run(s, a + b) == Run(Run(s, a), b)
  {
    if b == [] {
      assert a + b == a;
    } else {
      var front := b[..|b| - 1];
      RunConcat(s, a, front);
      assert (a + b)[..|a + b| - 1] == a + front;
    }
  }
}
