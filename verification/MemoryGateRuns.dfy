/** Waiters, operators and timeouts racing on the in-memory gate. */
module MemoryGateRuns {
  import opened Common
  import opened ApprovalStatus
  import opened MemoryGate

  datatype ReturnError = Nil | WasRejected | WasTimedOut | WasCancelled

  /** The waiter left through its timeout or its caller's context. */
  predicate LeftEarly(err: ReturnError) {
    err == WasTimedOut || err == WasCancelled
  }

  /** A goroutine inside RequestApproval, by what it does next. */
  datatype Waiter =
    | Checked // decided not to auto-approve, about to take the lock
    | Waiting // in the select
    | Woken // its channel was closed; about to read the resolved map
    | Returned(status: Status, err: ReturnError)

  datatype State = State(config: Config, gate: Gate, waiters: map<ID, Waiter>, intents: map<ID, GateRequest>,
      approves: set<ID>, clears: nat)

  /** One scheduling choice; choices that do not apply change nothing. */
  datatype Label =
    | Call(id: ID, runID: string, lowRisk: bool) // with a fresh id
    | Enter(id: ID)
    | DoApprove(id: ID, who: string)
    | DoReject(id: ID, who: string, reason: string)
    | DoCancelForRun(runID: string)
    | DoClear
    | Wake(id: ID)
    | Read(id: ID)
    | TimeOut(id: ID, cancelled: bool)
    | Configure(config: Config)

  function NewRequest(runID: string, lowRisk: bool): GateRequest {
    GateRequest(runID, lowRisk, Pending, "", "")
  }

  function Answer(status: Status): ReturnError {
    if status == Rejected then WasRejected else Nil
  }

  predicate WaiterAt(s: State, id: ID, w: Waiter) {
    id in s.waiters && s.waiters[id] == w
  }

  function Next(s: State, l: Label): State {
    if !Consistent(s.gate) then s else
    match l
    case Call(id, runID, lowRisk) =>
      if id in s.waiters then s
      else if ShouldAutoApprove(s.config, lowRisk) then s.(waiters := s.waiters[id := Returned(AutoApproved, Nil)])
      else s.(waiters := s.waiters[id := Checked], intents := s.intents[id := NewRequest(runID, lowRisk)])
    case Enter(id) =>
      if WaiterAt(s, id, Checked) && id in s.intents then
        s.(gate := Submit(s.gate, id, s.intents[id]), waiters := s.waiters[id := Waiting])
      else s
    case DoApprove(id, who) =>
      if id in s.gate.pending then
        s.(gate := Settle(s.gate, id, Approved, who, s.gate.requests[id].rejectReason, true),
            approves := s.approves + {id})
      else s
    case DoReject(id, who, reason) =>
      if id in s.gate.pending then s.(gate := Settle(s.gate, id, Rejected, who, reason, true)) else s
    case DoCancelForRun(runID) => s.(gate := CancelAll(s.gate, OfRun(s.gate, runID)))
    case DoClear => s.(gate := ClearAll(s.gate), clears := s.clears + 1)
    case Wake(id) =>
      if WaiterAt(s, id, Waiting) && Closes(s.gate, id) >= 1 then s.(waiters := s.waiters[id := Woken]) else s
    case Read(id) =>
      if WaiterAt(s, id, Woken) && id in s.gate.requests then
        var status := s.gate.requests[id].status;
        s.(waiters := s.waiters[id := Returned(status, Answer(status))])
      else s
    case TimeOut(id, cancelled) =>
      if WaiterAt(s, id, Waiting) && id in s.gate.requests then
        var gate := if id in s.gate.pending
            then Settle(s.gate, id, Expired, "timeout", s.gate.requests[id].rejectReason, false) else s.gate;
        s.(gate := gate, waiters := s.waiters[id := Returned(gate.requests[id].status, if cancelled then WasCancelled
            else WasTimedOut)])
      else s
    case Configure(c) => s.(config := c)
  }

  function Init(c: Config): State {
    State(c, Gate(map[], {}, {}, map[]), map[], map[], {}, 0)
  }

  function Run(s: State, labels: seq<Label>): State {
    if labels == [] then s else Next(Run(s, labels[..|labels| - 1]), labels[|labels| - 1])
  }

  /** A submitted request, with respect to its waiter. */
  predicate RequestOk(s: State, id: ID)
    requires Consistent(s.gate) && id in s.gate.requests
  {
    var status := s.gate.requests[id].status;
    var closes := s.gate.closes[id];
    && id in s.waiters && !s.waiters[id].Checked?
    && closes <= 1
    && status != AutoApproved
    && (id in s.gate.pending ==> status == Pending && closes == 0 && s.waiters[id].Waiting?)
    && (id in s.gate.resolved ==> status != Pending)
    && (id !in s.gate.pending && status == Pending ==> s.clears > 0)
    && (status == Approved ==> id in s.approves)
    && (s.waiters[id].Waiting? && id !in s.gate.pending ==> closes == 1)
    && (closes == 1 ==> status != Expired && id !in s.gate.pending)
    && (s.waiters[id].Woken? ==> closes == 1)
    && (s.waiters[id].Returned? ==> s.waiters[id].status == status && id !in s.gate.pending)
    && (s.waiters[id].Returned? && !LeftEarly(s.waiters[id].err) ==>
        status != Expired && s.waiters[id].err == Answer(status))
  }

  predicate Inv(s: State) {
    && Consistent(s.gate)
    && (forall id :: id in s.gate.pending ==> id !in s.gate.resolved)
    && (forall id :: id in s.gate.requests ==> RequestOk(s, id))
    && (forall id :: id in s.waiters && !s.waiters[id].Checked? && id !in s.gate.requests ==>
        s.waiters[id] == Returned(AutoApproved, Nil))
    && (forall id :: id in s.waiters && s.waiters[id].Checked? ==> id !in s.gate.requests)
  }

  /** What a step may do to a request already submitted. */
  predicate Kept(s: State, s': State, id: ID)
    requires Consistent(s.gate) && id in s.gate.requests
  {
    && id in s'.gate.requests
    && (s.gate.requests[id].status == Pending || s'.gate.requests[id].status == s.gate.requests[id].status)
    && (id !in s.gate.pending ==> id !in s'.gate.pending && s'.gate.requests[id].status == s.gate.requests[id].status)
    && s.gate.closes[id] <= Closes(s'.gate, id)
  }

  /** The step keeps the invariant and every submitted request. */
  predicate Fine(s: State, s': State)
    requires Consistent(s.gate)
  {
    Inv(s') && forall id :: id in s.gate.requests ==> Kept(s, s', id)
  }

  lemma SettleFine(s: State, id: ID, status: Status, who: string, reason: string)
    requires Inv(s) && id in s.gate.pending && (status == Approved || status == Rejected)
    ensures var gate := Settle(s.gate, id, status, who, reason, true);
            Fine(s, s.(gate := gate, approves := if status == Approved then s.approves + {id} else s.approves))
  {
    var gate := Settle(s.gate, id, status, who, reason, true);
    var s' := s.(gate := gate, approves := if status == Approved then s.approves + {id} else s.approves);
    forall k | k in gate.requests ensures RequestOk(s', k) {
      assert RequestOk(s, k);
    }
  }

  lemma CancelFine(s: State, runID: string)
    requires Inv(s)
    ensures Fine(s, Next(s, DoCancelForRun(runID)))
  {
    var s' := Next(s, DoCancelForRun(runID));
    forall k | k in s'.gate.requests ensures RequestOk(s', k) {
      assert RequestOk(s, k);
    }
  }

  lemma ClearFine(s: State)
    requires Inv(s)
    ensures Fine(s, Next(s, DoClear))
  {
    var s' := Next(s, DoClear);
    forall k | k in s'.gate.requests ensures RequestOk(s', k) {
      assert RequestOk(s, k);
    }
  }

  lemma EnterFine(s: State, id: ID)
    requires Inv(s)
    ensures Fine(s, Next(s, Enter(id)))
  {
    var s' := Next(s, Enter(id));
    forall k | k in s'.gate.requests ensures RequestOk(s', k) {
      assert k in s.gate.requests ==> RequestOk(s, k);
    }
  }

  lemma TimeOutFine(s: State, id: ID, cancelled: bool)
    requires Inv(s) && WaiterAt(s, id, Waiting) && id in s.gate.pending
    ensures Fine(s, Next(s, TimeOut(id, cancelled)))
  {
    var s' := Next(s, TimeOut(id, cancelled));
    assert RequestOk(s, id);
    TimedOutRequest(s, id, cancelled);
    forall k | k in s'.gate.requests ensures RequestOk(s', k) {
      assert RequestOk(s, k);
    }
  }

  lemma TimedOutRequest(s: State, id: ID, cancelled: bool)
    requires Inv(s) && WaiterAt(s, id, Waiting) && id in s.gate.pending
    ensures var s' := Next(s, TimeOut(id, cancelled));
            Consistent(s'.gate) && id in s'.gate.requests && RequestOk(s', id)
  {
    assert RequestOk(s, id);
  }

  /** A move of one waiter that leaves the gate as it is. */
  lemma WaiterMoveFine(s: State, id: ID, w: Waiter, s': State)
    requires Inv(s) && s'.gate == s.gate && s'.waiters == s.waiters[id := w] && s'.approves == s.approves
        && s'.clears == s.clears
    requires id in s.gate.requests ==> RequestOk(s', id)
    requires id !in s.gate.requests ==> w.Checked? || w == Returned(AutoApproved, Nil)
    requires w.Checked? ==> id !in s.gate.requests
    ensures Fine(s, s')
  {
    forall k | k in s'.gate.requests ensures RequestOk(s', k) {
      assert RequestOk(s, k);
    }
  }

  lemma QuietFine(s: State, l: Label)
    requires Inv(s) && (l.Call? || l.Wake? || l.Read? || (l.TimeOut? && l.id !in s.gate.pending))
    ensures Fine(s, Next(s, l))
  {
    var s' := Next(s, l);
    if s' != s {
      if l.id in s.gate.requests {
        assert RequestOk(s, l.id);
      }
      WaiterMoveFine(s, l.id, s'.waiters[l.id], s');
    }
  }

  lemma ConfigureFine(s: State, c: Config)
    requires Inv(s)
    ensures Fine(s, s.(config := c))
  {
    forall k | k in s.gate.requests ensures RequestOk(s.(config := c), k) {
      assert RequestOk(s, k);
    }
  }

  lemma NextInv(s: State, l: Label)
    requires Inv(s)
    ensures Fine(s, Next(s, l))
  {
    match l
    case DoApprove(id, who) =>
      if id in s.gate.pending { SettleFine(s, id, Approved, who, s.gate.requests[id].rejectReason); }
    case DoReject(id, who, reason) =>
      if id in s.gate.pending { SettleFine(s, id, Rejected, who, reason); }
    case DoCancelForRun(runID) => CancelFine(s, runID);
    case DoClear => ClearFine(s);
    case Enter(id) => EnterFine(s, id);
    case TimeOut(id, cancelled) =>
      if id !in s.gate.pending {
        QuietFine(s, l);
      } else if WaiterAt(s, id, Waiting) {
        TimeOutFine(s, id, cancelled);
      }
    case Configure(c) => ConfigureFine(s, c);
    case _ => QuietFine(s, l);
  }

  lemma {:induction false} RunInv(s: State, labels: seq<Label>)
    requires Inv(s)
    ensures Fine(s, Run(s, labels))
  {
    if labels != [] {
      var front := labels[..|labels| - 1];
      RunInv(s, front);
      NextInv(Run(s, front), labels[|labels| - 1]);
      var middle, last := Run(s, front), Run(s, labels);
      forall id | id in s.gate.requests ensures Kept(s, last, id) {
        assert Kept(s, middle, id) && Kept(middle, last, id);
      }
    }
  }

  lemma {:induction false} RunConcat(s: State, a: seq<Label>, b: seq<Label>)
    ensures Run(s, a + b) == Run(Run(s, a), b)
  {
    if b == [] {
      assert a + b == a;
    } else {
      var front := b[..|b| - 1];
      RunConcat(s, a, front);
      assert (a + b)[..|a + b| - 1] == a + front;
    }
  }

  /** In every interleaving: no request is both pending and resolved, and no completion channel is closed twice. */
  lemma MapsDisjointChannelsClosedOnce(c: Config, labels: seq<Label>)
    ensures var g := Run(Init(c), labels).gate;
            g.pending !! g.resolved && forall id :: Closes(g, id) <= 1
  {
    RunInv(Init(c), labels);
    var s := Run(Init(c), labels);
    forall id ensures Closes(s.gate, id) <= 1 {
      if id in s.gate.requests {
        assert RequestOk(s, id);
      }
    }
  }

  /** A request that has left the pending map keeps its status for good. */
  lemma ResolvedStatusIsPermanent(c: Config, before: seq<Label>, after: seq<Label>, id: ID)
    requires var g := Run(Init(c), before).gate; id in g.requests && id !in g.pending
    ensures var g := Run(Init(c), before).gate;
            var g' := Run(Init(c), before + after).gate;
            id in g'.requests && id !in g'.pending && g'.requests[id].status == g.requests[id].status
  {
    RunInv(Init(c), before);
    RunConcat(Init(c), before, after);
    RunInv(Run(Init(c), before), after);
    assert Kept(Run(Init(c), before), Run(Init(c), before + after), id);
  }

  /**
   * A new call is auto-approved exactly when the gate is off, the mode is chat, the mode is run and that is configured
   * to approve, or the operation is of low risk; otherwise it goes on to wait.
   */
  lemma AutoApprovedIff(s: State, id: ID, runID: string, lowRisk: bool)
    requires Consistent(s.gate) && id !in s.waiters
    ensures var w := Next(s, Call(id, runID, lowRisk)).waiters[id];
            && (w == Returned(AutoApproved, Nil) <==>
                  || !s.config.enabled
                  || s.config.mode == Chat
                  || (s.config.mode == RunMode && s.config.autoApproveInRunMode)
                  || lowRisk)
            && (w == Returned(AutoApproved, Nil) || w == Checked)
  {
  }

  /**
   * What a returned waiter was told: Approved needs an Approve step on its request; a nil error means approved,
   * cancelled, or forgotten by a Clear.
   */
  lemma ReturnedMeaning(c: Config, labels: seq<Label>, id: ID, status: Status, err: ReturnError)
    requires var s := Run(Init(c), labels); id in s.waiters && s.waiters[id] == Returned(status, err)
    ensures var s := Run(Init(c), labels);
            && (status == Approved ==> id in s.approves)
            && (status == Rejected && !LeftEarly(err) ==> err == WasRejected)
            && (err == Nil ==> status in {AutoApproved, Approved, Cancelled} || (status == Pending && s.clears > 0))
            && (id in s.gate.requests ==> s.gate.requests[id].status == status)
  {
    RunInv(Init(c), labels);
    var s := Run(Init(c), labels);
    if id in s.gate.requests {
      assert RequestOk(s, id);
    }
  }

  /** A waiter whose request has left the pending map can always wake and return the status it was given. */
  lemma NoLostWakeup(c: Config, labels: seq<Label>, id: ID)
    requires var s := Run(Init(c), labels); WaiterAt(s, id, Waiting) && id !in s.gate.pending
    ensures var s := Run(Init(c), labels);
            id in s.gate.requests && Next(Next(s, Wake(id)), Read(id)).waiters[id] ==
              Returned(s.gate.requests[id].status, Answer(s.gate.requests[id].status))
  {
    RunInv(Init(c), labels);
    var s := Run(Init(c), labels);
    assert id in s.gate.requests;
    assert RequestOk(s, id);
  }

  /**
   * What a timeout or cancellation tells a waiter, in every reachable state. It expires the request exactly when
   * nobody resolved it first; otherwise the error hides the verdict that stands, an approval among others.
   */
  lemma TimeoutHidesVerdictIff(c: Config, labels: seq<Label>, id: ID, cancelled: bool)
    requires WaiterAt(Run(Init(c), labels), id, Waiting)
    ensures var s := Run(Init(c), labels);
            var w := Next(s, TimeOut(id, cancelled)).waiters[id];
            && id in s.gate.requests
            && w.Returned? && w.err == (if cancelled then WasCancelled else WasTimedOut)
            && (w.status == Expired <==> id in s.gate.pending)
            && (w.status == Approved <==> id !in s.gate.pending && s.gate.requests[id].status == Approved)
            && (id !in s.gate.pending ==> w.status == s.gate.requests[id].status)
  {
    RunInv(Init(c), labels);
    var s := Run(Init(c), labels);
    assert id in s.gate.requests;
    assert RequestOk(s, id);
  }

  /**
   * A timeout can win the select after the approval has landed: the caller gets a timeout error with an approved
   * request.
   */
  lemma TimeoutCanHideApproval() returns (labels: seq<Label>)
    ensures WaiterAt(Run(Init(Config(true, true, Task)), labels), 1, Returned(Approved, WasTimedOut))
  {
    labels := [Call(1, "run", false), Enter(1), DoApprove(1, "user"), TimeOut(1, false)];
    RunFour(Init(Config(true, true, Task)), labels);
    ApprovedWhileWaiting();
  }

  lemma WaitsForApproval()
    ensures var s := Next(Next(Init(Config(true, true, Task)), Call(1, "run", false)), Enter(1));
            Consistent(s.gate) && WaiterAt(s, 1, Waiting) && 1 in s.gate.pending && 1 in s.gate.requests
  {
    var s1 := Next(Init(Config(true, true, Task)), Call(1, "run", false));
    assert WaiterAt(s1, 1, Checked) && 1 in s1.intents;
  }

  lemma ApprovedWhileWaiting()
    ensures var s := Next(Next(Next(Init(Config(true, true, Task)), Call(1, "run", false)), Enter(1)),
        DoApprove(1, "user"));
            && Consistent(s.gate) && WaiterAt(s, 1, Waiting) && 1 !in s.gate.pending
            && 1 in s.gate.requests && s.gate.requests[1].status == Approved
  {
    WaitsForApproval();
  }

  lemma RunFour(s: State, labels: seq<Label>)
    requires |labels| == 4
    ensures Run(s, labels) == Next(Next(Next(Next(s, labels[0]), labels[1]), labels[2]), labels[3])
  {
    RunTwo(s, labels[..2]);
    RunTwo(Run(s, labels[..2]), labels[2..]);
    RunConcat(s, labels[..2], labels[2..]);
    assert labels[..2] + labels[2..] == labels;
  }

  lemma RunTwo(s: State, labels: seq<Label>)
    requires |labels| == 2
    ensures Run(s, labels) == Next(Next(s, labels[0]), labels[1])
  {
    RunOne(s, labels[0]);
    assert labels[..1] == [labels[0]];
  }

  lemma RunOne(s: State, l: Label)
    ensures Run(s, [l]) == Next(s, l)
  {
    assert [l][..0] == [];
    assert Run(s, []) == s;
  }
}
