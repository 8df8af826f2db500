/** The manager's calls as programs over the repository; run alone, each leaves the tables as its process would. */
module ApprovalManager {
  import opened Common
  import opened ApprovalStatus
  import opened ApprovalTables
  import opened ApprovalProtocol

  /** Rows are stored under their own id. */
  predicate Keyed(t: Tables) {
    forall id :: id in t.requests ==> t.requests[id].id == id
  }

  /** A process running `n` statements with nobody interfering. */
  function Alone(t: Tables, now: int, p: Proc, n: nat): Effect
    decreases n
  {
    if n == 0 then Effect(t, p, [])
    else
      var e := ProcStep(t, now, p);
      Alone(e.tables, now, e.next, n - 1)
  }

  /** Manager.Approve, Reject and Cancel: read, check, guarded update, record. */
  method Resolve(repo: Repository, op: Operation, id: ID, now: int) returns (answer: Answer)
    requires Keyed(repo.View())
    modifies repo
    ensures var e := Alone(old(repo.View()), now, OpRead(op, id), 3);
            repo.View() == e.tables && e.next == OpDone(op, id, answer)
  {
    ghost var t := repo.View();
    ghost var read' := ProcStep(t, now, OpRead(op, id));
    assert Alone(t, now, OpRead(op, id), 3) == Alone(t, now, read'.next, 2);
    var read := repo.GetRequest(id);
    if read.None? {
      return NotFound;
    }
    var request := read.value;
    if op != Cancel && IsExpired(request, now) {
      return TooLate;
    }
    if IsFinal(request.status) {
      return AlreadyDecided;
    }
    var updated := repo.UpdateRequestStatus(request.(status := Target(op)), Pending);
    ghost var t' := repo.View();
    assert Alone(t, now, OpWrite(op, request), 2) == Alone(t', now, OpDecide(op, id), 1);
    answer := Conflict;
    if updated {
      var recorded := repo.CreateDecision(Decision(id, Target(op)));
      answer := if recorded then Ok else DecisionLost;
    }
  }

  /** Past its deadline, if it has one. */
  predicate IsLate(r: Request, now: int) {
    r.expiresAt.Some? && now > r.expiresAt.value
  }

  /**
   * What Approve, Reject and Cancel do when run alone, case by case: a refusal changes nothing; otherwise the row and
   * the decision row get the verdict that belongs to the operation, and no other row or field changes.
   */
  lemma ResolveOutcome(t: Tables, now: int, op: Operation, id: ID)
    requires Keyed(t)
    ensures var e := Alone(t, now, OpRead(op, id), 3);
            if id !in t.requests then e.tables == t && e.next == OpDone(op, id, NotFound)
            else if op != Cancel && IsLate(t.requests[id], now) then e.tables == t && e.next == OpDone(op, id, TooLate)
            else if t.requests[id].status != Pending then e.tables == t && e.next == OpDone(op, id, AlreadyDecided)
            else
              var verdict := if op == Approve then Approved else if op == Reject then Rejected else Cancelled;
              && e.tables.requests == t.requests[id := t.requests[id].(status := verdict)]
              && if HasDecision(t, id) then e.tables.decisions == t.decisions && e.next == OpDone(op, id, DecisionLost)
                 else e.tables.decisions == t.decisions + [Decision(id, verdict)] && e.next == OpDone(op, id, Ok)
  {
    var read := ProcStep(t, now, OpRead(op, id));
    assert Alone(t, now, OpRead(op, id), 3) == Alone(t, now, read.next, 2);
    var write := ProcStep(t, now, read.next);
    assert Alone(t, now, read.next, 2) == Alone(write.tables, now, write.next, 1);
    assert Alone(write.tables, now, write.next, 1) == Alone(ProcStep(write.tables, now, write.next).tables, now,
        ProcStep(write.tables, now, write.next).next, 0);
  }

  /** The tables after a sweep process has worked through its listing alone. */
  function Swept(t: Tables, now: int, rows: seq<Request>): Tables {
    Alone(t, now, SweepWrite(rows), 2 * |rows|).tables
  }

  predicate AllStored(t: Tables, rows: seq<Request>) {
    forall i :: 0 <= i < |rows| ==> rows[i].id in t.requests
  }

  /** Two statements deal with the first row of a listing. */
  lemma SweepRow(t: Tables, now: int, rows: seq<Request>)
    requires rows != [] && AllStored(t, rows)
    ensures var r := rows[0];
            var t' := Decide(Update(t, r.(status := Expired)), Decision(r.id, Expired));
            Swept(t, now, rows) == Swept(t', now, rows[1..]) && AllStored(t', rows[1..])
  {
    var r := rows[0];
    var t1 := Update(t, r.(status := Expired));
    var n := 2 * |rows|;
    assert Alone(t, now, SweepWrite(rows), n) == Alone(t1, now, SweepDecide(r.id, rows[1..]), n - 1);
    assert Alone(t1, now, SweepDecide(r.id, rows[1..]), n - 1)
        == Alone(Decide(t1, Decision(r.id, Expired)), now, SweepWrite(rows[1..]), n - 2);
  }

  /** Manager.ExpireRequests on the rows its listing returned; counts the recorded expirations. */
  method ExpireRequests(repo: Repository, rows: seq<Request>, now: int) returns (count: nat)
    requires IsExpiredList(repo.View(), now, rows)
    modifies repo
    ensures repo.View() == Alone(old(repo.View()), now, SweepWrite(rows), 2 * |rows|).tables
    ensures |repo.decisions| == |old(repo.decisions)| + count
  {
    count := 0;
    assert rows[0..] == rows;
    for i := 0 to |rows|
      invariant AllStored(repo.View(), rows[i..])
      invariant Swept(repo.View(), now, rows[i..]) == Swept(old(repo.View()), now, rows)
      invariant |repo.decisions| == |old(repo.decisions)| + count
    {
      var r := rows[i];
      assert rows[i..][0] == r && rows[i..][1..] == rows[i + 1..];
      SweepRow(repo.View(), now, rows[i..]);
      if r.status != Pending {
        continue;
      }
      var found := repo.UpdateRequest(r.(status := Expired));
      if !found {
        continue;
      }
      var recorded := repo.CreateDecision(Decision(r.id, Expired));
      if recorded {
        count := count + 1;
      }
    }
    assert rows[|rows|..] == [];
  }

  /** Alone, a sweep expires exactly the rows it listed. */
  lemma {:induction false} SweptExpiresListed(t: Tables, now: int, rows: seq<Request>, id: ID)
    requires AllStored(t, rows) && id in t.requests
    ensures Swept(t, now, rows).requests.Keys == t.requests.Keys
    ensures forall d :: d in Swept(t, now, rows).decisions && d !in t.decisions ==>
              d.decision == Expired && exists i :: 0 <= i < |rows| && rows[i].id == d.requestID
    ensures Swept(t, now, rows).requests[id].status
         == if exists i :: 0 <= i < |rows| && rows[i].id == id then Expired else t.requests[id].status
    decreases |rows|
  {
    if rows != [] {
      var r := rows[0];
      var t' := Decide(Update(t, r.(status := Expired)), Decision(r.id, Expired));
      SweepRow(t, now, rows);
      SweptExpiresListed(t', now, rows[1..], id);
      assert forall i :: 0 <= i < |rows| - 1 ==> rows[1..][i] == rows[i + 1];
      if i :| 0 <= i < |rows| && rows[i].id == id {
        assert i > 0 ==> rows[1..][i - 1].id == id;
      }
      forall d | d in Swept(t, now, rows).decisions && d !in t.decisions
        ensures d.decision == Expired && exists i :: 0 <= i < |rows| && rows[i].id == d.requestID
      {
        if d !in t'.decisions {
          var i :| 0 <= i < |rows| - 1 && rows[1..][i].id == d.requestID;
          assert rows[i + 1].id == d.requestID;
        } else {
          assert d == Decision(r.id, Expired) && rows[0].id == d.requestID;
        }
      }
    }
  }

  /** Manager.CheckApproval: a request past its deadline is expired first. */
  method CheckApproval(repo: Repository, id: ID, now: int) returns (status: Option<Status>)
    requires Keyed(repo.View())
    modifies repo
    ensures var e := Alone(old(repo.View()), now, CheckRead(id), 2);
            repo.View() == e.tables && e.next == if status.Some? then CheckDone(id, status.value) else Stopped
  {
    ghost var t := repo.View();
    assert Alone(t, now, CheckRead(id), 2) == Alone(t, now, ProcStep(t, now, CheckRead(id)).next, 1);
    var read := repo.GetRequest(id);
    if read.None? {
      return None;
    }
    var request := read.value;
    if IsExpired(request, now) && request.status == Pending {
      request := request.(status := Expired);
      var found := repo.UpdateRequest(request);
    }
    return Some(request.status);
  }

  /** What a check run alone reports and stores. */
  lemma CheckOutcome(t: Tables, now: int, id: ID)
    requires Keyed(t)
    ensures var e := Alone(t, now, CheckRead(id), 2);
            if id !in t.requests then e.tables == t && e.next == Stopped
            else
              var late := t.requests[id].status == Pending && IsLate(t.requests[id], now);
              && e.tables == (if late then t.(requests := t.requests[id := t.requests[id].(status := Expired)]) else t)
              && e.next == CheckDone(id, e.tables.requests[id].status)
  {
    var read := ProcStep(t, now, CheckRead(id));
    assert Alone(t, now, CheckRead(id), 2) == Alone(t, now, read.next, 1);
    var write := ProcStep(t, now, read.next);
    assert Alone(t, now, read.next, 1) == Alone(write.tables, now, write.next, 0);
  }

  /** How far a request for approval gets before anyone else acts. */
  datatype Submission = Refused | Granted | Open

  /** Manager.RequestApproval, then the longer deadline of the persistent gate. */
  method RequestApproval(repo: Repository, id: ID, auto: bool, expiresAt: Option<int>, extendTo: int, now: int)
    returns (submission: Submission)
    modifies repo
    ensures var e := Alone(old(repo.View()), now, GateCreate(id, auto, expiresAt, extendTo), 2);
            && repo.View() == e.tables
            && e.next == match submission
                         case Refused => Stopped
                         case Granted => GateDone(id, AutoApproved)
                         case Open => GatePoll(id)
  {
    ghost var t := repo.View();
    ghost var p := GateCreate(id, auto, expiresAt, extendTo);
    ghost var e := ProcStep(t, now, p);
    assert Alone(t, now, p, 2) == Alone(e.tables, now, e.next, 1);
    var request := Request(id, if auto then AutoApproved else Pending, None, expiresAt);
    var created := repo.CreateRequest(request);
    if !created {
      return Refused;
    }
    if auto {
      var recorded := repo.CreateDecision(Decision(id, AutoApproved));
      return if recorded then Granted else Refused;
    }
    var extended := repo.ExtendRequestExpiration(id, extendTo);
    return Open;
  }

  /** What a request for approval stores before anyone else acts. */
  lemma RequestOutcome(t: Tables, now: int, id: ID, auto: bool, expiresAt: Option<int>, extendTo: int)
    ensures var e := Alone(t, now, GateCreate(id, auto, expiresAt, extendTo), 2);
            if id in t.requests then e.tables == t && e.next == Stopped
            else if auto then
              && e.tables.requests == t.requests[id := Request(id, AutoApproved, None, expiresAt)]
              && (!HasDecision(t, id) ==>
                    && e.tables.decisions == t.decisions + [Decision(id, AutoApproved)]
                    && e.next == GateDone(id, AutoApproved))
            else
              && e.tables == t.(requests := t.requests[id := Request(id, Pending, None, Some(extendTo))])
              && e.next == GatePoll(id)
  {
    var p := GateCreate(id, auto, expiresAt, extendTo);
    var e := ProcStep(t, now, p);
    assert Alone(t, now, p, 2) == Alone(e.tables, now, e.next, 1);
    var e' := ProcStep(e.tables, now, e.next);
    assert Alone(e.tables, now, e.next, 1) == Alone(e'.tables, now, e'.next, 0);
  }

  /** A waiting agent that polls once at each tick of the clock, with nobody interfering. */
  function Polled(t: Tables, p: Proc, clock: seq<int>): Effect {
    if clock == [] then Effect(t, p, [])
    else
      var e := Polled(t, p, clock[..|clock| - 1]);
      Alone(e.tables, clock[|clock| - 1], e.next, 3)
  }

  /** One round of Manager.WaitForApproval; None when the request is still open. */
  method Poll(repo: Repository, id: ID, now: int) returns (done: bool, status: Option<Status>)
    requires Keyed(repo.View())
    modifies repo
    ensures Keyed(repo.View())
    ensures var e := Alone(old(repo.View()), now, GatePoll(id), 3);
            && repo.View() == e.tables
            && e.next == if !done then GatePoll(id) else if status.Some? then GateDone(id, status.value) else Stopped
  {
    ghost var t := repo.View();
    PollOutcome(t, now, id);
    var read := repo.GetRequest(id);
    if read.None? {
      return true, None;
    }
    var request := read.value;
    if IsExpired(request, now) && request.status == Pending {
      var found := repo.UpdateRequest(request.(status := Expired));
      var recorded := repo.CreateDecision(Decision(id, Expired));
      return true, Some(Rejected);
    }
    if request.status != Pending {
      return true, Some(if IsApproved(request.status) then Approved else Rejected);
    }
    return false, None;
  }

  /** What one poll answers and stores. */
  lemma PollOutcome(t: Tables, now: int, id: ID)
    requires Keyed(t)
    ensures var e := Alone(t, now, GatePoll(id), 3);
            if id !in t.requests then e == Effect(t, Stopped, [])
            else
              var r := t.requests[id];
              if r.status == Approved || r.status == AutoApproved then e == Effect(t, GateDone(id, Approved), [])
              else if r.status != Pending then e == Effect(t, GateDone(id, Rejected), [])
              else if IsLate(r, now) then
                && e.next == GateDone(id, Rejected)
                && e.tables.requests == t.requests[id := r.(status := Expired)]
                && e.tables.decisions
                   == if HasDecision(t, id) then t.decisions else t.decisions + [Decision(id, Expired)]
              else e == Effect(t, GatePoll(id), [])
  {
    var e := ProcStep(t, now, GatePoll(id));
    assert Alone(t, now, GatePoll(id), 3) == Alone(t, now, e.next, 2);
    var e' := ProcStep(t, now, e.next);
    assert Alone(t, now, e.next, 2) == Alone(e'.tables, now, e'.next, 1);
  }

  /** Manager.WaitForApproval over the ticks until its context ends; None if it ended, or the request vanished. */
  method WaitForApproval(repo: Repository, id: ID, clock: seq<int>) returns (done: bool, status: Option<Status>)
    requires Keyed(repo.View())
    modifies repo
    ensures var e := Polled(old(repo.View()), GatePoll(id), clock);
            && repo.View() == e.tables
            && e.next == if !done then GatePoll(id) else if status.Some? then GateDone(id, status.value) else Stopped
  {
    done, status := false, None;
    for i := 0 to |clock|
      invariant Keyed(repo.View()) && !done
      invariant Polled(old(repo.View()), GatePoll(id), clock[..i]) == Effect(repo.View(), GatePoll(id), [])
    {
      assert clock[..i + 1][..i] == clock[..i];
      done, status := Poll(repo, id, clock[i]);
      if done {
        PolledStays(old(repo.View()), GatePoll(id), clock, i + 1);
        return;
      }
    }
    assert clock[..|clock|] == clock;
  }

  predicate Ended(p: Proc) {
    p.GateDone? || p.Stopped?
  }

  lemma {:induction false} EndedStays(t: Tables, now: int, p: Proc, n: nat)
    requires Ended(p)
    ensures Alone(t, now, p, n) == Effect(t, p, [])
    decreases n
  {
    if n > 0 {
      EndedStays(t, now, p, n - 1);
    }
  }

  /** Later ticks do nothing to a wait that is over. */
  lemma {:induction false} PolledStays(t: Tables, p: Proc, clock: seq<int>, n: nat)
    requires n <= |clock| && Ended(Polled(t, p, clock[..n]).next)
    ensures Polled(t, p, clock).tables == Polled(t, p, clock[..n]).tables
    ensures Polled(t, p, clock).next == Polled(t, p, clock[..n]).next
    decreases |clock|
  {
    if n == |clock| {
      assert clock[..n] == clock;
    } else {
      var front := clock[..|clock| - 1];
      assert front[..n] == clock[..n];
      PolledStays(t, p, front, n);
      EndedStays(Polled(t, p, front).tables, clock[|clock| - 1], Polled(t, p, front).next, 3);
    }
  }
}
