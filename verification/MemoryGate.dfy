/** The in-memory approval gate: its request objects, its two maps and the completion channels. */
module MemoryGate {
  import opened Common
  import opened ApprovalStatus

  datatype GateRequest = GateRequest(runID: string, lowRisk: bool, status: Status, resolvedBy: string,
      rejectReason: string)

  /**
   * Request objects by id (shared by waiter, pending and resolved), both maps' keys, and how often each completion
   * channel was closed.
   */
  datatype Gate = Gate(requests: map<ID, GateRequest>, pending: set<ID>, resolved: set<ID>, closes: map<ID, nat>)

  datatype Mode = Chat | Task | RunMode

  datatype Config = Config(enabled: bool, autoApproveInRunMode: bool, mode: Mode)

  datatype Error = NoError | AlreadyResolved | NotFound

  predicate ShouldAutoApprove(c: Config, lowRisk: bool) {
    !c.enabled || (c.mode == RunMode && c.autoApproveInRunMode) || c.mode == Chat || lowRisk
  }

  predicate Consistent(g: Gate) {
    g.pending <= g.requests.Keys && g.resolved <= g.requests.Keys && g.closes.Keys == g.requests.Keys
  }

  function Closes(g: Gate, id: ID): nat {
    if id in g.closes then g.closes[id] else 0
  }

  /** A waiter adds its request and a new open channel. */
  function Submit(g: Gate, id: ID, r: GateRequest): Gate {
    Gate(g.requests[id := r.(status := Pending)], g.pending + {id}, g.resolved, g.closes[id := 0])
  }

  /** Moves a pending request to resolved with a verdict; `signal` says whether its channel is closed. */
  function Settle(g: Gate, id: ID, status: Status, who: string, reason: string, signal: bool): Gate
    requires Consistent(g) && id in g.pending
  {
    Gate(g.requests[id := g.requests[id].(status := status, resolvedBy := who, rejectReason := reason)],
         g.pending - {id}, g.resolved + {id},
         if signal then g.closes[id := g.closes[id] + 1] else g.closes)
  }

  /** A settled request carries the verdict and who gave it; only its own entries change. */
  lemma SettleMeaning(g: Gate, id: ID, status: Status, who: string, reason: string, signal: bool)
    requires Consistent(g) && id in g.pending
    ensures var g' := Settle(g, id, status, who, reason, signal);
            && Consistent(g') && id !in g'.pending && id in g'.resolved
            && g'.requests[id].status == status && g'.requests[id].resolvedBy == who
            && g'.requests[id].rejectReason == reason && g'.requests[id].runID == g.requests[id].runID
            && g'.closes[id] == g.closes[id] + (if signal then 1 else 0)
            && forall k :: k != id ==>
                 && (k in g'.pending <==> k in g.pending) && (k in g'.resolved <==> k in g.resolved)
                 && (k in g'.requests <==> k in g.requests)
                 && (k in g.requests ==> g'.requests[k] == g.requests[k] && g'.closes[k] == g.closes[k])
  {
  }

  /** The pending requests of one run. */
  function OfRun(g: Gate, runID: string): set<ID>
    requires Consistent(g)
  {
    set id | id in g.pending && g.requests[id].runID == runID
  }

  function CancelAll(g: Gate, ids: set<ID>): Gate
    requires Consistent(g) && ids <= g.pending
  {
    Gate(map id | id in g.requests :: if id in ids then g.requests[id].(status := Cancelled, resolvedBy := "system")
        else g.requests[id],
         g.pending - ids, g.resolved + ids,
         map id | id in g.closes :: if id in ids then g.closes[id] + 1 else g.closes[id])
  }

  /** Cancelling a set settles each of its requests as cancelled by the system, and touches no other. */
  lemma CancelMeaning(g: Gate, ids: set<ID>, id: ID)
    requires Consistent(g) && ids <= g.pending && id in g.requests
    ensures var g' := CancelAll(g, ids);
            && Consistent(g') && g'.requests.Keys == g.requests.Keys
            && (id in g'.pending <==> id in g.pending && id !in ids)
            && (id in g'.resolved <==> id in g.resolved || id in ids)
            && (id in ids ==>
                  && g'.requests[id].status == Cancelled && g'.requests[id].resolvedBy == "system"
                  && g'.closes[id] == g.closes[id] + 1)
            && (id !in ids ==> g'.requests[id] == g.requests[id] && g'.closes[id] == g.closes[id])
  {
  }

  /** Closes every pending channel and forgets both maps; the waiters keep their request objects. */
  function ClearAll(g: Gate): Gate
    requires Consistent(g)
  {
    Gate(g.requests, {}, {}, map id | id in g.closes :: if id in g.pending then g.closes[id] + 1 else g.closes[id])
  }

  class InMemoryGate {
    var requests: map<ID, GateRequest>
    var pending: set<ID>
    var resolved: set<ID>
    var closes: map<ID, nat>

    constructor ()
      ensures View() == Gate(map[], {}, {}, map[])
    {
      requests, pending, resolved, closes := map[], {}, {}, map[];
    }

    function View(): Gate
      reads this
    {
      Gate(requests, pending, resolved, closes)
    }

    method AddPending(id: ID, r: GateRequest)
      modifies this
      ensures View() == Submit(old(View()), id, r)
    {
      requests := requests[id := r.(status := Pending)];
      closes := closes[id := 0];
      pending := pending + {id};
    }

    method Approve(id: ID, who: string) returns (err: Error)
      requires Consistent(View())
      modifies this
      ensures id in old(pending) ==>
          err.NoError? && View() == Settle(old(View()), id, Approved, who, old(requests)[id].rejectReason, true)
      ensures id !in old(pending) ==>
                View() == old(View()) && err == if id in old(resolved) then AlreadyResolved else NotFound
    {
      if id !in pending {
        return if id in resolved then AlreadyResolved else NotFound;
      }
      requests := requests[id := requests[id].(status := Approved)];
      requests := requests[id := requests[id].(resolvedBy := who)];
      resolved := resolved + {id};
      pending := pending - {id};
      closes := closes[id := closes[id] + 1];
      return NoError;
    }

    method Reject(id: ID, who: string, reason: string) returns (err: Error)
      requires Consistent(View())
      modifies this
      ensures id in old(pending) ==> err.NoError? && View() == Settle(old(View()), id, Rejected, who, reason, true)
      ensures id !in old(pending) ==>
                View() == old(View()) && err == if id in old(resolved) then AlreadyResolved else NotFound
    {
      if id !in pending {
        return if id in resolved then AlreadyResolved else NotFound;
      }
      requests := requests[id := requests[id].(status := Rejected)];
      requests := requests[id := requests[id].(resolvedBy := who)];
      requests := requests[id := requests[id].(rejectReason := reason)];
      resolved := resolved + {id};
      pending := pending - {id};
      closes := closes[id := closes[id] + 1];
      return NoError;
    }

    /** The locked part of a waiter's timeout. */
    method ExpirePending(id: ID)
      requires Consistent(View())
      modifies this
      ensures View() == if id in old(pending)
          then Settle(old(View()), id, Expired, "timeout", old(requests)[id].rejectReason, false) else old(View())
    {
      if id in pending {
        requests := requests[id := requests[id].(status := Expired)];
        requests := requests[id := requests[id].(resolvedBy := "timeout")];
        resolved := resolved + {id};
        pending := pending - {id};
      }
    }

    method CancelOne(id: ID)
      requires Consistent(View()) && id in pending
      modifies this
      ensures View() == Settle(old(View()), id, Cancelled, "system", old(requests)[id].rejectReason, true)
    {
      requests := requests[id := requests[id].(status := Cancelled)];
      requests := requests[id := requests[id].(resolvedBy := "system")];
      resolved := resolved + {id};
      pending := pending - {id};
      closes := closes[id := closes[id] + 1];
    }

    /** The loop body of CancelForRun, once the requests in `done` are cancelled. */
    method CancelIfOfRun(id: ID, runID: string, ghost g: Gate, ghost done: set<ID>) returns (cancelled: bool)
      requires Consistent(g) && done <= g.pending && id in g.pending - done && View() == CancelAll(g, done)
      modifies this
      ensures cancelled <==> g.requests[id].runID == runID
      ensures View() == CancelAll(g, if cancelled then done + {id} else done)
    {
      CancelOneMore(g, done, id);
      cancelled := requests[id].runID == runID;
      if cancelled {
        CancelOne(id);
      }
    }

    /** Visits the pending requests in any order, removing as it goes. */
    method CancelForRun(runID: string) returns (count: nat)
      requires Consistent(View())
      modifies this
      ensures View() == CancelAll(old(View()), OfRun(old(View()), runID))
      ensures count == |OfRun(old(View()), runID)|
    {
      count := 0;
      ghost var g := View();
      ghost var mine := OfRun(g, runID);
      var left := pending;
      CancelNone(g);
      assert mine - left == {};
      while left != {}
        invariant left <= g.pending
        invariant View() == CancelAll(g, mine - left)
        invariant count == |mine - left|
        decreases left
      {
        var id :| id in left;
        VisitOne(g, runID, left, id);
        var cancelled := CancelIfOfRun(id, runID, g, mine - left);
        left := left - {id};
        if cancelled {
          count := count + 1;
        }
      }
      assert mine - left == mine;
    }

    /** Closes the channels of all pending requests, then drops both maps. */
    method Clear()
      requires Consistent(View())
      modifies this
      ensures View() == ClearAll(old(View()))
    {
      var left := pending;
      while left != {}
        invariant left <= pending && pending == old(pending) && requests == old(requests)
        invariant closes == map id | id in old(closes) :: if id in pending - left then old(closes)[id] + 1
            else old(closes)[id]
        decreases left
      {
        var id :| id in left;
        left := left - {id};
        closes := closes[id := closes[id] + 1];
      }
      pending := {};
      resolved := {};
    }
  }

  lemma CancelNone(g: Gate)
    requires Consistent(g)
    ensures CancelAll(g, {}) == g
  {
  }

  lemma VisitOne(g: Gate, runID: string, left: set<ID>, id: ID)
    requires Consistent(g) && left <= g.pending && id in left
    ensures OfRun(g, runID) - (left - {id}) ==
              if g.requests[id].runID == runID then (OfRun(g, runID) - left) + {id} else OfRun(g, runID) - left
  {
  }

  lemma CancelOneMore(g: Gate, done: set<ID>, id: ID)
    requires Consistent(g) && done <= g.pending && id in g.pending - done
    ensures var c := CancelAll(g, done);
            Consistent(c) && id in c.pending && c.requests[id] == g.requests[id]
            && CancelAll(g, done + {id}) == Settle(c, id, Cancelled, "system", c.requests[id].rejectReason, true)
  {
  }
}
