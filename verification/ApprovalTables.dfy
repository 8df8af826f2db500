/** The shared approval tables and the single statements that the approval manager runs on them. */
module ApprovalTables {
  import opened Common
  import opened ApprovalStatus

  datatype Request = Request(id: ID, status: Status, policyID: Option<string>, expiresAt: Option<int>)

  predicate IsExpired(r: Request, now: int) {
    r.expiresAt.Some? && now > r.expiresAt.value
  }

  datatype Decision = Decision(requestID: ID, decision: Status)

  datatype Tables = Tables(requests: map<ID, Request>, decisions: seq<Decision>)

  predicate HasDecision(t: Tables, id: ID) {
    exists i :: 0 <= i < |t.decisions| && t.decisions[i].requestID == id
  }

  /** INSERT INTO approval_requests: the id is the primary key. */
  function Create(t: Tables, r: Request): Tables {
    if r.id in t.requests then t else t.(requests := t.requests[r.id := r])
  }

  /** UPDATE by id, whatever the stored status. */
  function Update(t: Tables, r: Request): Tables {
    if r.id in t.requests then
      t.(requests := t.requests[r.id := t.requests[r.id].(status := r.status, policyID := r.policyID,
          expiresAt := r.expiresAt)])
    else t
  }

  /** UPDATE by id and expected status. */
  function UpdateIf(t: Tables, r: Request, expected: Status): Tables {
    if r.id in t.requests && t.requests[r.id].status == expected then Update(t, r) else t
  }

  /** UPDATE of the deadline, while pending. */
  function Extend(t: Tables, id: ID, expiresAt: int): Tables {
    if id in t.requests && t.requests[id].status == Pending then
      t.(requests := t.requests[id := t.requests[id].(expiresAt := Some(expiresAt))])
    else t
  }

  /** INSERT INTO approval_decisions: request_id is unique. */
  function Decide(t: Tables, d: Decision): Tables {
    if HasDecision(t, d.requestID) then t else t.(decisions := t.decisions + [d])
  }

  /** The columns an update writes; the rest of the row stays. */
  function Written(row: Request, r: Request): Request {
    Request(row.id, r.status, r.policyID, r.expiresAt)
  }

  /** The repository, each method one statement under its lock. */
  class Repository {
    var requests: map<ID, Request>
    var decisions: seq<Decision>

    constructor ()
      ensures View() == Tables(map[], [])
    {
      requests := map[];
      decisions := [];
    }

    function View(): Tables
      reads this
    {
      Tables(requests, decisions)
    }

    method CreateRequest(r: Request) returns (ok: bool)
      modifies this
      ensures ok <==> r.id !in old(requests)
      ensures View() == Create(old(View()), r)
      ensures decisions == old(decisions) && requests == if ok then old(requests)[r.id := r] else old(requests)
    {
      ok := r.id !in requests;
      if ok {
        requests := requests[r.id := r];
      }
    }

    method GetRequest(id: ID) returns (r: Option<Request>)
      ensures r.Some? <==> id in requests
      ensures r.Some? ==> r.value == requests[id]
    {
      r := if id in requests then Some(requests[id]) else None;
    }

    method UpdateRequest(r: Request) returns (found: bool)
      modifies this
      ensures found <==> r.id in old(requests)
      ensures View() == Update(old(View()), r)
      ensures decisions == old(decisions)
      ensures requests == if found then old(requests)[r.id := Written(old(requests)[r.id], r)] else old(requests)
    {
      found := r.id in requests;
      if found {
        requests := requests[r.id := requests[r.id].(status := r.status, policyID := r.policyID,
            expiresAt := r.expiresAt)];
      }
    }

    method UpdateRequestStatus(r: Request, expected: Status) returns (ok: bool)
      modifies this
      ensures ok <==> r.id in old(requests) && old(requests)[r.id].status == expected
      ensures View() == UpdateIf(old(View()), r, expected)
      ensures decisions == old(decisions)
      ensures requests == if ok then old(requests)[r.id := Written(old(requests)[r.id], r)] else old(requests)
    {
      ok := r.id in requests && requests[r.id].status == expected;
      if ok {
        requests := requests[r.id := requests[r.id].(status := r.status, policyID := r.policyID,
            expiresAt := r.expiresAt)];
      }
    }

    method ExtendRequestExpiration(id: ID, expiresAt: int) returns (ok: bool)
      modifies this
      ensures ok <==> id in old(requests) && old(requests)[id].status == Pending
      ensures View() == Extend(old(View()), id, expiresAt)
      ensures decisions == old(decisions)
      ensures requests ==
              if ok then old(requests)[id := old(requests)[id].(expiresAt := Some(expiresAt))] else old(requests)
    {
      ok := id in requests && requests[id].status == Pending;
      if ok {
        requests := requests[id := requests[id].(expiresAt := Some(expiresAt))];
      }
    }

    method CreateDecision(d: Decision) returns (ok: bool)
      modifies this
      ensures ok <==> !HasDecision(old(View()), d.requestID)
      ensures View() == Decide(old(View()), d)
      ensures requests == old(requests) && decisions == if ok then old(decisions) + [d] else old(decisions)
    {
      ok := true;
      for i := 0 to |decisions|
        invariant View() == old(View()) && ok
        invariant forall j :: 0 <= j < i ==> decisions[j].requestID != d.requestID
      {
        if decisions[i].requestID == d.requestID {
          return false;
        }
      }
      decisions := decisions + [d];
    }
  }
}
