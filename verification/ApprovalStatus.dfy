/** Request identities and statuses, shared by the durable and the in-memory approvals. */
module ApprovalStatus {

  type ID = nat

  datatype Status = Pending | Approved | Rejected | AutoApproved | Expired | Cancelled

  predicate IsFinal(s: Status) {
    s != Pending
  }

  predicate IsApproved(s: Status) {
    s == Approved || s == AutoApproved
  }
}
