/** The customer-care requests: the complaint list and the one-way move of
    a complaint from `open` to `resolved`. */
module SupportRouter {
  import opened Common
  import opened Domain
  import opened Database
  import opened Notifications

  /** The filter a request gets when it sends none. */
  const DefaultStatusFilter: string := "open"

  /** `GET /complaints`: a filter naming a complaint status narrows the list
      to that status; any other filter, the empty one included, lists all. */
  function ListAllComplaints(complaints: map<Id, Complaint>, statusFilter: string): (r: set<Id>)
    ensures r <= complaints.Keys
    ensures statusFilter == "open" || statusFilter == "resolved" ==>
              forall k :: k in r <==> k in complaints && ComplaintStatusValue(complaints[k].status) == statusFilter
    ensures statusFilter != "open" && statusFilter != "resolved" ==> r == complaints.Keys
  {
    if statusFilter != "" && (statusFilter == "open" || statusFilter == "resolved") then
      set k | k in complaints && ComplaintStatusValue(complaints[k].status) == statusFilter
    else complaints.Keys
  }

  /** With no filter sent, only open complaints are listed; the two status
      filters split the whole list. */
  lemma ComplaintFiltersPartition(complaints: map<Id, Complaint>)
    ensures forall k :: k in ListAllComplaints(complaints, DefaultStatusFilter) <==>
              k in complaints && complaints[k].status == Open
    ensures ListAllComplaints(complaints, "open") + ListAllComplaints(complaints, "resolved") == complaints.Keys
    ensures ListAllComplaints(complaints, "open") * ListAllComplaints(complaints, "resolved") == {}
  {
    var o := ListAllComplaints(complaints, "open");
    var s := ListAllComplaints(complaints, "resolved");
    forall k | k in complaints ensures k in o + s {
      if complaints[k].status == Open { assert k in o; } else { assert k in s; }
    }
  }

  /** `PUT /complaints/{complaint_id}/resolve` as a value, at clock reading `now`. */
  function ResolveStep(complaints: map<Id, Complaint>, complaintId: Id, notes: string, now: int): (r: Result<Complaint>)
    ensures complaintId !in complaints ==> r == Failure(NotFound(ComplaintNotFound))
    ensures complaintId in complaints && complaints[complaintId].status == Resolved ==>
              r == Failure(BadRequest(ComplaintAlreadyResolved))
    ensures r.Success? <==> complaintId in complaints && complaints[complaintId].status == Open
    ensures r.Success? ==>
              r.value == complaints[complaintId].(status := Resolved, resolutionNotes := Some(notes), resolvedAt := Some(now))
  {
    if complaintId !in complaints then Failure(NotFound(ComplaintNotFound))
    else if complaints[complaintId].status == Resolved then Failure(BadRequest(ComplaintAlreadyResolved))
    else
      assert complaints[complaintId].status == Open;
      Success(complaints[complaintId].(status := Resolved, resolutionNotes := Some(notes), resolvedAt := Some(now)))
  }

  /** A complaint is resolved at most once: a second resolution is refused
      whatever notes and time it carries, so the first ones stay. */
  lemma ResolveAtMostOnce(complaints: map<Id, Complaint>, complaintId: Id, notes: string, now: int,
                          notes2: string, later: int)
    requires ResolveStep(complaints, complaintId, notes, now).Success?
    ensures var c := ResolveStep(complaints, complaintId, notes, now).value;
            ResolveStep(complaints[complaintId := c], complaintId, notes2, later) == Failure(BadRequest(ComplaintAlreadyResolved))
  {
  }

  /** `PUT /complaints/{complaint_id}/resolve`; the customer is told. The
      request schema has already required notes of at least ten characters. */
  method ResolveComplaint(db: Db, complaintId: Id, notes: string, now: int) returns (r: Result<Complaint>)
    requires db.Valid() && |notes| >= 10
    modifies db`complaints, db`notifications
    ensures db.Valid()
    ensures r == ResolveStep(old(db.complaints), complaintId, notes, now)
    ensures r.Failure? ==> db.complaints == old(db.complaints) && db.notifications == old(db.notifications)
    ensures r.Success? ==>
              db.complaints == old(db.complaints)[complaintId := r.value]
              && db.notifications == old(db.notifications)
                                     + [ComplaintResolvedRecord(complaintId, r.value.customerId, r.value.orderId)]
  {
    if complaintId !in db.complaints {
      return Failure(NotFound(ComplaintNotFound));
    }
    var complaint := db.complaints[complaintId];
    if complaint.status == Resolved {
      return Failure(BadRequest(ComplaintAlreadyResolved));
    }
    complaint := complaint.(status := Resolved, resolutionNotes := Some(notes), resolvedAt := Some(now));
    db.complaints := db.complaints[complaintId := complaint];
    NotifyComplaintResolved(db, complaintId, complaint.customerId, complaint.orderId);
    r := Success(complaint);
  }
}
