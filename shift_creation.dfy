/**
 * The administrator's shift-creation page: the fetched shift requests with
 * approve and reject buttons on pending rows and a status label per row.
 * A successful PATCH sets the row's status locally; a failed one only logs.
 * A session whose role is not "ADMIN" sees an access-denied screen instead.
 */
module ShiftCreationPage {
  import opened Wrappers

  /** A row as the page receives it. */
  datatype CreationRow = CreationRow(
    id: string,
    startDate: string,
    endDate: string,
    startTime: string,
    endTime: string,
    status: string,
    userName: string,
    positionName: string)

  /** The list after a successful PATCH: rows with that id take the new status, nothing else changes. */
  function WithStatus(rows: seq<CreationRow>, id: string, status: string): (r: seq<CreationRow>)
    ensures |r| == |rows|
    ensures forall i :: 0 <= i < |rows| ==>
      && r[i] == rows[i].(status := r[i].status)
      && r[i].status == (if rows[i].id == id then status else rows[i].status)
  {
    seq(|rows|, i requires 0 <= i < |rows| => if rows[i].id == id then rows[i].(status := status) else rows[i])
  }

  /** Approving or rejecting again changes nothing; rejecting after approving leaves the row rejected. */
  lemma DecisionsSettle(rows: seq<CreationRow>, id: string)
    ensures WithStatus(WithStatus(rows, id, "approved"), id, "approved") == WithStatus(rows, id, "approved")
    ensures WithStatus(WithStatus(rows, id, "rejected"), id, "rejected") == WithStatus(rows, id, "rejected")
    ensures WithStatus(WithStatus(rows, id, "approved"), id, "rejected") == WithStatus(rows, id, "rejected")
  {
  }

  /** The status column's text: anything but "approved" or "rejected" reads as under review. */
  function StatusLabel(status: string): (text: string)
    ensures text == "審査中" <==> status != "approved" && status != "rejected"
    ensures status == "approved" ==> text == "承認済み"
    ensures status == "rejected" ==> text == "却下"
  {
    if status == "approved" then "承認済み"
    else if status == "rejected" then "却下"
    else "審査中"
  }

  /** The buttons are rendered only for status exactly "pending". */
  function ActionsShown(row: CreationRow): (b: bool)
    ensures b ==> StatusLabel(row.status) == "審査中"
    ensures row.status == "approved" || row.status == "rejected" || row.status == "PENDING" ==> !b
  {
    row.status == "pending"
  }

  /** A row with the upper-case "PENDING" stored by POST /api/shift-requests reads as under review but has no buttons. */
  lemma UpperCasePendingStuck(row: CreationRow)
    requires row.status == "PENDING"
    ensures StatusLabel(row.status) == "審査中" && !ActionsShown(row)
  {
  }

  /** Access is denied unless the session's role is "ADMIN"; `None` is a session without a role. */
  function AccessDenied(role: Option<string>): (b: bool)
    ensures role.None? || role == Some("USER") ==> b
    ensures !b ==> role == Some("ADMIN")
  {
    role != Some("ADMIN")
  }

  class Page {
    var shiftRequests: seq<CreationRow>
    var loading: bool

    constructor ()
      ensures shiftRequests == [] && loading
    {
      shiftRequests := [];
      loading := true;
    }

    /** The initial fetch: an ok response replaces the list, any other outcome only ends loading. */
    method Load(ok: bool, data: seq<CreationRow>)
      modifies this
      ensures !loading
      ensures shiftRequests == (if ok then data else old(shiftRequests))
    {
      if ok {
        shiftRequests := data;
      }
      loading := false;
    }

    /** `handleApprove`, given whether the PATCH response was ok. */
    method Approve(id: string, ok: bool)
      modifies this`shiftRequests
      ensures shiftRequests == (if ok then WithStatus(old(shiftRequests), id, "approved") else old(shiftRequests))
    {
      if ok {
        shiftRequests := WithStatus(shiftRequests, id, "approved");
      }
    }

    /** `handleReject`, given whether the PATCH response was ok. */
    method Reject(id: string, ok: bool)
      modifies this`shiftRequests
      ensures shiftRequests == (if ok then WithStatus(old(shiftRequests), id, "rejected") else old(shiftRequests))
    {
      if ok {
        shiftRequests := WithStatus(shiftRequests, id, "rejected");
      }
    }
  }
}
