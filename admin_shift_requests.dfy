/**
 * The administrator's shift-request page: the list of requests fetched from
 * the server, approve and reject buttons on pending rows, and a status badge
 * per row. A successful PATCH updates the row in the local list; a failed one
 * records an error and leaves the list alone.
 */
module AdminShiftRequestsPage {
  import opened Wrappers

  const FetchFailedMessage: string := "Failed to fetch shift requests."
  const UpdateFailedMessage: string := "Failed to update status."

  /** A row as the page receives it; `status` is whatever string the server holds. */
  datatype RequestView = RequestView(
    id: string,
    date: string,
    startTime: string,
    endTime: string,
    status: string,
    userName: string,
    userEmail: string,
    positionName: string)

  /** The list after a successful PATCH: rows with that id take the new status, nothing else changes. */
  function WithStatus(requests: seq<RequestView>, id: string, status: string): (r: seq<RequestView>)
    ensures |r| == |requests|
    ensures forall i :: 0 <= i < |requests| ==>
      && r[i] == requests[i].(status := r[i].status)
      && r[i].status == (if requests[i].id == id then status else requests[i].status)
  {
    seq(|requests|, i requires 0 <= i < |requests| =>
      if requests[i].id == id then requests[i].(status := status) else requests[i])
  }

  /** Applying the same update twice is applying it once; the latest of two updates to one id wins. */
  lemma WithStatusTwice(requests: seq<RequestView>, id: string, s1: string, s2: string)
    ensures WithStatus(WithStatus(requests, id, s1), id, s2) == WithStatus(requests, id, s2)
  {
  }

  /** Updates of different ids do not interfere: their order does not matter. */
  lemma WithStatusCommutes(requests: seq<RequestView>, a: string, sa: string, b: string, sb: string)
    requires a != b
    ensures WithStatus(WithStatus(requests, a, sa), b, sb) == WithStatus(WithStatus(requests, b, sb), a, sa)
  {
  }

  /** Approve and reject buttons appear only on rows whose status is exactly "pending". */
  function ActionsOffered(req: RequestView): (b: bool)
    ensures b ==> Badge(req.status).Some?
    ensures req.status in {"approved", "rejected", "PENDING"} ==> !b
  {
    req.status == "pending"
  }

  /** The badge's colour classes and text for the three statuses the page knows; `None` for any other string. */
  function Badge(status: string): (b: Option<(string, string)>)
    ensures b.Some? <==> status in {"pending", "approved", "rejected"}
  {
    if status == "pending" then Some(("bg-yellow-200 text-yellow-800", "保留中"))
    else if status == "approved" then Some(("bg-green-200 text-green-800", "承認済み"))
    else if status == "rejected" then Some(("bg-red-200 text-red-800", "拒否済み"))
    else None
  }

  /** The three badges differ pairwise in both colour and text. */
  lemma BadgesDistinct(s: string, t: string)
    requires Badge(s).Some? && Badge(t).Some? && s != t
    ensures Badge(s).value.0 != Badge(t).value.0 && Badge(s).value.1 != Badge(t).value.1
  {
  }

  /**
   * A request as POST /api/shift-requests stores it has status "PENDING":
   * on this page it gets no buttons and no badge.
   */
  lemma UpperCasePendingUnhandled(req: RequestView)
    requires req.status == "PENDING"
    ensures !ActionsOffered(req) && Badge(req.status).None?
  {
  }

  class Page {
    var requests: seq<RequestView>
    var isLoading: bool
    var error: Option<string>

    constructor ()
      ensures requests == [] && isLoading && error.None?
    {
      requests := [];
      isLoading := true;
      error := None;
    }

    /** `fetchRequests`, given whether the response was ok and the rows it carried. */
    method Load(ok: bool, data: seq<RequestView>)
      modifies this
      ensures !isLoading
      ensures ok ==> requests == data && error == old(error)
      ensures !ok ==> requests == old(requests) && error == Some(FetchFailedMessage)
    {
      isLoading := true;
      if ok {
        requests := data;
      } else {
        error := Some(FetchFailedMessage);
      }
      isLoading := false;
    }

    /** `handleUpdateStatus`, given whether the PATCH response was ok. */
    method UpdateStatus(id: string, status: string, ok: bool)
      modifies this
      ensures isLoading == old(isLoading)
      ensures ok ==> requests == WithStatus(old(requests), id, status) && error == old(error)
      ensures !ok ==> requests == old(requests) && error == Some(UpdateFailedMessage)
    {
      if !ok {
        error := Some(UpdateFailedMessage);
        return;
      }
      requests := WithStatus(requests, id, status);
    }
  }
}
