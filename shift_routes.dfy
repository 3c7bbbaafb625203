/**
 * The routes that read and write the shift and shift-request tables:
 * the admin month listing and shift creation, month finalisation,
 * clearing all drafts, and an employee's new shift request.
 */
module ShiftRoutes {
  import opened Wrappers
  import opened Civil
  import opened Js
  import opened Store
  import Seqs

  const MissingMonthMessage: string := "年と月を指定してください。"
  const MissingShiftFieldsMessage: string := "必要な情報が不足しています。"
  const MissingRequestFieldsMessage: string := "必須項目が不足しています。"
  const ListFailedMessage: string := "シフトの取得中にエラーが発生しました。"
  const CreateFailedMessage: string := "シフトの作成中にエラーが発生しました。"
  const FinalizeFailedMessage: string := "シフトの確定中にエラーが発生しました。"

  /** A shift dated within `[new Date(y, m - 1, 1), new Date(y, m, 0)]`. */
  function InMonth(y: int, m: int): Shift -> bool
  {
    (s: Shift) => ValidDate(s.date) && InMonthRange(s.date, y, m)
  }

  /** Ordering key: the day number of a well-formed date. */
  function DateKeyOf(s: Shift): int
  {
    if 1 <= s.date.month <= 12 then DayNumber(s.date) else 0
  }

  /**
   * GET /api/admin/shifts: both query parameters are required; a parameter
   * `parseInt` cannot read makes an invalid date, whose `toISOString` throws (500).
   */
  function ListShifts(shifts: seq<Shift>, year: JsValue, month: JsValue): (r: Reply<seq<Shift>>)
    ensures !Truthy(year) || !Truthy(month) ==> r == Fail(400, MissingMonthMessage)
    ensures Truthy(year) && Truthy(month) && (ParseInt(year).None? || ParseInt(month).None?) ==>
      r == Fail(500, ListFailedMessage)
    ensures r.Ok? ==> r.status == 200
    ensures r.Ok? ==> Seqs.SortedBy(r.value, DateKeyOf)
    ensures r.Ok? ==>
      multiset(r.value) == multiset(Seqs.Filter(shifts, InMonth(ParseInt(year).value, ParseInt(month).value)))
  {
    if !Truthy(year) || !Truthy(month) then Fail(400, MissingMonthMessage)
    else
      match (ParseInt(year), ParseInt(month))
      case (Some(y), Some(m)) => Ok(200, Seqs.SortBy(Seqs.Filter(shifts, InMonth(y, m)), DateKeyOf))
      case _ => Fail(500, ListFailedMessage)
  }

  /** A listed month 1..12 holds exactly the shifts of that month of the constructor's year, earliest first. */
  lemma ListShiftsMonth(shifts: seq<Shift>, y: int, m: int, s: Shift)
    requires 1 <= m <= 12
    requires forall i :: 0 <= i < |shifts| ==> ValidDate(shifts[i].date)
    ensures var r := ListShifts(shifts, Num(y), Num(m));
      y != 0 ==>
        && r.Ok?
        && (s in r.value <==> s in shifts && s.date.year == ConstructorYear(y) && s.date.month == m)
  {
    if y != 0 {
      var r := ListShifts(shifts, Num(y), Num(m));
      var f := Seqs.Filter(shifts, InMonth(y, m));
      assert s in r.value <==> s in multiset(f);
      if s in shifts {
        MonthRangeIff(s.date, y, m);
      }
      if s in f {
        MonthRangeIff(s.date, y, m);
      }
    }
  }

  /** The body POST /api/admin/shifts reads; `None` stands for a missing or empty field. */
  datatype ShiftBody = ShiftBody(
    userId: Option<Id>,
    positionId: Option<Id>,
    date: Option<Date>,
    startTime: Option<string>,
    endTime: Option<string>,
    shiftRequestId: Option<Id>)

  predicate CompleteShiftBody(b: ShiftBody)
  {
    b.userId.Some? && b.positionId.Some? && b.date.Some? && Present(b.startTime) && Present(b.endTime)
  }

  /** The new row: the submitted fields, as a draft. */
  function DraftFrom(b: ShiftBody, id: Id): (s: Shift)
    requires CompleteShiftBody(b)
    ensures s.id == id && s.status == Draft
    ensures s.userId == b.userId.value && s.positionId == b.positionId.value && s.date == b.date.value
    ensures s.startTime == b.startTime.value && s.endTime == b.endTime.value
  {
    Shift(id, b.userId.value, b.positionId.value, b.date.value, b.startTime.value, b.endTime.value, Draft)
  }

  /** `shiftRequest.update({ where: { id }, data: { shiftId } })` applied to the table. */
  function LinkRequest(requests: seq<ShiftRequest>, requestId: Id, shiftId: Id): (r: seq<ShiftRequest>)
    ensures |r| == |requests|
  {
    seq(|requests|, i requires 0 <= i < |requests| =>
      if requests[i].id == requestId then requests[i].(shiftId := Some(shiftId)) else requests[i])
  }

  predicate HasRequest(requests: seq<ShiftRequest>, id: Id)
  {
    exists i :: 0 <= i < |requests| && requests[i].id == id
  }

  /** Linking sets the shift of the request with that id and leaves every other request, and every other field, alone. */
  lemma LinkRequestOnly(requests: seq<ShiftRequest>, requestId: Id, shiftId: Id, i: int)
    requires 0 <= i < |requests|
    ensures requests[i].id == requestId ==> LinkRequest(requests, requestId, shiftId)[i].shiftId == Some(shiftId)
    ensures LinkRequest(requests, requestId, shiftId)[i].(shiftId := requests[i].shiftId) == requests[i]
    ensures requests[i].id != requestId ==> LinkRequest(requests, requestId, shiftId)[i] == requests[i]
  {
  }

  /**
   * POST /api/admin/shifts: a complete body always makes one new draft, with
   * no overlap or capacity check. With a `shiftRequestId` the request is then
   * linked to it; when that request does not exist the update throws (500),
   * and the shift already made stays.
   */
  method CreateShift(db: Db, body: ShiftBody) returns (r: Reply<Shift>)
    requires db.Valid()
    requires body.date.Some? ==> ValidDate(body.date.value)
    modifies db
    ensures db.Valid()
    ensures db.users == old(db.users)
    ensures !CompleteShiftBody(body) ==>
      r == Fail(400, MissingShiftFieldsMessage) &&
      db.shifts == old(db.shifts) && db.requests == old(db.requests) && db.nextId == old(db.nextId)
    ensures CompleteShiftBody(body) ==>
      && db.nextId == old(db.nextId) + 1
      && db.shifts == old(db.shifts) + [DraftFrom(body, old(db.nextId))]
    ensures CompleteShiftBody(body) && body.shiftRequestId.None? ==>
      r == Ok(201, DraftFrom(body, old(db.nextId))) && db.requests == old(db.requests)
    ensures CompleteShiftBody(body) && body.shiftRequestId.Some? ==>
      db.requests == LinkRequest(old(db.requests), body.shiftRequestId.value, old(db.nextId))
    ensures CompleteShiftBody(body) && body.shiftRequestId.Some? ==>
      r == if HasRequest(old(db.requests), body.shiftRequestId.value)
           then Ok(201, DraftFrom(body, old(db.nextId)))
           else Fail(500, CreateFailedMessage)
  {
    if !CompleteShiftBody(body) {
      return Fail(400, MissingShiftFieldsMessage);
    }
    var id := db.NewId();
    var shift := DraftFrom(body, id);
    db.shifts := db.shifts + [shift];
    if body.shiftRequestId.Some? {
      var rid := body.shiftRequestId.value;
      var found := HasRequest(db.requests, rid);
      assert RequestIds(LinkRequest(db.requests, rid, id)) == RequestIds(db.requests);
      db.requests := LinkRequest(db.requests, rid, id);
      if !found {
        return Fail(500, CreateFailedMessage);
      }
    }
    r := Ok(201, shift);
  }

  // POST /api/admin/shifts/finalize

  /** The rows `updateMany` selects: drafts dated within the month. */
  function DraftIn(y: int, m: int): Shift -> bool
  {
    (s: Shift) => s.status == Draft && InMonth(y, m)(s)
  }

  /** A row after finalisation: a selected draft becomes confirmed, anything else stays. */
  function Confirm(s: Shift, y: int, m: int): (t: Shift)
    ensures t == s.(status := t.status)
    ensures t.status == (if DraftIn(y, m)(s) then Confirmed else s.status)
  {
    if DraftIn(y, m)(s) then s.(status := Confirmed) else s
  }

  /** The whole table after finalisation. */
  function ConfirmAll(shifts: seq<Shift>, y: int, m: int): (r: seq<Shift>)
    ensures |r| == |shifts|
    ensures forall i :: 0 <= i < |shifts| ==> r[i] == Confirm(shifts[i], y, m)
  {
    seq(|shifts|, i requires 0 <= i < |shifts| => Confirm(shifts[i], y, m))
  }

  /** After finalising a month no draft is left in it, so finalising again changes nothing and counts 0. */
  lemma ConfirmAllIdempotent(shifts: seq<Shift>, y: int, m: int)
    ensures Seqs.CountIf(ConfirmAll(shifts, y, m), DraftIn(y, m)) == 0
    ensures ConfirmAll(ConfirmAll(shifts, y, m), y, m) == ConfirmAll(shifts, y, m)
  {
  }

  /**
   * POST /api/admin/shifts/finalize: every draft in the month becomes
   * confirmed by one `updateMany`; the count is the number of rows changed.
   */
  method Finalize(db: Db, year: JsValue, month: JsValue) returns (r: Reply<nat>)
    requires db.Valid()
    modifies db`shifts
    ensures db.Valid()
    ensures !Truthy(year) || !Truthy(month) ==> r == Fail(400, MissingMonthMessage) && db.shifts == old(db.shifts)
    ensures Truthy(year) && Truthy(month) && (ParseInt(year).None? || ParseInt(month).None?) ==>
      r == Fail(500, FinalizeFailedMessage) && db.shifts == old(db.shifts)
    ensures Truthy(year) && Truthy(month) && ParseInt(year).Some? && ParseInt(month).Some? ==>
      var y, m := ParseInt(year).value, ParseInt(month).value;
      && db.shifts == ConfirmAll(old(db.shifts), y, m)
      && r == Ok(200, Seqs.CountIf(old(db.shifts), DraftIn(y, m)))
  {
    if !Truthy(year) || !Truthy(month) {
      return Fail(400, MissingMonthMessage);
    }
    var py, pm := ParseInt(year), ParseInt(month);
    if py.None? || pm.None? {
      return Fail(500, FinalizeFailedMessage);
    }
    var count := Seqs.CountIf(db.shifts, DraftIn(py.value, pm.value));
    db.shifts := ConfirmAll(db.shifts, py.value, pm.value);
    r := Ok(200, count);
  }

  // POST /api/admin/shifts/clear-drafts

  function IsDraft(s: Shift): bool { s.status == Draft }
  function IsKept(s: Shift): bool { s.status != Draft }

  /**
   * POST /api/admin/shifts/clear-drafts: `deleteMany` removes every draft,
   * whatever its date, in one call; the count is the number of rows removed.
   */
  method ClearDrafts(db: Db) returns (r: Reply<nat>)
    requires db.Valid()
    modifies db`shifts
    ensures db.Valid()
    ensures db.shifts == Seqs.Filter(old(db.shifts), IsKept)
    ensures r == Ok(200, Seqs.CountIf(old(db.shifts), IsDraft))
  {
    var count := Seqs.CountIf(db.shifts, IsDraft);
    db.shifts := Seqs.Filter(db.shifts, IsKept);
    r := Ok(200, count);
  }

  /** Clearing leaves no draft and keeps every confirmed row, so a second clear removes nothing. */
  lemma ClearDraftsIdempotent(shifts: seq<Shift>)
    ensures Seqs.CountIf(Seqs.Filter(shifts, IsKept), IsDraft) == 0
    ensures Seqs.Filter(Seqs.Filter(shifts, IsKept), IsKept) == Seqs.Filter(shifts, IsKept)
    ensures |Seqs.Filter(shifts, IsKept)| + Seqs.CountIf(shifts, IsDraft) == |shifts|
  {
    Seqs.FilterIdempotent(shifts, IsKept);
    Seqs.FilterLength(shifts, IsKept);
    Seqs.CountComplement(shifts, IsKept, IsDraft);
  }

  // POST /api/shift-requests

  /** The body POST /api/shift-requests reads, plus the `positionId` the page sends along. */
  datatype RequestBody = RequestBody(
    employeeId: Option<Id>,
    date: Option<Date>,
    startTime: Option<string>,
    endTime: Option<string>,
    positionId: Option<Id>)

  predicate CompleteRequestBody(b: RequestBody)
  {
    b.employeeId.Some? && b.date.Some? && Present(b.startTime) && Present(b.endTime)
  }

  /** The stored row: status `PENDING`, no position and no shift, whatever the body says. */
  function PendingFrom(b: RequestBody, id: Id): (q: ShiftRequest)
    requires CompleteRequestBody(b)
    ensures q.id == id && q.status == "PENDING" && q.positionId.None? && q.shiftId.None?
    ensures q.employeeId == b.employeeId.value && q.date == b.date.value
    ensures q.startTime == b.startTime.value && q.endTime == b.endTime.value
  {
    ShiftRequest(id, b.employeeId.value, b.date.value, b.startTime.value, b.endTime.value, "PENDING", None, None)
  }

  /** POST /api/shift-requests: one new pending request, with no duplicate or overlap check. */
  method CreateRequest(db: Db, body: RequestBody) returns (r: Reply<ShiftRequest>)
    requires db.Valid()
    modifies db`requests, db`nextId
    ensures db.Valid()
    ensures !CompleteRequestBody(body) ==>
      r == Fail(400, MissingRequestFieldsMessage) && db.requests == old(db.requests) && db.nextId == old(db.nextId)
    ensures CompleteRequestBody(body) ==>
      && db.requests == old(db.requests) + [PendingFrom(body, old(db.nextId))]
      && db.nextId == old(db.nextId) + 1
      && r == Ok(201, PendingFrom(body, old(db.nextId)))
  {
    if !CompleteRequestBody(body) {
      return Fail(400, MissingRequestFieldsMessage);
    }
    var id := db.NewId();
    var q := PendingFrom(body, id);
    IdsAppend(RequestIds(db.requests), id);
    assert RequestIds(db.requests + [q]) == RequestIds(db.requests) + [id];
    db.requests := db.requests + [q];
    r := Ok(201, q);
  }

  /** The position the page sends never reaches the table. */
  lemma RequestIgnoresPosition(b: RequestBody, p: Option<Id>, id: Id)
    requires CompleteRequestBody(b)
    ensures PendingFrom(b.(positionId := p), id) == PendingFrom(b, id)
  {
  }
}
