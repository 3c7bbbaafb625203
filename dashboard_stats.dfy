/**
 * GET /api/admin/dashboard-stats: three numbers for the admin dashboard. The
 * count of shift requests whose status is the lower-case "pending"; the count
 * of shifts in the current week, from the Sunday on or before today up to
 * (not including) the Sunday after, with both bounds written as YYYY-MM-DD;
 * and a staffing-shortage count that is always 0.
 */
module DashboardStats {
  import opened Wrappers
  import opened Civil
  import opened Store
  import Text
  import Seqs

  datatype Stats = Stats(pendingRequestCount: nat, shiftsThisWeekCount: nat, staffingShortagesCount: nat)

  /** The request rows `count` selects: status exactly "pending". */
  function IsPending(q: ShiftRequest): (b: bool)
    ensures q.status == "pending" ==> b
    ensures q.status in {"PENDING", "approved", "rejected"} ==> !b
  {
    q.status == "pending"
  }

  /** `startOfWeek`: today moved back by its weekday, to the Sunday on or before it. */
  function WeekStart(today: Date): (r: Date)
    requires ValidDate(today)
    ensures ValidDate(r) && Weekday(r) == 0
    ensures DayNumber(r) <= DayNumber(today) < DayNumber(r) + 7
  {
    WeekdayAfter(today, -Weekday(today));
    AddDays(today, -Weekday(today))
  }

  /** `endOfWeek`: seven days after the start, the next Sunday. */
  function WeekEnd(today: Date): (r: Date)
    requires ValidDate(today)
    ensures ValidDate(r) && Weekday(r) == 0
    ensures DayNumber(r) == DayNumber(WeekStart(today)) + 7
    ensures DayNumber(today) < DayNumber(r) <= DayNumber(today) + 7
  {
    WeekdayWeekLater(WeekStart(today), AddDays(WeekStart(today), 7));
    AddDays(WeekStart(today), 7)
  }

  /** The two bounds as the route writes them: year, 1-based month and day, zero-padded, joined by '-'. */
  function WeekBounds(today: Date): (string, string)
    requires ValidDate(today)
  {
    (Text.DateKey(WeekStart(today)), Text.DateKey(WeekEnd(today)))
  }

  /** For four-digit years around today both bounds are well-formed keys that read back as the week's first day and the day after its last. */
  lemma WeekBoundsRead(today: Date)
    requires ValidDate(today) && 1001 <= today.year <= 9998
    ensures |WeekBounds(today).0| == 10 && |WeekBounds(today).1| == 10
    ensures Text.ParseDateKey(WeekBounds(today).0) == Some(WeekStart(today))
    ensures Text.ParseDateKey(WeekBounds(today).1) == Some(WeekEnd(today))
  {
    NearbyYears(WeekStart(today), today);
    NearbyYears(WeekEnd(today), today);
    Text.DateKeyRoundTrip(WeekStart(today));
    Text.DateKeyRoundTrip(WeekEnd(today));
  }

  /** The shift rows `count` selects: dated on or after the start and strictly before the end. */
  function ThisWeek(today: Date, s: Shift): (b: bool)
    requires ValidDate(today)
    ensures b ==> ValidDate(s.date) && DayNumber(today) - 6 <= DayNumber(s.date) <= DayNumber(today) + 6
  {
    ValidDate(s.date) && DayNumber(WeekStart(today)) <= DayNumber(s.date) < DayNumber(WeekEnd(today))
  }

  function InWeek(today: Date): Shift -> bool
    requires ValidDate(today)
  {
    (s: Shift) => ThisWeek(today, s)
  }

  /** The handler's answer for the tables and today's date. */
  function GetStats(requests: seq<ShiftRequest>, shifts: seq<Shift>, today: Date): (r: Stats)
    requires ValidDate(today)
    ensures r.pendingRequestCount == Seqs.CountIf(requests, IsPending) && r.pendingRequestCount <= |requests|
    ensures r.shiftsThisWeekCount == Seqs.CountIf(shifts, InWeek(today)) && r.shiftsThisWeekCount <= |shifts|
    ensures r.staffingShortagesCount == 0
  {
    Stats(Seqs.CountIf(requests, IsPending), Seqs.CountIf(shifts, InWeek(today)), 0)
  }

  /** A shift is counted exactly when it falls on one of the seven days from the week's Sunday on. */
  lemma InWeekIff(today: Date, s: Shift)
    requires ValidDate(today) && ValidDate(s.date)
    ensures ThisWeek(today, s) <==> exists k :: 0 <= k < 7 && s.date == AddDays(WeekStart(today), k)
  {
    if ThisWeek(today, s) {
      InWeekOffset(today, s);
    } else {
      OutsideWeekNoOffset(today, s);
    }
  }

  lemma InWeekOffset(today: Date, s: Shift)
    requires ValidDate(today) && ThisWeek(today, s)
    ensures exists k :: 0 <= k < 7 && s.date == AddDays(WeekStart(today), k)
  {
    var start := WeekStart(today);
    var k := DayNumber(s.date) - DayNumber(start);
    var d := AddDays(start, k);
    DayNumberInjective(s.date, d);
  }

  lemma OutsideWeekNoOffset(today: Date, s: Shift)
    requires ValidDate(today) && ValidDate(s.date) && !ThisWeek(today, s)
    ensures forall k :: 0 <= k < 7 ==> s.date != AddDays(WeekStart(today), k)
  {
  }

  /** The half-open window: a shift on the week's Sunday is counted, one on the following Sunday is not. */
  lemma WeekEdges(today: Date, s: Shift)
    requires ValidDate(today)
    ensures s.date == WeekStart(today) ==> ThisWeek(today, s)
    ensures s.date == WeekEnd(today) ==> !ThisWeek(today, s)
    ensures s.date == today ==> ThisWeek(today, s)
  {
  }

  /**
   * A request as POST /api/shift-requests stores it has status "PENDING",
   * which the dashboard's lower-case "pending" never matches: adding one
   * leaves the pending count as it was.
   */
  lemma NewRequestNotCounted(requests: seq<ShiftRequest>, shifts: seq<Shift>, today: Date, q: ShiftRequest)
    requires ValidDate(today) && q.status == "PENDING"
    ensures GetStats(requests + [q], shifts, today).pendingRequestCount == GetStats(requests, shifts, today).pendingRequestCount
  {
    Seqs.CountSnoc(requests, q, IsPending);
  }
}
