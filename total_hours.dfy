/**
 * GET /api/shifts/total-hours: the signed-in user's worked time in a month.
 * The route sums the minutes of each of the user's shifts dated within the
 * month, then splits the sum into hours (`Math.floor(total / 60)`) and
 * remaining minutes (`total % 60`, JavaScript's truncating remainder).
 */
module TotalHours {
  import opened Wrappers
  import opened Civil
  import opened Js
  import opened Store
  import Seqs
  import ShiftRoutes

  const AuthRequiredMessage: string := "認証が必要です。"
  const MissingParamsMessage: string := "年と月のパラメータが必要です。"
  const TotalFailedMessage: string := "総勤務時間の計算中にエラーが発生しました。"

  /** The response body: whole hours and the minutes left over. */
  datatype Totals = Totals(hours: int, minutes: int)

  /** The rows `findMany` selects: the user's shifts dated within the month, whatever their status. */
  function Selected(userId: Id, y: int, m: int): Shift -> bool
  {
    (s: Shift) => s.userId == userId && ShiftRoutes.InMonth(y, m)(s)
  }

  /**
   * The minutes from a shift's start time to its end time, both read as
   * times on 1970-01-01; `None` stands for `NaN`, which an unreadable time gives.
   */
  function ShiftMinutes(s: Shift): (r: Option<int>)
    ensures r.Some? <==> TimeOfDay(s.startTime).Some? && TimeOfDay(s.endTime).Some?
    ensures r.Some? ==> TimeOfDay(s.startTime).value + r.value == TimeOfDay(s.endTime).value
  {
    match (TimeOfDay(s.startTime), TimeOfDay(s.endTime))
    case (Some(a), Some(b)) => Some(b - a)
    case _ => None
  }

  /** A shift has minutes exactly when both its times read; they take the start to the end, within a day either way. */
  lemma ShiftMinutesSpec(s: Shift)
    ensures ShiftMinutes(s).Some? <==> TimeOfDay(s.startTime).Some? && TimeOfDay(s.endTime).Some?
    ensures ShiftMinutes(s).Some? ==> -1440 <= ShiftMinutes(s).value <= 1440
    ensures ShiftMinutes(s).Some? ==> ShiftMinutes(s).value + TimeOfDay(s.startTime).value == TimeOfDay(s.endTime).value
  {
  }

  /** `total += minutes`: `NaN` absorbs everything added to it or adding to it. */
  function AddMinutes(a: Option<int>, b: Option<int>): Option<int>
  {
    if a.Some? && b.Some? then Some(a.value + b.value) else None
  }

  /** The reference sum: 0 for no shifts, each shift's minutes added in turn. */
  function SumMinutes(shifts: seq<Shift>): (r: Option<int>)
    ensures r.Some? ==> -1440 * |shifts| <= r.value <= 1440 * |shifts|
  {
    if shifts == [] then Some(0)
    else AddMinutes(SumMinutes(shifts[..|shifts| - 1]), ShiftMinutes(shifts[|shifts| - 1]))
  }

  /** The sum is a number exactly when every shift's times can be read. */
  lemma {:induction false} SumMinutesDefined(shifts: seq<Shift>)
    ensures SumMinutes(shifts).Some? <==> forall i :: 0 <= i < |shifts| ==> ShiftMinutes(shifts[i]).Some?
  {
    if shifts != [] {
      var init := shifts[..|shifts| - 1];
      SumMinutesDefined(init);
      assert forall i :: 0 <= i < |init| ==> init[i] == shifts[i];
    }
  }

  /** Summing two runs of shifts one after the other adds their sums. */
  lemma {:induction false} SumMinutesConcat(a: seq<Shift>, b: seq<Shift>)
    ensures SumMinutes(a + b) == AddMinutes(SumMinutes(a), SumMinutes(b))
    decreases |b|
  {
    if b == [] {
      assert a + b == a;
    } else {
      var b', last := b[..|b| - 1], b[|b| - 1];
      assert b == b' + [last] && a + b == (a + b') + [last];
      SumMinutesSnoc(b', last);
      SumMinutesSnoc(a + b', last);
      SumMinutesConcat(a, b');
      AddMinutesAssoc(SumMinutes(a), SumMinutes(b'), ShiftMinutes(last));
    }
  }

  /** One shift more adds that shift's minutes. */
  lemma SumMinutesSnoc(s: seq<Shift>, x: Shift)
    ensures SumMinutes(s + [x]) == AddMinutes(SumMinutes(s), ShiftMinutes(x))
  {
    assert (s + [x])[..|s|] == s;
  }

  lemma AddMinutesAssoc(p: Option<int>, q: Option<int>, r: Option<int>)
    ensures AddMinutes(AddMinutes(p, q), r) == AddMinutes(p, AddMinutes(q, r))
  {
  }

  /** The total does not depend on the order `findMany` returns the rows in. */
  lemma {:induction false} SumMinutesPermutation(a: seq<Shift>, b: seq<Shift>)
    requires multiset(a) == multiset(b)
    ensures SumMinutes(a) == SumMinutes(b)
    decreases |a|
  {
    if a == [] {
      assert |b| == |multiset(b)| == 0;
    } else {
      var x := a[|a| - 1];
      var a' := a[..|a| - 1];
      assert a == a' + [x];
      assert x in multiset(b) by {
        assert x in multiset(a);
      }
      var j :| 0 <= j < |b| && b[j] == x;
      Seqs.MultisetRemove(b, j);
      assert multiset(a) == multiset(a') + multiset{x};
      SumMinutesPermutation(a', b[..j] + b[j + 1..]);
      SumMinutesRemove(b, j);
    }
  }

  /** Taking one shift out of a run takes its minutes out of the sum. */
  lemma SumMinutesRemove(b: seq<Shift>, j: nat)
    requires j < |b|
    ensures SumMinutes(b) == AddMinutes(SumMinutes(b[..j] + b[j + 1..]), ShiftMinutes(b[j]))
  {
    var head, tail := b[..j], b[j + 1..];
    var front := head + [b[j]];
    Seqs.SplitAt(b, j);
    assert SumMinutes(front) == AddMinutes(SumMinutes(head), ShiftMinutes(b[j]));
    SumMinutesConcat(front, tail);
    SumMinutesConcat(head, tail);
    AddMinutesRotate(SumMinutes(head), ShiftMinutes(b[j]), SumMinutes(tail));
  }

  /** Adding two amounts in either order gives the same total. */
  lemma AddMinutesRotate(p: Option<int>, q: Option<int>, r: Option<int>)
    ensures AddMinutes(AddMinutes(p, q), r) == AddMinutes(AddMinutes(p, r), q)
  {
  }

  /** `Math.floor(total / 60)` hours and `total % 60` minutes. */
  function Split(total: int): (t: Totals)
    ensures total >= 0 ==> t.hours * 60 + t.minutes == total && 0 <= t.minutes < 60
    ensures total < 0 ==> t.hours < 0 && -60 < t.minutes <= 0
  {
    Totals(FloorDiv(total, 60), TruncRem(total, 60))
  }

  /** For a negative total that is not a whole number of hours the two halves no longer add up. */
  lemma SplitNegativeMismatch(total: int)
    requires total < 0 && total % 60 != 0
    ensures Split(total).hours * 60 + Split(total).minutes == total - 60
  {
  }

  /** -90 minutes comes back as -2 hours and -30 minutes, that is -150 minutes. */
  lemma SplitOfMinus90()
    ensures Split(-90) == Totals(-2, -30)
    ensures Split(-90).hours * 60 + Split(-90).minutes != -90
  {
    SplitNegativeMismatch(-90);
  }

  /** The split with a floored remainder, which adds back up for every total. */
  function FlooredSplit(total: int): (t: Totals)
    ensures t.hours * 60 + t.minutes == total && 0 <= t.minutes < 60
  {
    Totals(FloorDiv(total, 60), total - FloorDiv(total, 60) * 60)
  }

  /** The route's split agrees with the floored one except on negative totals that are not whole hours. */
  lemma SplitAgreesWithFloored(total: int)
    ensures total >= 0 || total % 60 == 0 ==> Split(total) == FlooredSplit(total)
    ensures total < 0 && total % 60 != 0 ==>
      Split(total).hours == FlooredSplit(total).hours && Split(total).minutes == FlooredSplit(total).minutes - 60
  {
  }

  /**
   * The handler: 401 without a signed-in user, 400 when year or month is
   * missing, 500 when one of them is not a number (the month bounds are
   * invalid dates and `toISOString` throws), otherwise the split total over
   * the user's shifts of the month; an unreadable shift time makes both
   * fields `NaN` (`None`).
   */
  method GetTotalHours(shifts: seq<Shift>, session: Option<Id>, year: JsValue, month: JsValue)
    returns (r: Reply<Option<Totals>>)
    ensures session.None? ==> r == Fail(401, AuthRequiredMessage)
    ensures session.Some? && (!Truthy(year) || !Truthy(month)) ==> r == Fail(400, MissingParamsMessage)
    ensures session.Some? && Truthy(year) && Truthy(month) && (ParseInt(year).None? || ParseInt(month).None?) ==>
      r == Fail(500, TotalFailedMessage)
    ensures session.Some? && Truthy(year) && Truthy(month) && ParseInt(year).Some? && ParseInt(month).Some? ==>
      var rows := Seqs.Filter(shifts, Selected(session.value, ParseInt(year).value, ParseInt(month).value));
      && r.Ok? && r.status == 200
      && (r.value.Some? <==> SumMinutes(rows).Some?)
      && (r.value.Some? ==> r.value.value == Split(SumMinutes(rows).value))
      && (rows == [] ==> r.value == Some(Totals(0, 0)))
  {
    if session.None? {
      return Fail(401, AuthRequiredMessage);
    }
    if !Truthy(year) || !Truthy(month) {
      return Fail(400, MissingParamsMessage);
    }
    var py, pm := ParseInt(year), ParseInt(month);
    if py.None? || pm.None? {
      return Fail(500, TotalFailedMessage);
    }
    var rows := Seqs.Filter(shifts, Selected(session.value, py.value, pm.value));
    var total := AccumulateMinutes(rows);
    assert Split(0) == Totals(0, 0) by {
      assert FloorDiv(0, 60) == 0 && TruncRem(0, 60) == 0;
    }
    if total.Some? {
      r := Ok(200, Some(Split(total.value)));
    } else {
      r := Ok(200, None);
    }
  }

  /** The `forEach` that adds each row's minutes to a running total starting at 0. */
  method AccumulateMinutes(rows: seq<Shift>) returns (total: Option<int>)
    ensures total == SumMinutes(rows)
  {
    total := Some(0);
    var i := 0;
    while i < |rows|
      invariant 0 <= i <= |rows|
      invariant total == SumMinutes(rows[..i])
    {
      assert rows[..i + 1][..i] == rows[..i];
      total := AddMinutes(total, ShiftMinutes(rows[i]));
      i := i + 1;
    }
    assert rows[..i] == rows;
  }
}
