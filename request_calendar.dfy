/**
 * The employee shift-request calendar: for every day it shows how many
 * requests were made against how many staff the weekday's rules require,
 * a badge per rule with the requests placed on that rule's position, and
 * lets the employee open a request of their own for editing.
 * Weekdays are numbered as `getDay` numbers them: Sunday is 0.
 */
module RequestCalendar {
  import opened Wrappers
  import opened Civil
  import opened Dict
  import Seqs
  import Text

  /** A staffing rule (`RequiredStaff`): `count` people for a position in a time slot on one weekday. */
  datatype Rule = Rule(id: string, positionId: string, dayOfWeek: int, timeSlot: string, count: int)

  /** A shift request as the calendar receives it; an empty `positionId` stands for none. */
  datatype Request = Request(
    id: string,
    userId: string,
    date: Date,
    positionId: string,
    startTime: string,
    endTime: string,
    status: string)

  /** The rules whose weekday is `dow`. */
  function RulesFor(rules: seq<Rule>, dow: int): (r: seq<Rule>)
  {
    Seqs.Filter(rules, (rule: Rule) => rule.dayOfWeek == dow)
  }

  /** `rules.reduce((acc, rule) => acc + rule.count, 0)`. */
  function SumCounts(rules: seq<Rule>): int
  {
    if rules == [] then 0 else SumCounts(rules[..|rules| - 1]) + rules[|rules| - 1].count
  }

  /** A sum over the whole rule table in which rules for other weekdays weigh nothing. */
  function WeekdayDemand(rules: seq<Rule>, dow: int): int
  {
    if rules == [] then 0
    else
      var last := rules[|rules| - 1];
      WeekdayDemand(rules[..|rules| - 1], dow) + (if last.dayOfWeek == dow then last.count else 0)
  }

  /** `getRequiredCountForDate`: the sum of the counts of the rules for the date's weekday. */
  function RequiredCount(rules: seq<Rule>, date: Date): (n: int)
    requires 1 <= date.month <= 12
    ensures n == WeekdayDemand(rules, Weekday(date))
  {
    SumOfFilteredRules(rules, Weekday(date));
    SumCounts(RulesFor(rules, Weekday(date)))
  }

  /** Adding up the filtered rules is the same as adding up every rule, counting other weekdays as 0. */
  lemma {:induction false} SumOfFilteredRules(rules: seq<Rule>, dow: int)
    ensures SumCounts(RulesFor(rules, dow)) == WeekdayDemand(rules, dow)
    decreases |rules|
  {
    if rules != [] {
      var init := rules[..|rules| - 1];
      var last := rules[|rules| - 1];
      assert rules == init + [last];
      SumOfFilteredRules(init, dow);
      Seqs.FilterConcat(init, [last], (rule: Rule) => rule.dayOfWeek == dow);
      SumCountsConcat(RulesFor(init, dow), RulesFor([last], dow));
    }
  }

  /** Sums over two pieces of a rule list add up. */
  lemma {:induction false} SumCountsConcat(a: seq<Rule>, b: seq<Rule>)
    ensures SumCounts(a + b) == SumCounts(a) + SumCounts(b)
    decreases |b|
  {
    if b != [] {
      var bi := b[..|b| - 1];
      assert (a + b)[..|a + b| - 1] == a + bi;
      SumCountsConcat(a, bi);
    } else {
      assert a + b == a;
    }
  }

  /** The required count of a day covers every position: adding rules for the day adds their counts. */
  lemma RequiredCountAdditive(a: seq<Rule>, b: seq<Rule>, date: Date)
    requires 1 <= date.month <= 12
    ensures RequiredCount(a + b, date) == RequiredCount(a, date) + RequiredCount(b, date)
  {
    Seqs.FilterConcat(a, b, (rule: Rule) => rule.dayOfWeek == Weekday(date));
    SumCountsConcat(RulesFor(a, Weekday(date)), RulesFor(b, Weekday(date)));
  }

  /** A rule table with no negative counts never requires a negative number of people. */
  lemma {:induction false} RequiredCountNonNegative(rules: seq<Rule>, dow: int)
    requires forall i :: 0 <= i < |rules| ==> rules[i].count >= 0
    ensures WeekdayDemand(rules, dow) >= 0
    decreases |rules|
  {
    if rules != [] {
      RequiredCountNonNegative(rules[..|rules| - 1], dow);
    }
  }

  // Time slots offered for the selected date.

  /** `Array.prototype.indexOf`: the first position of `x`, or -1. */
  function IndexOf<T(==)>(s: seq<T>, x: T): (r: int)
    ensures -1 <= r < |s|
    ensures r >= 0 ==> s[r] == x
    ensures r == -1 <==> x !in s
  {
    if s == [] then -1
    else if s[0] == x then 0
    else
      var r := IndexOf(s[1..], x);
      assert x in s[1..] ==> x in s;
      if r == -1 then -1 else r + 1
  }

  /** No earlier position holds `x`. */
  lemma {:induction false} IndexOfFirst<T>(s: seq<T>, x: T, j: int)
    requires 0 <= j < IndexOf(s, x)
    ensures s[j] != x
  {
    if j > 0 {
      IndexOfFirst(s[1..], x, j - 1);
    }
  }

  /**
   * `s.filter((value, index, self) => first(value) === index)` over the positions
   * from `i` on, for a position-of-first-appearance function `first`.
   */
  function KeepFirstFrom<T>(s: seq<T>, i: nat, first: T -> int): (r: seq<T>)
    requires i <= |s|
    ensures forall k :: 0 <= k < |r| ==> first(r[k]) >= i
    decreases |s| - i
  {
    if i == |s| then []
    else (if first(s[i]) == i then [s[i]] else []) + KeepFirstFrom(s, i + 1, first)
  }

  /** `s.filter((value, index, self) => self.indexOf(value) === index)`. */
  function FirstOccurrences<T(==)>(s: seq<T>): seq<T>
  {
    KeepFirstFrom(s, 0, x => IndexOf(s, x))
  }

  /** No element appears twice. */
  predicate NoDuplicates<T(==)>(s: seq<T>)
  {
    forall i, j :: 0 <= i < j < |s| ==> s[i] != s[j]
  }

  /** `first` behaves as `indexOf` does on the elements of `s`. */
  ghost predicate FindsFirst<T>(s: seq<T>, first: T -> int)
  {
    forall j :: 0 <= j < |s| ==> 0 <= first(s[j]) <= j && s[first(s[j])] == s[j]
  }

  /** Keeping first appearances from position `i` keeps every element whose first appearance is at `i` or later. */
  lemma {:induction false} KeepFirstFromComplete<T>(s: seq<T>, i: nat, first: T -> int)
    requires i <= |s| && FindsFirst(s, first)
    ensures forall j :: i <= j < |s| && first(s[j]) >= i ==> s[j] in KeepFirstFrom(s, i, first)
    decreases |s| - i
  {
    if i < |s| {
      KeepFirstFromComplete(s, i + 1, first);
      var rest := KeepFirstFrom(s, i + 1, first);
      var r := KeepFirstFrom(s, i, first);
      assert r == (if first(s[i]) == i then [s[i]] else []) + rest;
      forall j | i <= j < |s| && first(s[j]) >= i ensures s[j] in r {
        if first(s[j]) >= i + 1 {
          assert s[j] in rest;
        } else {
          assert s[i] == s[j];
          assert r[0] == s[j];
        }
      }
    }
  }

  /** Keeping first appearances from position `i` lists the elements in order of first appearance. */
  lemma {:induction false} KeepFirstFromOrdered<T>(s: seq<T>, i: nat, first: T -> int)
    requires i <= |s|
    ensures forall a, b :: 0 <= a < b < |KeepFirstFrom(s, i, first)| ==>
      first(KeepFirstFrom(s, i, first)[a]) < first(KeepFirstFrom(s, i, first)[b])
    decreases |s| - i
  {
    if i < |s| {
      KeepFirstFromOrdered(s, i + 1, first);
      var rest := KeepFirstFrom(s, i + 1, first);
      var r := KeepFirstFrom(s, i, first);
      if first(s[i]) == i {
        assert r == [s[i]] + rest;
        forall a, b | 0 <= a < b < |r| ensures first(r[a]) < first(r[b]) {
          assert r[b] == rest[b - 1] && first(rest[b - 1]) >= i + 1;
          if a > 0 {
            assert r[a] == rest[a - 1];
          } else {
            assert first(r[a]) == i;
          }
        }
      } else {
        assert r == rest;
      }
    }
  }

  /** `indexOf` finds first appearances. */
  lemma IndexOfFindsFirst<T>(s: seq<T>)
    ensures FindsFirst(s, x => IndexOf(s, x))
  {
    forall j | 0 <= j < |s| ensures 0 <= IndexOf(s, s[j]) <= j && s[IndexOf(s, s[j])] == s[j] {
      if IndexOf(s, s[j]) > j {
        IndexOfFirst(s, s[j], j);
      }
    }
  }

  /** The de-duplicated list: exactly the elements of `s`, none twice, in order of first appearance. */
  lemma FirstOccurrencesSpec<T>(s: seq<T>)
    ensures forall x :: x in FirstOccurrences(s) <==> x in s
    ensures NoDuplicates(FirstOccurrences(s))
    ensures forall a, b :: 0 <= a < b < |FirstOccurrences(s)| ==>
      IndexOf(s, FirstOccurrences(s)[a]) < IndexOf(s, FirstOccurrences(s)[b])
  {
    var first := x => IndexOf(s, x);
    var r := KeepFirstFrom(s, 0, first);
    assert r == FirstOccurrences(s);
    IndexOfFindsFirst(s);
    KeepFirstFromComplete(s, 0, first);
    KeepFirstFromOrdered(s, 0, first);
    forall x | x in s ensures x in r {
      var j :| 0 <= j < |s| && s[j] == x;
      assert first(s[j]) >= 0;
    }
    forall x | x in r ensures x in s {
      var k :| 0 <= k < |r| && r[k] == x;
      assert first(r[k]) >= 0;
    }
    forall a, b | 0 <= a < b < |r| ensures r[a] != r[b] {
      assert first(r[a]) < first(r[b]);
    }
  }

  /** `availableTimeSlotsForDate`: the time slots of the selected weekday's rules, each once; none without a date. */
  function AvailableSlots(selected: Option<Date>, rules: seq<Rule>): (slots: seq<string>)
    requires selected.Some? ==> 1 <= selected.value.month <= 12
    ensures selected.None? ==> slots == []
  {
    if selected.None? then []
    else FirstOccurrences(SlotsOf(RulesFor(rules, Weekday(selected.value))))
  }

  /** `.map(rs => rs.timeSlot)`. */
  function SlotsOf(rules: seq<Rule>): (slots: seq<string>)
    ensures |slots| == |rules|
    ensures forall i :: 0 <= i < |rules| ==> slots[i] == rules[i].timeSlot
  {
    seq(|rules|, i requires 0 <= i < |rules| => rules[i].timeSlot)
  }

  /** A slot is offered for a selected date exactly when some rule of that weekday has it, and none is offered twice. */
  lemma AvailableSlotsSpec(date: Date, rules: seq<Rule>, slot: string)
    requires 1 <= date.month <= 12
    ensures slot in AvailableSlots(Some(date), rules) <==>
      exists i :: 0 <= i < |rules| && rules[i].dayOfWeek == Weekday(date) && rules[i].timeSlot == slot
    ensures NoDuplicates(AvailableSlots(Some(date), rules))
  {
    WeekdaySlots(Weekday(date), rules, slot);
  }

  /** The same for the rules of one weekday `w`. */
  lemma WeekdaySlots(w: int, rules: seq<Rule>, slot: string)
    ensures slot in FirstOccurrences(SlotsOf(RulesFor(rules, w))) <==>
      exists i :: 0 <= i < |rules| && rules[i].dayOfWeek == w && rules[i].timeSlot == slot
    ensures NoDuplicates(FirstOccurrences(SlotsOf(RulesFor(rules, w))))
  {
    var matching := RulesFor(rules, w);
    var slots := SlotsOf(matching);
    FirstOccurrencesSpec(slots);
    if slot in slots {
      var k :| 0 <= k < |slots| && slots[k] == slot;
      var i :| 0 <= i < |rules| && rules[i] == matching[k];
      assert rules[i].dayOfWeek == w && rules[i].timeSlot == slot;
    }
    if exists i :: 0 <= i < |rules| && rules[i].dayOfWeek == w && rules[i].timeSlot == slot {
      var i :| 0 <= i < |rules| && rules[i].dayOfWeek == w && rules[i].timeSlot == slot;
      assert rules[i] in matching;
      var k :| 0 <= k < |matching| && matching[k] == rules[i];
      assert slots[k] == slot;
    }
  }

  // Requests placed per position on one day.

  /** `getRequestsForDate`: the requests made for that day. */
  function RequestsOn(requests: seq<Request>, date: Date): (r: seq<Request>)
    ensures forall i :: 0 <= i < |r| ==> r[i] in requests && r[i].date == date
    ensures forall i :: 0 <= i < |requests| && requests[i].date == date ==> requests[i] in r
  {
    Seqs.Filter(requests, (req: Request) => req.date == date)
  }

  /** How many of the requests name position `pid`. */
  function CountFor(requests: seq<Request>, pid: string): nat
  {
    if requests == [] then 0
    else CountFor(requests[..|requests| - 1], pid) + (if requests[|requests| - 1].positionId == pid then 1 else 0)
  }

  /** How many of the requests name any position. */
  function CountPositioned(requests: seq<Request>): (n: nat)
    ensures n <= |requests|
  {
    if requests == [] then 0
    else CountPositioned(requests[..|requests| - 1]) + (if requests[|requests| - 1].positionId != "" then 1 else 0)
  }

  /** The sum of the values of a counting dictionary. */
  function SumValues(d: Dict<nat>): nat
  {
    if d == [] then 0 else d[0].1 + SumValues(d[1..])
  }

  /** Setting a key replaces its first value in the sum. */
  lemma {:induction false} SumValuesSet(d: Dict<nat>, k: string, v: nat)
    ensures SumValues(Set(d, k, v)) + Get(d, k).GetOr(0) == SumValues(d) + v
    decreases |d|
  {
    if d != [] && d[0].0 != k {
      SumValuesSet(d[1..], k, v);
      assert Set(d, k, v)[1..] == Set(d[1..], k, v);
    } else if d != [] {
      assert Set(d, k, v)[1..] == d[1..];
    }
  }

  /** The counters agree with the requests `seen`: one per position id, none for the empty id, summing to the positioned requests. */
  ghost predicate Tallies(acc: Dict<nat>, seen: seq<Request>)
  {
    && (forall pid :: pid != "" ==> Get(acc, pid).GetOr(0) == CountFor(seen, pid))
    && !HasKey(acc, "")
    && SumValues(acc) == CountPositioned(seen)
  }

  /** The `reduce` callback: a request with a position bumps that position's counter. */
  function Bump(acc: Dict<nat>, req: Request): Dict<nat>
  {
    if req.positionId != "" then Set(acc, req.positionId, Get(acc, req.positionId).GetOr(0) + 1) else acc
  }

  /** `requestsByPosition` as the `reduce` builds it: one counter per position id, skipping requests without one. */
  method RequestsByPosition(day: seq<Request>) returns (acc: Dict<nat>)
    ensures forall pid :: pid != "" ==> Get(acc, pid).GetOr(0) == CountFor(day, pid)
    ensures !HasKey(acc, "")
    ensures SumValues(acc) == CountPositioned(day)
  {
    acc := [];
    var i := 0;
    while i < |day|
      invariant 0 <= i <= |day|
      invariant Tallies(acc, day[..i])
    {
      var req := day[i];
      BumpTallies(acc, day[..i], req);
      if req.positionId != "" {
        acc := Set(acc, req.positionId, Get(acc, req.positionId).GetOr(0) + 1);
      }
      assert day[..i + 1] == day[..i] + [req];
      i := i + 1;
    }
    assert day[..i] == day;
  }

  /** One step of the `reduce` keeps the counters in agreement with the requests seen. */
  lemma BumpTallies(acc: Dict<nat>, seen: seq<Request>, req: Request)
    requires Tallies(acc, seen)
    ensures Tallies(Bump(acc, req), seen + [req])
  {
    assert (seen + [req])[..|seen|] == seen;
    if req.positionId != "" {
      var v := Get(acc, req.positionId).GetOr(0) + 1;
      SumValuesSet(acc, req.positionId, v);
      SetKeys(acc, req.positionId, v, "");
    }
    forall pid | pid != "" ensures Get(Bump(acc, req), pid).GetOr(0) == CountFor(seen + [req], pid) {
      BumpCounter(acc, seen, req, pid);
    }
  }

  /** One step of the `reduce`, for one position id. */
  lemma BumpCounter(acc: Dict<nat>, seen: seq<Request>, req: Request, pid: string)
    requires pid != ""
    requires Get(acc, pid).GetOr(0) == CountFor(seen, pid)
    ensures Get(Bump(acc, req), pid).GetOr(0) == CountFor(seen + [req], pid)
  {
    CountForSnoc(seen, req, pid);
    if req.positionId != "" {
      GetSet(acc, req.positionId, Get(acc, req.positionId).GetOr(0) + 1, pid);
    }
  }

  lemma CountForSnoc(seen: seq<Request>, req: Request, pid: string)
    ensures CountFor(seen + [req], pid) == CountFor(seen, pid) + (if req.positionId == pid then 1 else 0)
  {
    assert (seen + [req])[..|seen|] == seen;
  }

  /** `requestsByPosition[rule.positionId] || 0`. */
  function Placed(byPosition: Dict<nat>, rule: Rule): nat
  {
    Get(byPosition, rule.positionId).GetOr(0)
  }

  /** The day total is shown in green: enough requests for a day that requires someone. */
  function Filled(requestCount: int, required: int): (b: bool)
    ensures required <= 0 ==> !b
    ensures b ==> requestCount >= 1
  {
    requestCount >= required && required > 0
  }

  /** A rule's badge is shown in orange: fewer placed than the rule's count. */
  function Deficient(byPosition: Dict<nat>, rule: Rule): (b: bool)
    ensures rule.count <= 0 ==> !b
    ensures Get(byPosition, rule.positionId).None? ==> (b <==> rule.count > 0)
  {
    Placed(byPosition, rule) < rule.count
  }

  /** A weekday without rules is never shown as filled, however many requests it has. */
  lemma NoRulesNeverFilled(rules: seq<Rule>, date: Date, requestCount: int)
    requires 1 <= date.month <= 12
    requires forall i :: 0 <= i < |rules| ==> rules[i].dayOfWeek != Weekday(date)
    ensures !Filled(requestCount, RequiredCount(rules, date))
  {
    assert RulesFor(rules, Weekday(date)) == [] by {
      Seqs.FilterLength(rules, (rule: Rule) => rule.dayOfWeek == Weekday(date));
    }
  }

  /** A position nobody asked for is deficient exactly when its rule requires someone. */
  lemma UnrequestedPositionDeficient(day: seq<Request>, byPosition: Dict<nat>, rule: Rule)
    requires rule.positionId != ""
    requires forall pid :: pid != "" ==> Get(byPosition, pid).GetOr(0) == CountFor(day, pid)
    requires forall i :: 0 <= i < |day| ==> day[i].positionId != rule.positionId
    ensures Deficient(byPosition, rule) <==> rule.count > 0
  {
    CountForAbsent(day, rule.positionId);
  }

  /** A position no request names counts 0. */
  lemma {:induction false} CountForAbsent(requests: seq<Request>, pid: string)
    requires forall i :: 0 <= i < |requests| ==> requests[i].positionId != pid
    ensures CountFor(requests, pid) == 0
    decreases |requests|
  {
    if requests != [] {
      CountForAbsent(requests[..|requests| - 1], pid);
    }
  }

  // The page: who is signed in, the selected day and the request being edited.

  /** `isOwner`: a signed-in user (a non-empty id) who made the request. */
  function IsOwner(currentUserId: Option<string>, req: Request): (b: bool)
    ensures b ==> req.userId != "" && currentUserId == Some(req.userId)
    ensures req.userId == "" ==> !b
  {
    currentUserId.Some? && currentUserId.value != "" && req.userId == currentUserId.value
  }

  /** What the request modal submits. */
  datatype Submission = Submission(startTime: string, endTime: string, positionId: string)

  /** The modal's fields before any effect has run. */
  const InitialFields: Submission := Submission("09:00", "17:00", "")

  /**
   * The modal's fields after a render with `requestToEdit`, from the fields it had
   * (`prev`) and the `requestToEdit` of the render before (`prevEdit`). The modal
   * stays mounted, so its `[requestToEdit]` effect runs only when that prop changes:
   * to the edited request's fields, or back to 09:00 to 17:00 with no position.
   * An unchanged prop keeps whatever the fields held, typed-in values included.
   */
  function ModalFields(prev: Submission, prevEdit: Option<Request>, requestToEdit: Option<Request>): (s: Submission)
    ensures requestToEdit == prevEdit ==> s == prev
    ensures requestToEdit != prevEdit && requestToEdit.None? ==> s == InitialFields
    ensures requestToEdit != prevEdit && requestToEdit.Some? ==>
      s.startTime == requestToEdit.value.startTime && s.endTime == requestToEdit.value.endTime &&
      s.positionId == requestToEdit.value.positionId
  {
    if requestToEdit == prevEdit then prev
    else match requestToEdit
      case None => InitialFields
      case Some(r) => Submission(r.startTime, r.endTime, r.positionId)
  }

  /**
   * Two new requests in a row share the modal's fields: after a new request whose
   * form was changed, the next new request opens with those changed fields, not
   * with 09:00 to 17:00 and no position.
   */
  lemma NewAfterNewKeepsFields(typed: Submission)
    requires typed != InitialFields
    ensures ModalFields(typed, None, None) == typed
    ensures ModalFields(typed, None, None) != InitialFields
  {
  }

  /** The modal's `handleSubmit`: refused without a position, otherwise the fields as entered. */
  function ModalSubmit(form: Submission): (r: Option<Submission>)
    ensures r.None? <==> form.positionId == ""
    ensures r.Some? ==> r.value == form
  {
    if form.positionId == "" then None else Some(form)
  }

  /**
   * Opening a request for edit and submitting it untouched sends back the request's
   * own times and position; a request without a position cannot be resubmitted so.
   */
  lemma EditResubmitsOwnFields(prev: Submission, prevEdit: Option<Request>, req: Request)
    requires prevEdit != Some(req)
    ensures ModalSubmit(ModalFields(prev, prevEdit, Some(req))).Some? <==> req.positionId != ""
    ensures ModalSubmit(ModalFields(prev, prevEdit, Some(req))).Some? ==>
      ModalSubmit(ModalFields(prev, prevEdit, Some(req))).value == Submission(req.startTime, req.endTime, req.positionId)
  {
  }

  /** The body `handleShiftRequestCreate` posts, or `None` when no date is selected or nobody is signed in. */
  datatype CreateBody = CreateBody(employeeId: string, date: string, positionId: string, startTime: string, endTime: string)

  function CreateRequestBody(selected: Option<Date>, currentUserId: Option<string>, data: Submission): (r: Option<CreateBody>)
    requires selected.Some? ==> ValidDate(selected.value)
    ensures r.Some? <==> selected.Some? && currentUserId.Some? && currentUserId.value != ""
    ensures r.Some? ==>
      && r.value.employeeId == currentUserId.value
      && r.value.positionId == data.positionId
      && r.value.startTime == data.startTime
      && r.value.endTime == data.endTime
  {
    if selected.None? || currentUserId.None? || currentUserId.value == "" then None
    else Some(CreateBody(currentUserId.value, Text.DateKey(selected.value), data.positionId, data.startTime, data.endTime))
  }

  /** The posted `yyyy-MM-dd` date reads back as the selected day (four-digit years). */
  lemma CreateRequestBodyDate(date: Date, currentUserId: string, data: Submission)
    requires ValidDate(date) && 1000 <= date.year <= 9999 && currentUserId != ""
    ensures Text.ParseDateKey(CreateRequestBody(Some(date), Some(currentUserId), data).value.date) == Some(date)
  {
    Text.DateKeyRoundTrip(date);
  }

  class ShiftRequestPage {
    var currentUserId: Option<string>
    var selectedDate: Option<Date>
    var requestToEdit: Option<Request>
    var isModalOpen: bool

    constructor (userId: Option<string>)
      ensures currentUserId == userId && selectedDate == None && requestToEdit == None && !isModalOpen
    {
      currentUserId := userId;
      selectedDate := None;
      requestToEdit := None;
      isModalOpen := false;
    }

    /** `handleOpenModalForNew`: a fresh request for the clicked day. */
    method OpenForNew(date: Date)
      modifies this`selectedDate, this`requestToEdit, this`isModalOpen
      ensures selectedDate == Some(date) && requestToEdit == None && isModalOpen
    {
      selectedDate := Some(date);
      requestToEdit := None;
      isModalOpen := true;
    }

    /** `handleOpenModalForEdit`: an approved request stays locked and nothing changes. */
    method OpenForEdit(req: Request)
      modifies this`selectedDate, this`requestToEdit, this`isModalOpen
      ensures req.status == "approved" ==>
        selectedDate == old(selectedDate) && requestToEdit == old(requestToEdit) && isModalOpen == old(isModalOpen)
      ensures req.status != "approved" ==>
        requestToEdit == Some(req) && selectedDate == Some(req.date) && isModalOpen
    {
      if req.status == "approved" {
        return;
      }
      requestToEdit := Some(req);
      selectedDate := Some(req.date);
      isModalOpen := true;
    }

    /** `handleCloseModal`. */
    method CloseModal()
      modifies this`selectedDate, this`requestToEdit, this`isModalOpen
      ensures selectedDate == None && requestToEdit == None && !isModalOpen
    {
      isModalOpen := false;
      selectedDate := None;
      requestToEdit := None;
    }

    /**
     * A click on a request card in a day cell. The owner's click stops there and
     * opens the edit flow; anyone else's click reaches the day cell, which opens a
     * new request for that day.
     */
    method ClickRequestCard(req: Request, day: Date)
      modifies this`selectedDate, this`requestToEdit, this`isModalOpen
      ensures IsOwner(currentUserId, req) && req.status == "approved" ==>
        selectedDate == old(selectedDate) && requestToEdit == old(requestToEdit) && isModalOpen == old(isModalOpen)
      ensures IsOwner(currentUserId, req) && req.status != "approved" ==>
        requestToEdit == Some(req) && selectedDate == Some(req.date) && isModalOpen
      ensures !IsOwner(currentUserId, req) ==> selectedDate == Some(day) && requestToEdit == None && isModalOpen
    {
      if IsOwner(currentUserId, req) {
        OpenForEdit(req);
      } else {
        OpenForNew(day);
      }
    }
  }
}
