/**
 * The admin hour-grid shift editor: one row per employee, one 64-pixel
 * column per hour from 9:00 to 20:00, shifts drawn as bars that can be
 * created by clicking an empty cell, deleted, dragged and resized.
 * Hours are whole numbers; pixel offsets are whole numbers of pixels.
 */
module ShiftEditor {
  import opened Wrappers
  import Seqs
  import Text

  const CellWidth: int := 64
  const OpeningHour: int := 9
  const LastStartHour: int := 20
  const ClosingHour: int := 21
  const DefaultRole: string := "キッチン"

  datatype Employee = Employee(id: string, name: string, email: string, role: string)

  /** A bar on the grid: the shift occupies the hours [startHour, endHour). */
  datatype BarShift = BarShift(id: string, employeeId: string, startHour: int, endHour: int, role: string)

  datatype DragType = Move | ResizeLeft | ResizeRight

  /** What mouse-down captured: the dragged bar's id, the kind of drag, the mouse x and the bar's original hours. */
  datatype DragState = DragState(
    isDragging: bool,
    shiftId: Option<string>,
    dragType: Option<DragType>,
    startX: int,
    originalStartHour: int,
    originalEndHour: int)

  const Idle: DragState := DragState(false, None, None, 0, 0, 0)

  function Max(a: int, b: int): int { if a >= b then a else b }
  function Min(a: int, b: int): int { if a <= b then a else b }

  /** `Math.round(x / cellWidth)` for a whole pixel offset: the nearest number of cells, a half rounding up. */
  function RoundCells(x: int): (k: int)
    ensures CellWidth * k - CellWidth / 2 <= x < CellWidth * k + CellWidth / 2
  {
    (x + CellWidth / 2) / CellWidth
  }

  /** `positionToHour`: the hour whose column start is nearest to the pixel offset `x`. */
  function PositionToHour(x: int): (h: int)
    ensures CellWidth * (h - OpeningHour) - CellWidth / 2 <= x < CellWidth * (h - OpeningHour) + CellWidth / 2
  {
    RoundCells(x) + OpeningHour
  }

  /** Left edge of a bar in pixels (`getShiftStyle`'s `left`). */
  function BarLeft(s: BarShift): (px: int)
    ensures px >= 0
  {
    Max(0, (s.startHour - OpeningHour) * CellWidth)
  }

  /** Width of a bar in pixels (`getShiftStyle`'s `width`): never narrower than one column. */
  function BarWidth(s: BarShift): (px: int)
    ensures px >= CellWidth
  {
    Max(CellWidth, (s.endHour - s.startHour) * CellWidth)
  }

  /** Reading the bar's left edge back through `positionToHour` gives its start hour. */
  lemma BarLeftRoundTrip(s: BarShift)
    requires s.startHour >= OpeningHour
    ensures PositionToHour(BarLeft(s)) == s.startHour
  {
    var k := s.startHour - OpeningHour;
    assert BarLeft(s) == CellWidth * k;
    assert (CellWidth * k + CellWidth / 2) / CellWidth == k;
  }

  /** A bar of at least one hour spans exactly its hours, so its right edge reads back as the end hour. */
  lemma BarRightRoundTrip(s: BarShift)
    requires OpeningHour <= s.startHour < s.endHour
    ensures BarLeft(s) + BarWidth(s) == (s.endHour - OpeningHour) * CellWidth
    ensures PositionToHour(BarLeft(s) + BarWidth(s)) == s.endHour
  {
    var k := s.endHour - OpeningHour;
    assert BarLeft(s) + BarWidth(s) == CellWidth * k;
    assert (CellWidth * k + CellWidth / 2) / CellWidth == k;
  }

  /** `employees.find(e => e.id === id)?.role || 'キッチン'`. */
  function EmployeeRole(employees: seq<Employee>, id: string): (role: string)
    ensures role != ""
    ensures (forall i :: 0 <= i < |employees| ==> employees[i].id != id) ==> role == DefaultRole
    ensures forall i :: (0 <= i < |employees| && employees[i].id == id && employees[i].role != "" &&
                         (forall j :: 0 <= j < i ==> employees[j].id != id)) ==> role == employees[i].role
    ensures forall i :: (0 <= i < |employees| && employees[i].id == id && employees[i].role == "" &&
                         (forall j :: 0 <= j < i ==> employees[j].id != id)) ==> role == DefaultRole
  {
    match Seqs.FindIndex(employees, (e: Employee) => e.id == id)
    case None => DefaultRole
    case Some(k) => if employees[k].role == "" then DefaultRole else employees[k].role
  }

  /** The shift `shift` covers hour `hour` of employee `employeeId` (`handleCellClick`'s find). */
  predicate Covers(s: BarShift, employeeId: string, hour: int)
  {
    s.employeeId == employeeId && s.startHour <= hour && s.endHour > hour
  }

  /** Some shift of that employee already covers that hour. */
  predicate Booked(shifts: seq<BarShift>, employeeId: string, hour: int)
  {
    exists i :: 0 <= i < |shifts| && Covers(shifts[i], employeeId, hour)
  }

  /** The half-open hour ranges [s.startHour, s.endHour) and [from, to) share an hour. */
  predicate Overlaps(s: BarShift, from: int, to: int)
  {
    s.startHour < to && from < s.endHour
  }

  /**
   * With whole hours the click guard is exactly an overlap check: the one-hour
   * shift [hour, hour + 1) overlaps one of the employee's shifts iff the hour is booked.
   */
  lemma BookedIffOverlap(shifts: seq<BarShift>, employeeId: string, hour: int)
    ensures Booked(shifts, employeeId, hour) <==>
      exists i :: 0 <= i < |shifts| && shifts[i].employeeId == employeeId && Overlaps(shifts[i], hour, hour + 1)
  {
    if exists i :: 0 <= i < |shifts| && shifts[i].employeeId == employeeId && Overlaps(shifts[i], hour, hour + 1) {
      var i :| 0 <= i < |shifts| && shifts[i].employeeId == employeeId && Overlaps(shifts[i], hour, hour + 1);
      assert Covers(shifts[i], employeeId, hour);
    }
  }

  /** The new shift of a click lands on a free hour: after it, the hour is booked, so a second click adds nothing. */
  lemma ClickBooks(shifts: seq<BarShift>, s: BarShift, hour: int)
    requires s.startHour == hour && s.endHour == hour + 1
    ensures Booked(shifts + [s], s.employeeId, hour)
  {
    assert Covers((shifts + [s])[|shifts|], s.employeeId, hour);
  }

  /** `getShiftStyle`'s role colour: the four known roles have their own colour, any other role the grey default. */
  function RoleColor(role: string): (color: string)
    ensures color == "#6b7280" <==> role !in {"キッチン", "ホール", "レジ", "経理"}
  {
    if role == "キッチン" then "#ef4444"
    else if role == "ホール" then "#3b82f6"
    else if role == "レジ" then "#10b981"
    else if role == "経理" then "#8b5cf6"
    else "#6b7280"
  }

  /**
   * The hours a drag gives the dragged bar, from the hours captured at mouse-down
   * and the whole-cell mouse delta (`handleMouseMove`'s switch).
   */
  function DragSpan(t: Option<DragType>, os: int, oe: int, delta: int): (r: (int, int))
    // Move: the start follows the mouse, held to the opening hour below and the last start hour above.
    ensures t == Some(Move) ==>
      (os + delta < OpeningHour ==> r.0 == OpeningHour) &&
      (LastStartHour < os + delta ==> r.0 == LastStartHour) &&
      (OpeningHour <= os + delta <= LastStartHour ==> r.0 == os + delta)
    // Move: the end keeps the old duration unless that runs past closing, where it is cut off.
    ensures t == Some(Move) ==>
      (r.0 + (oe - os) <= ClosingHour ==> r.1 == r.0 + (oe - os)) &&
      (ClosingHour < r.0 + (oe - os) ==> r.1 == ClosingHour) &&
      (oe - os >= 1 ==> r.0 < r.1)
    // Resize-left: the end stays; the start follows the mouse, at least the opening hour and otherwise at most end - 1.
    ensures t == Some(ResizeLeft) ==>
      r.1 == oe &&
      (os + delta < OpeningHour || oe - 1 < OpeningHour ==> r.0 == OpeningHour) &&
      (OpeningHour <= oe - 1 < os + delta ==> r.0 == oe - 1) &&
      (OpeningHour <= os + delta <= oe - 1 ==> r.0 == os + delta)
    // Resize-right: the start stays; the end follows the mouse, at most closing and otherwise at least start + 1.
    ensures t == Some(ResizeRight) ==>
      r.0 == os &&
      (oe + delta < os + 1 || ClosingHour < os + 1 ==> r.1 == os + 1) &&
      (os + 1 <= ClosingHour < oe + delta ==> r.1 == ClosingHour) &&
      (os + 1 <= oe + delta <= ClosingHour ==> r.1 == oe + delta)
    ensures t == None ==> r == (os, oe)
  {
    match t
    case None => (os, oe)
    case Some(Move) =>
      var start := Max(OpeningHour, Min(LastStartHour, os + delta));
      (start, Min(ClosingHour, start + (oe - os)))
    case Some(ResizeLeft) => (Max(OpeningHour, Min(oe - 1, os + delta)), oe)
    case Some(ResizeRight) => (os, Max(os + 1, Min(ClosingHour, oe + delta)))
  }

  /**
   * One element of `handleMouseMove`'s map: the bar with the dragged id gets the
   * dragged hours, every other bar is returned as it is.
   */
  function MovedShift(s: BarShift, d: DragState, delta: int): (r: BarShift)
    ensures r.id == s.id && r.employeeId == s.employeeId && r.role == s.role
    ensures Some(s.id) != d.shiftId ==> r == s
    ensures Some(s.id) == d.shiftId ==>
      (r.startHour, r.endHour) == DragSpan(d.dragType, d.originalStartHour, d.originalEndHour, delta)
  {
    if Some(s.id) != d.shiftId then s
    else
      var span := DragSpan(d.dragType, d.originalStartHour, d.originalEndHour, delta);
      s.(startHour := span.0, endHour := span.1)
  }

  /** A drag depends only on what mouse-down captured and the delta: repeating a move changes nothing more. */
  lemma MovedShiftIdempotent(s: BarShift, d: DragState, delta: int)
    ensures MovedShift(MovedShift(s, d, delta), d, delta) == MovedShift(s, d, delta)
  {
  }

  /** A drag is live when it is marked dragging and has a non-empty shift id (`!dragState.shiftId` is false). */
  predicate Dragging(d: DragState)
  {
    d.isDragging && d.shiftId.Some? && d.shiftId.value != ""
  }

  /** The body of `handleMouseMove`'s map for one bar. */
  method MoveBar(s: BarShift, drag: DragState, deltaHours: int) returns (r: BarShift)
    ensures r == MovedShift(s, drag, deltaHours)
  {
    if Some(s.id) != drag.shiftId {
      r := s;
    } else {
      var newStartHour := drag.originalStartHour;
      var newEndHour := drag.originalEndHour;
      match drag.dragType {
        case Some(Move) =>
          newStartHour := Max(OpeningHour, Min(LastStartHour, drag.originalStartHour + deltaHours));
          var duration := drag.originalEndHour - drag.originalStartHour;
          newEndHour := Min(ClosingHour, newStartHour + duration);
        case Some(ResizeLeft) =>
          newStartHour := Max(OpeningHour, Min(newEndHour - 1, drag.originalStartHour + deltaHours));
        case Some(ResizeRight) =>
          newEndHour := Max(newStartHour + 1, Min(ClosingHour, drag.originalEndHour + deltaHours));
        case None =>
      }
      r := s.(startHour := newStartHour, endHour := newEndHour);
    }
  }

  const MockRoles: seq<string> := ["キッチン", "ホール", "レジ", "経理"]

  /** The placeholder shifts built from the loaded employees: four hours each, starting 10:00 to 13:00 in turn. */
  function MockShifts(employees: seq<Employee>): (r: seq<BarShift>)
    ensures |r| == |employees|
    ensures forall i :: 0 <= i < |r| ==>
      r[i].id == "shift-" + employees[i].id && r[i].employeeId == employees[i].id &&
      r[i].startHour == 10 + i % 4 && r[i].endHour - r[i].startHour == 4 &&
      r[i].role == MockRoles[i % 4]
  {
    seq(|employees|, i requires 0 <= i < |employees| =>
      BarShift("shift-" + employees[i].id, employees[i].id, 10 + i % 4, 14 + i % 4, MockRoles[i % 4]))
  }

  /** Every placeholder shift fits the grid: it starts after opening and ends by 17:00. */
  lemma MockShiftsInGrid(employees: seq<Employee>)
    ensures forall s :: s in MockShifts(employees) ==>
      OpeningHour <= s.startHour < s.endHour <= 17 && s.role in MockRoles
  {
    var r := MockShifts(employees);
    forall s | s in r ensures OpeningHour <= s.startHour < s.endHour <= 17 && s.role in MockRoles {
      var i :| 0 <= i < |r| && r[i] == s;
      assert r[i].role == MockRoles[i % 4];
    }
  }

  /** The page state: the loaded employees, the bars on the grid and the drag in progress. */
  class ShiftGrid {
    var employees: seq<Employee>
    var shifts: seq<BarShift>
    var drag: DragState

    constructor ()
      ensures employees == [] && shifts == [] && drag == Idle
    {
      employees := [];
      shifts := [];
      drag := Idle;
    }

    /** A successful employee fetch: keep the employees and lay out the placeholder shifts. */
    method LoadEmployees(data: seq<Employee>)
      modifies this`employees, this`shifts
      ensures employees == data && shifts == MockShifts(data)
    {
      employees := data;
      shifts := MockShifts(data);
    }

    /** `createNewShift`: append a one-hour shift; `now` stands for `Date.now()`. */
    method CreateNewShift(employeeId: string, startHour: int, now: int)
      modifies this`shifts
      ensures shifts == old(shifts) +
        [BarShift("shift-" + Text.IntToString(now), employeeId, startHour, startHour + 1, EmployeeRole(employees, employeeId))]
    {
      var s := BarShift("shift-" + Text.IntToString(now), employeeId, startHour, startHour + 1, EmployeeRole(employees, employeeId));
      shifts := shifts + [s];
    }

    /** `handleCellClick`: create a one-hour shift only where that employee has none. */
    method CellClick(employeeId: string, hour: int, now: int)
      modifies this`shifts
      ensures Booked(old(shifts), employeeId, hour) ==> shifts == old(shifts)
      ensures !Booked(old(shifts), employeeId, hour) ==>
        shifts == old(shifts) + [BarShift("shift-" + Text.IntToString(now), employeeId, hour, hour + 1, EmployeeRole(employees, employeeId))]
    {
      var existing := Seqs.FindIndex(shifts, (s: BarShift) => Covers(s, employeeId, hour));
      if existing.None? {
        CreateNewShift(employeeId, hour, now);
      }
    }

    /** `deleteShift`: keep the shifts whose id differs, in order. */
    method DeleteShift(shiftId: string)
      modifies this`shifts
      ensures shifts == Seqs.Filter(old(shifts), (s: BarShift) => s.id != shiftId)
    {
      shifts := Seqs.Filter(shifts, (s: BarShift) => s.id != shiftId);
    }

    /** `handleMouseDown`: capture the bar and the mouse position; no resize handle means a move. */
    method MouseDown(shift: BarShift, handle: Option<DragType>, mouseX: int)
      modifies this`drag
      ensures drag == DragState(true, Some(shift.id), Some(handle.GetOr(Move)), mouseX, shift.startHour, shift.endHour)
    {
      drag := DragState(true, Some(shift.id), Some(handle.GetOr(Move)), mouseX, shift.startHour, shift.endHour);
    }

    /** `handleMouseMove`: recompute the dragged bar from the captured hours and the rounded delta. */
    method MouseMove(currentX: int)
      modifies this`shifts
      ensures !Dragging(drag) ==> shifts == old(shifts)
      ensures Dragging(drag) ==> |shifts| == |old(shifts)|
      ensures Dragging(drag) ==>
        forall i :: 0 <= i < |shifts| ==> shifts[i] == MovedShift(old(shifts)[i], drag, RoundCells(currentX - drag.startX))
    {
      if !Dragging(drag) {
        return;
      }
      var deltaHours := RoundCells(currentX - drag.startX);
      var current := shifts;
      var moved: seq<BarShift> := [];
      var i := 0;
      while i < |current|
        invariant 0 <= i <= |current|
        invariant |moved| == i
        invariant forall k :: 0 <= k < i ==> moved[k] == MovedShift(current[k], drag, deltaHours)
      {
        var r := MoveBar(current[i], drag, deltaHours);
        moved := moved + [r];
        i := i + 1;
      }
      shifts := moved;
    }

    /** `handleMouseUp`: back to no drag. */
    method MouseUp()
      modifies this`drag
      ensures drag == Idle
    {
      drag := Idle;
    }
  }

  /** Deleting by id removes exactly the bars with that id and keeps the others in their order. */
  lemma DeleteShiftExact(shifts: seq<BarShift>, shiftId: string)
    ensures forall s :: s in Seqs.Filter(shifts, (s: BarShift) => s.id != shiftId) ==> s.id != shiftId
    ensures forall i :: 0 <= i < |shifts| && shifts[i].id != shiftId ==>
      shifts[i] in Seqs.Filter(shifts, (s: BarShift) => s.id != shiftId)
    ensures |Seqs.Filter(shifts, (s: BarShift) => s.id != shiftId)| ==
      |shifts| - Seqs.CountIf(shifts, (s: BarShift) => s.id == shiftId)
  {
    var keep := (s: BarShift) => s.id != shiftId;
    var gone := (s: BarShift) => s.id == shiftId;
    var r := Seqs.Filter(shifts, keep);
    forall s | s in r ensures s.id != shiftId {
      var i :| 0 <= i < |r| && r[i] == s;
    }
    Seqs.FilterLength(shifts, keep);
    Seqs.CountComplement(shifts, keep, gone);
  }
}
