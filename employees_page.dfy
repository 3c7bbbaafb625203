/**
 * The administrator's employees page: the add-employee modal (name, email,
 * password and a multi-select of positions, cleared whenever the modal
 * closes) and the edit-positions modal (a multi-select initialised from the
 * employee's current positions). Both multi-selects toggle an id on each
 * checkbox change.
 */
module EmployeesPage {
  import opened Wrappers

  /** `ids.filter(id => id !== p)`. */
  function RemoveAll(ids: seq<string>, p: string): (r: seq<string>)
    ensures |r| <= |ids|
    ensures forall x :: x in r <==> x in ids && x != p
    ensures multiset(r) == multiset(ids)[p := 0]
  {
    if ids == [] then []
    else
      assert ids == [ids[0]] + ids[1..];
      if ids[0] == p then RemoveAll(ids[1..], p) else [ids[0]] + RemoveAll(ids[1..], p)
  }

  /** `handlePositionChange`: remove every copy of a selected id, or append an unselected one at the end. */
  function Toggle(ids: seq<string>, p: string): (r: seq<string>)
    ensures p in r <==> p !in ids
    ensures forall q :: q != p ==> (q in r <==> q in ids)
  {
    if p in ids then RemoveAll(ids, p) else ids + [p]
  }

  /** After a toggle `p` is selected exactly when it was not before, and every other id keeps its state. */
  lemma ToggleFlips(ids: seq<string>, p: string)
    ensures p in Toggle(ids, p) <==> p !in ids
    ensures forall q :: q != p ==> (q in Toggle(ids, p) <==> q in ids)
    ensures p !in ids ==> Toggle(ids, p) == ids + [p]
  {
  }

  /** Toggling an unselected id twice gives back the selection it started from. */
  lemma {:induction false} ToggleTwice(ids: seq<string>, p: string)
    requires p !in ids
    ensures Toggle(Toggle(ids, p), p) == ids
  {
    RemoveAppended(ids, p);
  }

  lemma {:induction false} RemoveAppended(ids: seq<string>, p: string)
    requires p !in ids
    ensures RemoveAll(ids + [p], p) == ids
  {
    if ids == [] {
      assert [p][1..] == [];
    } else {
      assert (ids + [p])[1..] == ids[1..] + [p];
      RemoveAppended(ids[1..], p);
      assert ids == [ids[0]] + ids[1..];
    }
  }

  datatype Position = Position(id: string, name: string)

  /** What the add modal hands to the page: the three fields and the selected positions. */
  datatype NewEmployee = NewEmployee(name: string, email: string, password: string, positionIds: seq<string>)

  class AddEmployeeModal {
    var isOpen: bool
    var name: string
    var email: string
    var password: string
    var selectedPositions: seq<string>
    var isLoading: bool

    constructor (isOpen: bool)
      ensures this.isOpen == isOpen && name == "" && email == "" && password == ""
      ensures selectedPositions == [] && !isLoading
    {
      this.isOpen := isOpen;
      name, email, password := "", "", "";
      selectedPositions := [];
      isLoading := false;
    }

    /** A checkbox change. */
    method PositionChange(p: string)
      modifies this`selectedPositions
      ensures selectedPositions == Toggle(old(selectedPositions), p)
    {
      selectedPositions := Toggle(selectedPositions, p);
    }

    /** The page opens or closes the modal; closing clears every field and the selection. */
    method SetOpen(open: bool)
      modifies this
      ensures isOpen == open && isLoading == old(isLoading)
      ensures !open ==> name == "" && email == "" && password == "" && selectedPositions == []
      ensures open ==> name == old(name) && email == old(email) && password == old(password) && selectedPositions == old(selectedPositions)
    {
      isOpen := open;
      if !open {
        name, email, password := "", "", "";
        selectedPositions := [];
      }
    }

    /** `handleSubmit`: hands the fields and the selection to the page; loading is over when it returns. */
    method Submit() returns (data: NewEmployee)
      modifies this`isLoading
      ensures data == NewEmployee(name, email, password, selectedPositions)
      ensures !isLoading
    {
      isLoading := true;
      data := NewEmployee(name, email, password, selectedPositions);
      isLoading := false;
    }
  }

  datatype Employee = Employee(id: string, name: string, email: string, positions: seq<Position>)

  /** The ids of an employee's positions, in order. */
  function PositionIds(ps: seq<Position>): (ids: seq<string>)
    ensures |ids| == |ps| && forall i :: 0 <= i < |ps| ==> ids[i] == ps[i].id
  {
    seq(|ps|, i requires 0 <= i < |ps| => ps[i].id)
  }

  class EditPositionsModal {
    var employee: Option<Employee>
    var selectedPositionIds: seq<string>
    var isLoading: bool

    constructor ()
      ensures employee.None? && selectedPositionIds == [] && !isLoading
    {
      employee := None;
      selectedPositionIds := [];
      isLoading := false;
    }

    /**
     * The page passes an employee prop. The `[employee]` effect runs only when the
     * prop changes: a different employee resets the selection to that employee's
     * position ids; the same employee again, or `null`, keeps the selection as it was.
     */
    method SetEmployee(e: Option<Employee>)
      modifies this`employee, this`selectedPositionIds
      ensures employee == e
      ensures e != old(employee) && e.Some? ==> selectedPositionIds == PositionIds(e.value.positions)
      ensures e == old(employee) || e.None? ==> selectedPositionIds == old(selectedPositionIds)
    {
      if e != employee && e.Some? {
        selectedPositionIds := PositionIds(e.value.positions);
      }
      employee := e;
    }

    method PositionChange(p: string)
      modifies this`selectedPositionIds
      ensures selectedPositionIds == Toggle(old(selectedPositionIds), p)
    {
      selectedPositionIds := Toggle(selectedPositionIds, p);
    }

    /** `handleSubmit`, reachable only while an employee is shown: that employee's id and the selection. */
    method Submit() returns (employeeId: string, positionIds: seq<string>)
      requires employee.Some?
      modifies this`isLoading
      ensures employeeId == employee.value.id && positionIds == selectedPositionIds
      ensures !isLoading
    {
      isLoading := true;
      employeeId, positionIds := employee.value.id, selectedPositionIds;
      isLoading := false;
    }
  }
}
