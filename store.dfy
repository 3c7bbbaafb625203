/**
 * The database tables the routes read and write (users, shifts, shift
 * requests), held in memory. Every row gets its id from one counter, so the
 * ids of users and of requests grow along their tables; a password is only
 * ever stored hashed.
 */
module Store {
  import opened Wrappers
  import opened Civil

  type Id = nat

  datatype ShiftStatus = Draft | Confirmed

  datatype Shift = Shift(
    id: Id,
    userId: Id,
    positionId: Id,
    date: Date,
    startTime: string,
    endTime: string,
    status: ShiftStatus)

  /** A shift request; `shiftId` links it to the shift made from it. */
  datatype ShiftRequest = ShiftRequest(
    id: Id,
    employeeId: Id,
    date: Date,
    startTime: string,
    endTime: string,
    status: string,
    positionId: Option<Id>,
    shiftId: Option<Id>)

  /** `hash(plain, rounds)`: a bcrypt hash, kept symbolic. */
  datatype Password = Hashed(rounds: nat, plain: string)

  datatype User = User(id: Id, name: string, email: string, password: Password, role: string)

  /** A user as the routes send it back: everything but the password. */
  datatype UserView = UserView(id: Id, name: string, email: string, role: string)

  function View(u: User): (v: UserView)
    ensures v.id == u.id && v.name == u.name && v.email == u.email && v.role == u.role
  {
    UserView(u.id, u.name, u.email, u.role)
  }

  /** A route's answer: a status with a value, or a status with an error message. */
  datatype Reply<T> = Ok(status: int, value: T) | Fail(status: int, message: string)

  predicate HasEmail(users: seq<User>, email: string)
  {
    exists i :: 0 <= i < |users| && users[i].email == email
  }

  /** `email` is a unique column. */
  ghost predicate UniqueEmails(users: seq<User>)
  {
    forall i, j :: 0 <= i < j < |users| ==> users[i].email != users[j].email
  }

  /** Ids below `next`, strictly increasing along a table. */
  ghost predicate IdsBelow(ids: seq<Id>, next: Id)
  {
    && (forall i :: 0 <= i < |ids| ==> ids[i] < next)
    && (forall i, j :: 0 <= i < j < |ids| ==> ids[i] < ids[j])
  }

  function UserIds(users: seq<User>): (ids: seq<Id>)
    ensures |ids| == |users| && forall i :: 0 <= i < |users| ==> ids[i] == users[i].id
  {
    seq(|users|, i requires 0 <= i < |users| => users[i].id)
  }

  function RequestIds(requests: seq<ShiftRequest>): (ids: seq<Id>)
    ensures |ids| == |requests| && forall i :: 0 <= i < |requests| ==> ids[i] == requests[i].id
  {
    seq(|requests|, i requires 0 <= i < |requests| => requests[i].id)
  }

  ghost predicate ValidDates(shifts: seq<Shift>)
  {
    forall i :: 0 <= i < |shifts| ==> ValidDate(shifts[i].date)
  }

  /** Appending a row with the next id keeps the ids below the advanced counter and increasing. */
  lemma IdsAppend(ids: seq<Id>, next: Id)
    requires IdsBelow(ids, next)
    ensures IdsBelow(ids + [next], next + 1)
  {
  }

  /** A new row keeps emails unique when its email is not taken yet. */
  lemma {:induction false} AddUserUnique(users: seq<User>, u: User)
    requires UniqueEmails(users) && !HasEmail(users, u.email)
    ensures UniqueEmails(users + [u]) && HasEmail(users + [u], u.email)
  {
    var all := users + [u];
    assert all[|users|] == u;
    forall i, j | 0 <= i < j < |all|
      ensures all[i].email != all[j].email
    {
      if j == |users| {
        assert all[i] == users[i];
      } else {
        assert all[i] == users[i] && all[j] == users[j];
      }
    }
  }

  class Db {
    var users: seq<User>
    var shifts: seq<Shift>
    var requests: seq<ShiftRequest>
    var nextId: Id

    ghost predicate Valid()
      reads this
    {
      && IdsBelow(UserIds(users), nextId)
      && IdsBelow(RequestIds(requests), nextId)
      && UniqueEmails(users)
      && ValidDates(shifts)
    }

    constructor ()
      ensures Valid()
      ensures users == [] && shifts == [] && requests == []
    {
      users := [];
      shifts := [];
      requests := [];
      nextId := 0;
    }

    /** A fresh id, larger than every id in every table. */
    method NewId() returns (id: Id)
      requires Valid()
      modifies this`nextId
      ensures id == old(nextId) && nextId == id + 1
      ensures Valid()
    {
      id := nextId;
      nextId := nextId + 1;
    }

    /** `prisma.user.create`: one new row with the next id; the email must not be taken. */
    method AddUser(name: string, email: string, password: Password, role: string) returns (u: User)
      requires Valid() && !HasEmail(users, email)
      modifies this
      ensures u == User(old(nextId), name, email, password, role)
      ensures users == old(users) + [u] && nextId == old(nextId) + 1
      ensures shifts == old(shifts) && requests == old(requests)
      ensures Valid()
    {
      var id := NewId();
      u := User(id, name, email, password, role);
      AddUserUnique(users, u);
      IdsAppend(UserIds(users), id);
      assert UserIds(users + [u]) == UserIds(users) + [id];
      users := users + [u];
    }
  }
}
