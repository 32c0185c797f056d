/**
 * The user service of internal/core/usecases/services/user.service.go, which
 * talks to the `users` table through the generated queries of `UserDb`.
 * Each database round trip may fail with a driver error; `UserFaults` names
 * the one each round trip reports, if any.
 */
module UserServiceDb {
  import opened Wrappers
  import opened WrapErrors
  import opened Uuids
  import opened Models
  import Db = UserDb

  /** The driver error reported by the id lookup, the email lookup and the write. */
  datatype UserFaults = UserFaults(lookup: Option<Error>, byEmail: Option<Error>, write: Option<Error>)

  const NoFaults := UserFaults(None, None, None)

  const InvalidId: Error := ValidationErr("Invalid user ID format")
  const UserNotFound: Error := NotFoundErr("User not found")

  /** How a failed lookup is reported: a missing row is NotFound, anything else is Internal. */
  function LookupError(e: Error, message: string): (r: Error)
    ensures IsNoRows(e) ==> r == UserNotFound
    ensures !IsNoRows(e) ==> r == InternalErr(message, Some(e))
  {
    if IsNoRows(e) then UserNotFound else InternalErr(message, Some(e))
  }

  /** `GetUser`: a malformed id is rejected before the table is read. */
  function GetUser(rows: seq<Db.UserRow>, id: string, fault: Option<Error>): (r: Result<User, Error>)
    ensures Parse(id).None? ==> r == Err(InvalidId)
    ensures r.Ok? ==> (Parse(id).Some? && fault.None? &&
      exists i :: 0 <= i < |rows| && rows[i].id == Parse(id).value && r.value == Db.ToModel(rows[i]))
    ensures (Parse(id).Some? && fault.None? && Db.FindById(rows, Parse(id).value).None?) ==> r == Err(UserNotFound)
    ensures (Parse(id).Some? && fault.Some? && !IsNoRows(fault.value)) ==> r == Err(InternalErr("Failed to get user", fault))
    ensures (Parse(id).Some? && fault.Some?) ==> r == Err(LookupError(fault.value, "Failed to get user"))
    ensures (Parse(id).Some? && fault.None? && Db.FindById(rows, Parse(id).value).Some?) ==>
      r == Ok(Db.ToModel(rows[Db.FindById(rows, Parse(id).value).value]))
  {
    var uid := Parse(id);
    if uid.None? then Err(InvalidId)
    else match Db.GetUser(rows, uid.value, fault)
      case Ok(row) => Ok(Db.ToModel(row))
      case Err(e) => Err(LookupError(e, "Failed to get user"))
  }

  /** `GetUserByEmail`. */
  function GetUserByEmail(rows: seq<Db.UserRow>, email: string, fault: Option<Error>): (r: Result<User, Error>)
    ensures r.Ok? ==> (fault.None? && exists i :: 0 <= i < |rows| && rows[i].email == email && r.value == Db.ToModel(rows[i]))
    ensures fault.None? ==> (r.Ok? <==> exists i :: 0 <= i < |rows| && rows[i].email == email)
    ensures (fault.None? && r.Err?) ==> r.error == UserNotFound
    ensures (fault.Some? && !IsNoRows(fault.value)) ==> r == Err(InternalErr("Failed to get user by email", fault))
  {
    match Db.GetUserByEmail(rows, email, fault)
    case Ok(row) => Ok(Db.ToModel(row))
    case Err(e) => Err(LookupError(e, "Failed to get user by email"))
  }

  /** An internal error is NotFound only through its cause. */
  lemma WrappedKindIsCauseKind(msg: string, e: Error)
    ensures IsNotFoundError(InternalErr(msg, Some(e))) <==> IsNotFoundError(e)
  {
  }

  /**
   * The email check that opens `CreateUser`: whether the email is taken, or
   * the error it stops with when the lookup fails other than by NotFound.
   */
  function EmailInUse(rows: seq<Db.UserRow>, email: string, fault: Option<Error>): (r: Result<bool, Error>)
    ensures fault.None? ==> r == Ok(Db.FindByEmail(rows, email).Some?)
    ensures (fault.Some? && IsNoRows(fault.value)) ==> r == Ok(false)
    ensures (fault.Some? && !IsNoRows(fault.value) && !IsNotFoundError(fault.value)) ==>
      r == Err(InternalErr("Could not check email", Some(InternalErr("Failed to get user by email", fault))))
  {
    var existing := GetUserByEmail(rows, email, fault);
    if existing.Err? && !IsNotFoundError(existing.error) then
      WrappedKindIsCauseKind("Failed to get user by email", existing.error);
      Err(InternalErr("Could not check email", Some(existing.error)))
    else Ok(existing.Ok?)
  }

  /** `CreateUser`: look the email up, refuse it if taken, then insert. */
  function CreateUserOutcome(rows: seq<Db.UserRow>, input: CreateUserInput, newId: Uuid, now: int, f: UserFaults)
    : (r: (Result<User, Error>, seq<Db.UserRow>))
    ensures r.0.Err? ==> r.1 == rows
    ensures (f.byEmail.None? && exists i :: 0 <= i < |rows| && rows[i].email == input.email) ==>
      r == (Err(AlreadyExistsErr("Email already in use")), rows)
    ensures (f.byEmail.Some? && !IsNoRows(f.byEmail.value) && !IsNotFoundError(f.byEmail.value)) ==>
      r == (Err(InternalErr("Could not check email", Some(InternalErr("Failed to get user by email", f.byEmail)))), rows)
    ensures r.0.Ok? ==> (r.1 == rows + [Db.UserRow(newId, input.name, input.email, now)] &&
      r.0.value == Db.ToModel(Db.UserRow(newId, input.name, input.email, now)))
    ensures r.0.Ok? ==> (f.write.None? && Db.FindByEmail(rows, input.email).None? && Db.FindById(rows, newId).None?)
    ensures f.byEmail.None? ==>
      (r.0.Ok? <==> (f.write.None? && Db.FindByEmail(rows, input.email).None? && Db.FindById(rows, newId).None?))
    ensures (f.byEmail.None? && Db.FindByEmail(rows, input.email).None? && f.write.Some?) ==>
      r == (Err(InternalErr("Failed to create user", f.write)), rows)
    ensures Db.Consistent(rows) ==> Db.Consistent(r.1)
  {
    var inUse := EmailInUse(rows, input.email, f.byEmail);
    if inUse.Err? then (Err(inUse.error), rows)
    else if inUse.value then (Err(AlreadyExistsErr("Email already in use")), rows)
    else
      var (res, next) := Db.CreateUser(rows, input.ToPgCreateUser(), newId, now, f.write);
      match res
      case Err(e) => (Err(InternalErr("Failed to create user", Some(e))), rows)
      case Ok(row) => (Ok(Db.ToModel(row)), next)
  }

  /**
   * The duplicate check of `UpdateUser`: an email was requested, it differs
   * from `current`, and the lookup finds it on a user other than `userId`.
   * A failed lookup lets the update go ahead.
   */
  predicate EmailTakenByOther(rows: seq<Db.UserRow>, requested: Option<string>, current: string, userId: string, fault: Option<Error>) {
    requested.Some? && requested.value != current &&
    var existing := GetUserByEmail(rows, requested.value, fault);
    existing.Ok? && existing.value.id != userId
  }

  /**
   * `UpdateUser` as written: the loaded user is updated with `ApplyTo`
   * before its email is compared with the requested one, so the comparison
   * always finds them equal and a clash is only caught by the table's
   * constraint, which is reported as an internal error.
   */
  function UpdateUserOutcome(rows: seq<Db.UserRow>, id: string, input: UpdateUserInput, f: UserFaults)
    : (r: (Result<User, Error>, seq<Db.UserRow>))
    ensures Parse(id).None? ==> r == (Err(InvalidId), rows)
    ensures r.0.Err? ==> r.1 == rows
    ensures r.0.Ok? ==> (Parse(id).Some? && Db.FindById(rows, Parse(id).value).Some? &&
      r.0.value == input.ApplyTo(Db.ToModel(rows[Db.FindById(rows, Parse(id).value).value])))
    ensures (Parse(id).Some? && f.lookup.Some?) ==> r == (Err(LookupError(f.lookup.value, "Failed to get user")), rows)
    ensures (Parse(id).Some? && f.lookup.None? && Db.FindById(rows, Parse(id).value).None?) ==> r == (Err(UserNotFound), rows)
    ensures (Parse(id).Some? && f.lookup.None? && Db.FindById(rows, Parse(id).value).Some?) ==>
      var i := Db.FindById(rows, Parse(id).value).value;
      var user := input.ApplyTo(Db.ToModel(rows[i]));
      var clash := Db.FindByEmail(rows, user.email);
      var row := rows[i].(name := user.name, email := user.email);
      r == if f.write.Some? then (Err(InternalErr("Failed to update user", f.write)), rows)
        else if clash.None? || rows[clash.value].id == Parse(id).value then (Ok(Db.ToModel(row)), rows[i := row])
        else (Err(InternalErr("Failed to update user", Some(Db.DuplicateKey(Db.EmailKey)))), rows)
    ensures Db.Consistent(rows) ==> Db.Consistent(r.1)
  {
    var uid := Parse(id);
    if uid.None? then (Err(InvalidId), rows)
    else
      var loaded := GetUser(rows, id, f.lookup);
      if loaded.Err? then (Err(loaded.error), rows)
      else
        var user := input.ApplyTo(loaded.value);
        if EmailTakenByOther(rows, input.email, user.email, user.id, f.byEmail) then (Err(AlreadyExistsErr("Email already in use by another user")), rows)
        else
          var (res, next) := Db.UpdateUser(rows, uid.value, user.name, user.email, f.write);
          match res
          case Err(e) => (Err(InternalErr("Failed to update user", Some(e))), rows)
          case Ok(row) => (Ok(Db.ToModel(row)), next)
  }

  /**
   * `UpdateUser` with the comparison made against the stored email, before
   * the input is applied: the duplicate-email rejection the code intends.
   */
  function UpdateUserCheckedOutcome(rows: seq<Db.UserRow>, id: string, input: UpdateUserInput, f: UserFaults)
    : (r: (Result<User, Error>, seq<Db.UserRow>))
    ensures r.0.Err? ==> r.1 == rows
    ensures Db.Consistent(rows) ==> Db.Consistent(r.1)
  {
    var uid := Parse(id);
    if uid.None? then (Err(InvalidId), rows)
    else
      var loaded := GetUser(rows, id, f.lookup);
      if loaded.Err? then (Err(loaded.error), rows)
      else
        var stored := loaded.value;
        if EmailTakenByOther(rows, input.email, stored.email, stored.id, f.byEmail) then (Err(AlreadyExistsErr("Email already in use by another user")), rows)
        else
          var user := input.ApplyTo(stored);
          var (res, next) := Db.UpdateUser(rows, uid.value, user.name, user.email, f.write);
          match res
          case Err(e) => (Err(InternalErr("Failed to update user", Some(e))), rows)
          case Ok(row) => (Ok(Db.ToModel(row)), next)
  }

  /** `DeleteUser`. */
  function DeleteUserOutcome(rows: seq<Db.UserRow>, id: string, fault: Option<Error>): (r: (Option<Error>, seq<Db.UserRow>))
    ensures Parse(id).None? ==> r == (Some(InvalidId), rows)
    ensures r.0.Some? ==> r.1 == rows
    ensures (Parse(id).Some? && fault.None?) ==> r.0.None?
    ensures (Parse(id).Some? && fault.Some?) ==> r == (Some(LookupError(fault.value, "Failed to delete user")), rows)
    ensures r.0.None? ==> (Parse(id).Some? && r.1 == Db.Without(rows, Parse(id).value))
  {
    var uid := Parse(id);
    if uid.None? then (Some(InvalidId), rows)
    else
      var (err, next) := Db.DeleteUser(rows, uid.value, fault);
      if err.Some? then (Some(LookupError(err.value, "Failed to delete user")), rows)
      else (None, next)
  }

  /**
   * The duplicate-email rejection of `UpdateUser` is dead code: whatever the
   * table, the input and the faults, the update never reports it.
   */
  lemma UpdateNeverReportsDuplicate(rows: seq<Db.UserRow>, id: string, input: UpdateUserInput, f: UserFaults)
    ensures UpdateUserOutcome(rows, id, input, f).0 != Err(AlreadyExistsErr("Email already in use by another user"))
  {
    var uid := Parse(id);
    if uid.Some? {
      var loaded := GetUser(rows, id, f.lookup);
      if loaded.Ok? {
        var user := input.ApplyTo(loaded.value);
        assert !EmailTakenByOther(rows, input.email, user.email, user.id, f.byEmail);
      }
    }
  }

  /**
   * As written, moving a user onto another user's email reaches the table's
   * unique constraint and is reported as an internal error (status 500).
   */
  lemma UpdateClashIsInternal(rows: seq<Db.UserRow>, i: nat, j: nat, input: UpdateUserInput)
    requires Db.Consistent(rows) && i < |rows| && j < |rows| && i != j
    requires input.email == Some(rows[j].email)
    ensures UpdateUserOutcome(rows, Format(rows[i].id), input, NoFaults)
      == (Err(InternalErr("Failed to update user", Some(Db.DuplicateKey(Db.EmailKey)))), rows)
  {
    ParseFormat(rows[i].id);
    Db.FindsOwnRow(rows, i);
    Db.FindsOwnRow(rows, j);
  }

  /** With the check made before the merge, the same clash is refused as AlreadyExists (status 409). */
  lemma UpdateCheckedRejectsClash(rows: seq<Db.UserRow>, i: nat, j: nat, input: UpdateUserInput)
    requires Db.Consistent(rows) && i < |rows| && j < |rows| && i != j
    requires input.email == Some(rows[j].email)
    ensures UpdateUserCheckedOutcome(rows, Format(rows[i].id), input, NoFaults)
      == (Err(AlreadyExistsErr("Email already in use by another user")), rows)
  {
    ParseFormat(rows[i].id);
    Db.FindsOwnRow(rows, i);
    Db.FindsOwnRow(rows, j);
    FormatInjective(rows[i].id, rows[j].id);
    var stored := Db.ToModel(rows[i]);
    assert GetUser(rows, Format(rows[i].id), None) == Ok(stored);
    assert GetUserByEmail(rows, rows[j].email, None) == Ok(Db.ToModel(rows[j]));
    assert EmailTakenByOther(rows, input.email, stored.email, stored.id, None);
  }

  /**
   * With a healthy database the corrected update never reports an internal
   * error: it succeeds, or rejects the id, the missing user or the clash.
   */
  lemma UpdateCheckedNeverInternal(rows: seq<Db.UserRow>, id: string, input: UpdateUserInput)
    requires Db.Consistent(rows)
    ensures var r := UpdateUserCheckedOutcome(rows, id, input, NoFaults).0;
      r.Ok? || r.error == InvalidId || r.error == UserNotFound ||
      r.error == AlreadyExistsErr("Email already in use by another user")
  {
    var uid := Parse(id);
    if uid.Some? && Db.FindById(rows, uid.value).Some? {
      var i := Db.FindById(rows, uid.value).value;
      var stored := Db.ToModel(rows[i]);
      assert GetUser(rows, id, None) == Ok(stored);
      var user := input.ApplyTo(stored);
      var clash := Db.FindByEmail(rows, user.email);
      if clash.None? || rows[clash.value].id == uid.value {
        assert Db.UpdateUser(rows, uid.value, user.name, user.email, None).0.Ok?;
      } else {
        ClashIsTakenByOther(rows, uid.value, input);
      }
    }
  }

  /** A clash the table would report is one the corrected check has already caught. */
  lemma ClashIsTakenByOther(rows: seq<Db.UserRow>, uid: Uuid, input: UpdateUserInput)
    requires Db.Consistent(rows) && Db.FindById(rows, uid).Some?
    requires var user := input.ApplyTo(Db.ToModel(rows[Db.FindById(rows, uid).value]));
      var clash := Db.FindByEmail(rows, user.email);
      clash.Some? && rows[clash.value].id != uid
    ensures var stored := Db.ToModel(rows[Db.FindById(rows, uid).value]);
      EmailTakenByOther(rows, input.email, stored.email, stored.id, None)
  {
    var i := Db.FindById(rows, uid).value;
    var stored := Db.ToModel(rows[i]);
    var k := Db.FindByEmail(rows, input.ApplyTo(stored).email).value;
    assert k != i;
    if input.email.None? || input.email.value == stored.email {
      assert false;
    } else {
      var e := input.email.value;
      var existing := GetUserByEmail(rows, e, None);
      assert rows[k].email == e;
      var j :| 0 <= j < |rows| && rows[j].email == e && existing.value == Db.ToModel(rows[j]);
      assert j == k;
      FormatInjective(rows[k].id, uid);
    }
  }

  /** A created user is then found by its id and by its email. */
  lemma CreatedUserIsFound(rows: seq<Db.UserRow>, input: CreateUserInput, newId: Uuid, now: int, f: UserFaults)
    requires CreateUserOutcome(rows, input, newId, now, f).0.Ok?
    ensures var (r, next) := CreateUserOutcome(rows, input, newId, now, f);
      GetUser(next, r.value.id, None) == Ok(r.value) && GetUserByEmail(next, input.email, None) == Ok(r.value)
  {
    var row := Db.UserRow(newId, input.name, input.email, now);
    ParseFormat(newId);
    Db.FindsAppendedRow(rows, row);
  }

  /** After a delete the user is gone; deleting an absent user is not an error. */
  lemma DeletedUserIsGone(rows: seq<Db.UserRow>, id: string)
    requires Parse(id).Some?
    ensures var (err, next) := DeleteUserOutcome(rows, id, None);
      err.None? && GetUser(next, id, None) == Err(UserNotFound)
  {
  }

  class UserService {
    const db: Db.Queries

    constructor (db: Db.Queries)
      ensures this.db == db
    {
      this.db := db;
    }

    /** `ListUsers`: one model per row, in the order the query returns them. */
    method ListUsers(fault: Option<Error>) returns (r: Result<seq<User>, Error>)
      ensures fault.Some? ==> r == Err(InternalErr("Failed to list users", fault))
      ensures fault.None? ==> (r.Ok? && |r.value| == |db.users| &&
        forall i :: 0 <= i < |db.users| ==> r.value[i] == Db.ToModel(db.users[i]))
    {
      if fault.Some? {
        return Err(InternalErr("Failed to list users", fault));
      }
      var rows := db.users;
      var users: seq<User> := [];
      var i := 0;
      while i < |rows|
        invariant 0 <= i <= |rows|
        invariant |users| == i
        invariant forall k :: 0 <= k < i ==> users[k] == Db.ToModel(rows[k])
      {
        users := users + [Db.ToModel(rows[i])];
        i := i + 1;
      }
      return Ok(users);
    }

    method CreateUser(input: CreateUserInput, newId: Uuid, now: int, f: UserFaults) returns (r: Result<User, Error>)
      modifies db
      ensures (r, db.users) == CreateUserOutcome(old(db.users), input, newId, now, f)
    {
      var inUse := EmailInUse(db.users, input.email, f.byEmail);
      if inUse.Err? {
        return Err(inUse.error);
      }
      if inUse.value {
        return Err(AlreadyExistsErr("Email already in use"));
      }
      var created := db.CreateUserQuery(input.ToPgCreateUser(), newId, now, f.write);
      if created.Err? {
        return Err(InternalErr("Failed to create user", Some(created.error)));
      }
      return Ok(Db.ToModel(created.value));
    }

    /** `UpdateUser`: the loaded user is a record that `ApplyTo` changes through its pointer. */
    method UpdateUser(id: string, input: UpdateUserInput, f: UserFaults) returns (r: Result<User, Error>)
      modifies db
      ensures (r, db.users) == UpdateUserOutcome(old(db.users), id, input, f)
    {
      var uid := Parse(id);
      if uid.None? {
        return Err(InvalidId);
      }
      var loaded := GetUser(db.users, id, f.lookup);
      if loaded.Err? {
        return Err(loaded.error);
      }
      var user := new UserRef(loaded.value);
      user.Apply(input);
      var taken := EmailTakenByOther(db.users, input.email, user.user.email, user.user.id, f.byEmail);
      if taken {
        return Err(AlreadyExistsErr("Email already in use by another user"));
      }
      var updated := db.UpdateUserQuery(uid.value, user.user.name, user.user.email, f.write);
      if updated.Err? {
        return Err(InternalErr("Failed to update user", Some(updated.error)));
      }
      return Ok(Db.ToModel(updated.value));
    }

    method DeleteUser(id: string, fault: Option<Error>) returns (r: Option<Error>)
      modifies db
      ensures (r, db.users) == DeleteUserOutcome(old(db.users), id, fault)
    {
      var uid := Parse(id);
      if uid.None? {
        return Some(InvalidId);
      }
      var err := db.DeleteUserQuery(uid.value, fault);
      if err.Some? {
        return Some(LookupError(err.value, "Failed to delete user"));
      }
      return None;
    }
  }
}
