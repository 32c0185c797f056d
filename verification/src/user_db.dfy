/**
 * The `users` table behind the sqlc queries user.service.go calls. The table
 * has a unique `email` (constraint `users_email_key`) and a primary key `id`
 * (`users_pkey`); the queries themselves are not part of this model and are
 * taken to behave as their names say. Each query takes `fault`, an error the
 * driver reports instead of running it (a lost connection, a cancelled context).
 */
module UserDb {
  import opened Wrappers
  import opened WrapErrors
  import opened Uuids
  import opened Models

  datatype UserRow = UserRow(id: Uuid, name: string, email: string, createdAt: int)

  const EmailKey: string := "users_email_key"
  const PrimaryKey: string := "users_pkey"

  /** The error Postgres reports for a duplicate key. */
  function DuplicateKey(constraint: string): Error {
    PgError("23505", constraint, "duplicate key value violates unique constraint \"" + constraint + "\"")
  }

  /** Every duplicate-key error is recognised by `IsUniqueViolation`, through its message. */
  lemma DuplicateKeyIsUniqueViolation(constraint: string)
    ensures IsUniqueViolation(Some(DuplicateKey(constraint)))
  {
    var pre, sub, quote := "duplicate key value violates ", "unique constraint", " \"";
    var post := quote + constraint + "\"";
    assert "duplicate key value violates unique constraint \"" == pre + sub + quote;
    assert DuplicateKey(constraint).message == pre + sub + post by {
      var lead := pre + sub + quote;
      assert lead + constraint + "\"" == pre + sub + (quote + constraint + "\"");
    }
    ContainsAt(sub, sub, 0);
    ContainsInContext(pre, sub, post, sub);
    PgUniqueViolationIsRecognised("23505", constraint, pre + sub + post);
  }

  /** The position of the row with this id, if any. */
  function FindById(rows: seq<UserRow>, id: Uuid): (r: Option<nat>)
    ensures r.Some? ==> r.value < |rows| && rows[r.value].id == id
    ensures r.None? ==> forall i :: 0 <= i < |rows| ==> rows[i].id != id
  {
    if rows == [] then None
    else if rows[0].id == id then Some(0)
    else
      var r := FindById(rows[1..], id);
      if r.Some? then Some(r.value + 1) else None
  }

  /** The position of the row with this email, if any. */
  function FindByEmail(rows: seq<UserRow>, email: string): (r: Option<nat>)
    ensures r.Some? ==> r.value < |rows| && rows[r.value].email == email
    ensures r.None? ==> forall i :: 0 <= i < |rows| ==> rows[i].email != email
  {
    if rows == [] then None
    else if rows[0].email == email then Some(0)
    else
      var r := FindByEmail(rows[1..], email);
      if r.Some? then Some(r.value + 1) else None
  }

  /** What the constraints guarantee of the table. */
  predicate Consistent(rows: seq<UserRow>) {
    forall i, j :: 0 <= i < j < |rows| ==> rows[i].id != rows[j].id && rows[i].email != rows[j].email
  }

  /** The model the services build from a row. */
  function ToModel(row: UserRow): (u: User)
    ensures u.id == Format(row.id) && u.name == row.name && u.email == row.email && u.createdAt == row.createdAt
  {
    User(Format(row.id), row.name, row.email, row.createdAt)
  }

  /** `GetUser`. */
  function GetUser(rows: seq<UserRow>, id: Uuid, fault: Option<Error>): Result<UserRow, Error> {
    if fault.Some? then Err(fault.value)
    else
      var i := FindById(rows, id);
      if i.Some? then Ok(rows[i.value]) else Err(NoRows)
  }

  /** `GetUserByEmail`. */
  function GetUserByEmail(rows: seq<UserRow>, email: string, fault: Option<Error>): Result<UserRow, Error> {
    if fault.Some? then Err(fault.value)
    else
      var i := FindByEmail(rows, email);
      if i.Some? then Ok(rows[i.value]) else Err(NoRows)
  }

  /** `CreateUser`: the new row gets the generated id and the current time. */
  function CreateUser(rows: seq<UserRow>, p: CreateUserParams, newId: Uuid, now: int, fault: Option<Error>)
    : (r: (Result<UserRow, Error>, seq<UserRow>))
    ensures r.0.Err? ==> r.1 == rows
    ensures r.0.Ok? ==> (r.1 == rows + [r.0.value] && r.0.value == UserRow(newId, p.name, p.email, now))
    ensures r.0.Ok? <==> (fault.None? && FindByEmail(rows, p.email).None? && FindById(rows, newId).None?)
    ensures Consistent(rows) ==> Consistent(r.1)
  {
    if fault.Some? then (Err(fault.value), rows)
    else if FindByEmail(rows, p.email).Some? then (Err(DuplicateKey(EmailKey)), rows)
    else if FindById(rows, newId).Some? then (Err(DuplicateKey(PrimaryKey)), rows)
    else
      var row := UserRow(newId, p.name, p.email, now);
      (Ok(row), rows + [row])
  }

  /** `UpdateUser`: rewrites name and email of the row with this id and returns it. */
  function UpdateUser(rows: seq<UserRow>, id: Uuid, name: string, email: string, fault: Option<Error>)
    : (r: (Result<UserRow, Error>, seq<UserRow>))
    ensures r.0.Err? ==> r.1 == rows
    ensures r.0.Ok? ==> (FindById(rows, id).Some? &&
      r.0.value == rows[FindById(rows, id).value].(name := name, email := email) &&
      r.1 == rows[FindById(rows, id).value := r.0.value])
    ensures r.0.Ok? <==> (fault.None? && FindById(rows, id).Some? &&
      (FindByEmail(rows, email).None? || rows[FindByEmail(rows, email).value].id == id))
    ensures fault.None? && FindById(rows, id).None? ==> r.0 == Err(NoRows)
    ensures Consistent(rows) ==> Consistent(r.1)
  {
    if fault.Some? then (Err(fault.value), rows)
    else
      var i := FindById(rows, id);
      if i.None? then (Err(NoRows), rows)
      else
        var clash := FindByEmail(rows, email);
        if clash.Some? && rows[clash.value].id != id then (Err(DuplicateKey(EmailKey)), rows)
        else
          var row := rows[i.value].(name := name, email := email);
          (Ok(row), rows[i.value := row])
  }

  /** The rows without the one with this id. */
  function Without(rows: seq<UserRow>, id: Uuid): (r: seq<UserRow>)
    ensures forall i :: 0 <= i < |r| ==> r[i] in rows && r[i].id != id
    ensures forall row :: row in rows && row.id != id ==> row in r
    ensures Consistent(rows) ==> Consistent(r)
  {
    if rows == [] then []
    else
      var rest := Without(rows[1..], id);
      WithoutStep(rows, id, rest);
      if rows[0].id == id then rest else [rows[0]] + rest
  }

  /** The step of `Without`: keeping or dropping the first row keeps its three properties. */
  lemma WithoutStep(rows: seq<UserRow>, id: Uuid, rest: seq<UserRow>)
    requires rows != []
    requires forall i :: 0 <= i < |rest| ==> rest[i] in rows[1..] && rest[i].id != id
    requires forall row :: row in rows[1..] && row.id != id ==> row in rest
    requires Consistent(rows[1..]) ==> Consistent(rest)
    ensures var r := if rows[0].id == id then rest else [rows[0]] + rest;
      (forall i :: 0 <= i < |r| ==> r[i] in rows && r[i].id != id) &&
      (forall row :: row in rows && row.id != id ==> row in r) &&
      (Consistent(rows) ==> Consistent(r))
  {
    assert rows == [rows[0]] + rows[1..];
    var r := if rows[0].id == id then rest else [rows[0]] + rest;
    forall row | row in rows && row.id != id
      ensures row in r
    {
      if row != rows[0] {
        var m :| 0 <= m < |rows| && rows[m] == row;
        assert rows[1..][m - 1] == row;
      }
    }
    forall i | 0 <= i < |r|
      ensures r[i] in rows && r[i].id != id
    {
      if r[i] != rows[0] {
        var k := if rows[0].id == id then i else i - 1;
        assert r[i] == rest[k];
        var m :| 0 <= m < |rows[1..]| && rows[1..][m] == rest[k];
        assert rows[m + 1] == r[i];
      }
    }
    if Consistent(rows) {
      ConsistentTail(rows);
      if rows[0].id != id {
        ConsistentCons(rows[0], rows[1..], rest);
      }
    }
  }


  lemma ConsistentTail(rows: seq<UserRow>)
    requires rows != [] && Consistent(rows)
    ensures Consistent(rows[1..])
  {
    forall i, j | 0 <= i < j < |rows[1..]|
      ensures rows[1..][i].id != rows[1..][j].id && rows[1..][i].email != rows[1..][j].email
    {
      assert rows[1..][i] == rows[i + 1] && rows[1..][j] == rows[j + 1];
    }
  }


  /** Putting a row in front of rows drawn from a table it heads keeps them consistent. */
  lemma ConsistentCons(head: UserRow, tail: seq<UserRow>, rest: seq<UserRow>)
    requires Consistent([head] + tail) && Consistent(rest)
    requires forall k :: 0 <= k < |rest| ==> rest[k] in tail
    ensures Consistent([head] + rest)
  {
    var rows := [head] + tail;
    forall k | 0 <= k < |rest|
      ensures rest[k].id != head.id && rest[k].email != head.email
    {
      var m :| 0 <= m < |tail| && tail[m] == rest[k];
      assert rows[0] == head && rows[m + 1] == tail[m];
    }
  }

  /** `DeleteUser`, an `:exec` query: deleting no row is not an error. */
  function DeleteUser(rows: seq<UserRow>, id: Uuid, fault: Option<Error>): (r: (Option<Error>, seq<UserRow>)) {
    if fault.Some? then (fault, rows) else (None, Without(rows, id))
  }

  /** In a consistent table each row is the one found by its id and by its email. */
  lemma FindsOwnRow(rows: seq<UserRow>, i: nat)
    requires Consistent(rows) && i < |rows|
    ensures FindById(rows, rows[i].id) == Some(i)
    ensures FindByEmail(rows, rows[i].email) == Some(i)
  {
    var k := FindById(rows, rows[i].id).value;
    if k != i {
      assert false;
    }
    var m := FindByEmail(rows, rows[i].email).value;
    if m != i {
      assert false;
    }
  }

  /** A row appended with a fresh id and a fresh email is found at the end. */
  lemma FindsAppendedRow(rows: seq<UserRow>, row: UserRow)
    requires FindById(rows, row.id).None? && FindByEmail(rows, row.email).None?
    ensures FindById(rows + [row], row.id) == Some(|rows|)
    ensures FindByEmail(rows + [row], row.email) == Some(|rows|)
  {
    FindByIdAppended(rows, row);
    FindByEmailAppended(rows, row);
  }

  lemma {:induction false} FindByIdAppended(rows: seq<UserRow>, row: UserRow)
    requires FindById(rows, row.id).None?
    ensures FindById(rows + [row], row.id) == Some(|rows|)
  {
    if rows != [] {
      assert (rows + [row])[1..] == rows[1..] + [row];
      FindByIdAppended(rows[1..], row);
    }
  }

  lemma {:induction false} FindByEmailAppended(rows: seq<UserRow>, row: UserRow)
    requires FindByEmail(rows, row.email).None?
    ensures FindByEmail(rows + [row], row.email) == Some(|rows|)
  {
    if rows != [] {
      assert (rows + [row])[1..] == rows[1..] + [row];
      FindByEmailAppended(rows[1..], row);
    }
  }

  class Queries {
    var users: seq<UserRow>

    constructor (users: seq<UserRow>)
      ensures this.users == users
    {
      this.users := users;
    }

    method CreateUserQuery(p: CreateUserParams, newId: Uuid, now: int, fault: Option<Error>) returns (r: Result<UserRow, Error>)
      modifies this`users
      ensures (r, users) == CreateUser(old(users), p, newId, now, fault)
    {
      var next;
      r, next := CreateUser(users, p, newId, now, fault).0, CreateUser(users, p, newId, now, fault).1;
      users := next;
    }

    method UpdateUserQuery(id: Uuid, name: string, email: string, fault: Option<Error>) returns (r: Result<UserRow, Error>)
      modifies this`users
      ensures (r, users) == UpdateUser(old(users), id, name, email, fault)
    {
      var res := UpdateUser(users, id, name, email, fault);
      r, users := res.0, res.1;
    }

    method DeleteUserQuery(id: Uuid, fault: Option<Error>) returns (r: Option<Error>)
      modifies this`users
      ensures (r, users) == DeleteUser(old(users), id, fault)
    {
      var res := DeleteUser(users, id, fault);
      r, users := res.0, res.1;
    }
  }
}
