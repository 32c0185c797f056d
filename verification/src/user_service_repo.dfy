/**
 * The repository-based user service of
 * internal/core/usecases/services/user_service.go. The repository is an
 * interface whose implementation is not part of this model: each call it
 * receives is recorded as a `RepoCall`, and the reply it gives is a
 * parameter. A lookup either finds a user or fails, never both or neither.
 */
module UserServiceRepo {
  import opened Wrappers
  import opened WrapErrors
  import opened Models

  /** `ports.UpdateUserInput`: the user to change and the fields to set. */
  datatype UpdateRequest = UpdateRequest(id: string, name: Option<string>, email: Option<string>)

  /** A call the service makes on the repository. */
  datatype RepoCall =
    | GetByEmail(email: string)
    | GetByID(id: string)
    | Create(input: CreateUserInput)
    | Update(id: string, name: string, email: string)

  /** Whether the lookup failed because nothing has this email (`errors.Is` against a NotFound `*AppError`). */
  predicate IsMissing(lookup: Result<User, Error>) {
    lookup.Err? && ChainIs(lookup.error, NotFoundErr(""))
  }

  /**
   * `CreateUser`: a registered email is refused and a lookup failure other
   * than not-found is internal; only an unregistered email reaches `Create`,
   * whose reply is the service's.
   */
  function CreateUser(input: CreateUserInput, byEmail: Result<User, Error>, created: Result<string, Error>)
    : (r: (seq<RepoCall>, Result<string, Error>))
    ensures |r.0| >= 1 && r.0[0] == GetByEmail(input.email)
    ensures Create(input) in r.0 <==> IsMissing(byEmail)
    ensures IsMissing(byEmail) ==> r == ([GetByEmail(input.email), Create(input)], created)
    ensures byEmail.Ok? ==> r == ([GetByEmail(input.email)], Err(AlreadyExistsErr("email already in use")))
    ensures (byEmail.Err? && !IsMissing(byEmail)) ==>
      r == ([GetByEmail(input.email)], Err(InternalErr("could not check email", Some(byEmail.error))))
  {
    var calls := [GetByEmail(input.email)];
    if byEmail.Err? && !ChainIs(byEmail.error, NotFoundErr("")) then
      (calls, Err(InternalErr("could not check email", Some(byEmail.error))))
    else if byEmail.Ok? then
      (calls, Err(AlreadyExistsErr("email already in use")))
    else
      ([GetByEmail(input.email), Create(input)], created)
  }

  /** Whether `email` is a change of the stored one that the lookup finds on another user. */
  predicate TakenByOther(req: UpdateRequest, stored: User, byEmail: Result<User, Error>) {
    req.email.Some? && req.email.value != stored.email && byEmail.Ok? && byEmail.value.id != req.id
  }

  /**
   * `UpdateUser`: the user is loaded, a changed email is looked up, and the
   * loaded record is overwritten field by field before it is handed to
   * `Update`.
   */
  method UpdateUser(req: UpdateRequest, byId: Result<User, Error>, byEmail: Result<User, Error>, updated: Result<string, Error>)
    returns (calls: seq<RepoCall>, r: Result<string, Error>)
    ensures |calls| >= 1 && calls[0] == GetByID(req.id)
    ensures byId.Err? ==> calls == [GetByID(req.id)] && r == Err(NotFoundErr("user not found"))
    ensures byId.Ok? ==> ((exists c :: c in calls && c.GetByEmail?) <==> req.email.Some? && req.email.value != byId.value.email)
    ensures forall c :: c in calls && c.GetByEmail? ==> req.email == Some(c.email)
    ensures (byId.Ok? && TakenByOther(req, byId.value, byEmail)) ==>
      r == Err(AlreadyExistsErr("email already in use by another user")) && calls[|calls| - 1].GetByEmail?
    ensures (byId.Ok? && !TakenByOther(req, byId.value, byEmail)) ==> (
      var merged := UpdateUserInput(req.name, req.email).ApplyTo(byId.value);
      calls[|calls| - 1] == Update(req.id, merged.name, merged.email) && r == updated)
    ensures forall c :: c in calls && c.Update? ==> c == calls[|calls| - 1]
  {
    calls := [GetByID(req.id)];
    if byId.Err? {
      return calls, Err(NotFoundErr("user not found"));
    }
    var user := new UserRef(byId.value);
    if req.email.Some? && req.email.value != user.user.email {
      calls := calls + [GetByEmail(req.email.value)];
      assert calls[1].GetByEmail?;
      if byEmail.Ok? && byEmail.value.id != req.id {
        return calls, Err(AlreadyExistsErr("email already in use by another user"));
      }
    }
    if req.name.Some? {
      user.user := user.user.(name := req.name.value);
    }
    if req.email.Some? {
      user.user := user.user.(email := req.email.value);
    }
    calls := calls + [Update(req.id, user.user.name, user.user.email)];
    r := updated;
  }
}
