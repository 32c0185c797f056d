/**
 * The older short-URL repository of
 * internal/adapters/secondary/persistence/repositories/short_url.repository.go.
 * It differs from `ShortUrlInfra` in its messages, in answering an expired
 * URL with the string-typed `ForbiddenErr` of `ResponseErrors`, in always
 * giving `ExpiresAt` a value (Go's zero time for a NULL column), in never
 * filling `AccessCount`, and in what `Delete` deletes.
 */
module ShortUrlRepository {
  import opened Wrappers
  import opened WrapErrors
  import opened Uuids
  import opened Models
  import opened ShortUrlDb
  import ShortUrlInfra
  import ResponseErrors
  import UserDb

  /** The repository answers with an error of either `AppError` family. */
  datatype RepoError = Core(error: Error) | Response(app: ResponseErrors.AppError)

  const NotFund: Error := NotFoundErr("Short URL not fund")

  /** A row as this repository maps it: `ExpiresAt` points at the column's time even when it is NULL. */
  function ToModel(row: UrlRow): (u: ShortUrl)
    ensures u.expiresAt == Some(row.expiresAt.time) && u.accessCount == 0
    ensures u.id == Format(row.id) && u.userId == Format(row.userId) && u.slug == row.slug
    ensures u.originalUrl == row.originalUrl && u.createdAt == row.createdAt
  {
    ShortUrl(Format(row.id), row.slug, row.originalUrl, Format(row.userId), row.createdAt, Some(row.expiresAt.time), 0)
  }

  /** A NULL expiry reads as the zero time, which is in the past of any real clock. */
  lemma NullExpiryReadsAsZeroTime(row: UrlRow)
    requires !row.expiresAt.valid && row.expiresAt == Null
    ensures ToModel(row).expiresAt == Some(Times.ZeroTime)
    ensures ShortUrlInfra.ToModel(row, 0).expiresAt.None?
  {
  }

  /** `GetShortUrl`. */
  function GetShortUrl(rows: seq<UrlRow>, id: Uuid, fault: Option<Error>): (r: Result<ShortUrl, Error>)
    ensures fault.None? && FindById(rows, id).None? ==> r == Err(NotFund)
    ensures r.Ok? ==> exists row :: row in rows && row.id == id && r.value == ToModel(row)
    ensures fault.Some? && !IsNoRows(fault.value) ==> r == Err(InternalErr(ShortUrlInfra.SomethingWentWrong, fault))
    ensures fault.Some? && IsNoRows(fault.value) ==> r == Err(NotFund)
    ensures fault.None? && FindById(rows, id).Some? ==> r == Ok(ToModel(rows[FindById(rows, id).value]))
  {
    match GetById(rows, id, fault)
    case Ok(row) => Ok(ToModel(row))
    case Err(e) => if IsNoRows(e) then Err(NotFund) else Err(InternalErr(ShortUrlInfra.SomethingWentWrong, Some(e)))
  }

  /** `GetBySlug`: an expired URL is Forbidden (403). */
  function GetBySlug(rows: seq<UrlRow>, slug: string, now: int, fault: Option<Error>): (r: Result<ShortUrl, RepoError>)
    ensures fault.None? && FindBySlug(rows, slug).None? ==> r == Err(Core(NotFund))
    ensures fault.None? && FindBySlug(rows, slug).Some? ==>
      var row := rows[FindBySlug(rows, slug).value];
      r == if ShortUrlInfra.Expired(row, now) then Err(Response(ResponseErrors.ForbiddenErr("short url expired"))) else Ok(ToModel(row))
    ensures r.Err? && r.error.Response? ==> r.error.app.code == 403
    ensures fault.Some? && !IsNoRows(fault.value) ==> r == Err(Core(InternalErr(ShortUrlInfra.SomethingWentWrong, fault)))
    ensures fault.Some? && IsNoRows(fault.value) ==> r == Err(Core(NotFund))
  {
    match ShortUrlDb.GetBySlug(rows, slug, fault)
    case Err(e) =>
      if IsNoRows(e) then Err(Core(NotFund)) else Err(Core(InternalErr(ShortUrlInfra.SomethingWentWrong, Some(e))))
    case Ok(row) =>
      if ShortUrlInfra.Expired(row, now) then Err(Response(ResponseErrors.ForbiddenErr("short url expired")))
      else Ok(ToModel(row))
  }

  /** The two repositories refuse and answer the same slugs; only the error and the mapping differ. */
  lemma GetBySlugAgreesWithInfra(rows: seq<UrlRow>, slug: string, now: int, fault: Option<Error>)
    ensures GetBySlug(rows, slug, now, fault).Ok? <==> ShortUrlInfra.GetBySlug(rows, slug, now, fault).Ok?
    ensures GetBySlug(rows, slug, now, fault).Ok? ==>
      GetBySlug(rows, slug, now, fault).value.(expiresAt := None) ==
      ShortUrlInfra.GetBySlug(rows, slug, now, fault).value.(expiresAt := None)
  {
  }

  /** The users and short URLs of the database, as this repository sees them. */
  class Repository {
    const q: UrlTable
    const users: UserDb.Queries

    constructor (q: UrlTable, users: UserDb.Queries)
      ensures this.q == q && this.users == users
    {
      this.q := q;
      this.users := users;
    }

    method Create(p: CreateParams, newId: Uuid, now: int, fault: Option<Error>) returns (r: Result<string, Error>)
      modifies q
      ensures (r, q.rows) == ShortUrlInfra.CreateOutcome(old(q.rows), p, newId, now, fault)
    {
      var res := q.CreateShortUrl(p, newId, now, fault);
      if res.Err? {
        if IsUniqueViolation(Some(res.error)) {
          return Err(res.error);
        }
        return Err(InternalErr(ShortUrlInfra.SomethingWentWrong, Some(res.error)));
      }
      return Ok(Format(res.value));
    }

    /** `Update`: the driver's error is answered unchanged, success with the id's text. */
    method Update(p: UpdateParams, fault: Option<Error>) returns (r: Result<string, Error>)
      modifies q
      ensures q.rows == ShortUrlDb.Update(old(q.rows), p, fault).1
      ensures r == match ShortUrlDb.Update(old(q.rows), p, fault).0
        case Ok(_) => Ok(Format(p.id))
        case Err(e) => Err(e)
    {
      var res := q.UpdateShortUrl(p, fault);
      if res.Err? {
        return Err(res.error);
      }
      return Ok(Format(p.id));
    }

    /** `Delete` as written: it issues the users table's `DeleteUser` with the short URL's id. */
    method Delete(id: Uuid, fault: Option<Error>) returns (r: Option<Error>)
      modifies users
      ensures (r, users.users) == UserDb.DeleteUser(old(users.users), id, fault)
    {
      r := users.DeleteUserQuery(id, fault);
    }

    /** `Delete` as intended: the short URL's own row is deleted. */
    method DeleteShortUrl(id: Uuid, fault: Option<Error>) returns (r: Option<Error>)
      modifies q
      ensures (r, q.rows) == ShortUrlDb.Delete(old(q.rows), id, fault)
    {
      r := q.DeleteShortUrl(id, fault);
    }

    /**
     * `List`: one model per row of the user, in table order; a user without
     * rows gets Go's nil slice (`None`), not an empty one.
     */
    method List(userId: Uuid, fault: Option<Error>) returns (r: Result<Option<seq<ShortUrl>>, Error>)
      ensures fault.Some? ==> r == Err(InternalErr(ShortUrlInfra.SomethingWentWrong, fault))
      ensures fault.None? ==> (r.Ok? && (r.value.None? <==> OwnedBy(q.rows, userId) == []))
      ensures fault.None? && r.value.Some? ==>
        var owned := OwnedBy(q.rows, userId);
        |r.value.value| == |owned| &&
        forall i :: 0 <= i < |owned| ==> r.value.value[i] == ToModel(owned[i])
    {
      var res := GetByUser(q.rows, userId, fault);
      if res.Err? {
        return Err(InternalErr(ShortUrlInfra.SomethingWentWrong, Some(res.error)));
      }
      var owned := res.value;
      var out: Option<seq<ShortUrl>> := None;
      var i := 0;
      while i < |owned|
        invariant 0 <= i <= |owned|
        invariant out.None? <==> i == 0
        invariant out.Some? ==> (|out.value| == i &&
          forall k :: 0 <= k < i ==> out.value[k] == ToModel(owned[k]))
      {
        var m := ToModel(owned[i]);
        out := if out.None? then Some([m]) else Some(out.value + [m]);
        i := i + 1;
      }
      return Ok(out);
    }
  }

  /**
   * As written, deleting a short URL through the repository leaves its row in
   * place: the delete reports success, the short-URL table is untouched and
   * the row is still found by its id, while the users table loses any user
   * that happens to share the id.
   */
  method DeleteKeepsTheShortUrl(repo: Repository, id: Uuid) returns (err: Option<Error>)
    requires FindById(repo.q.rows, id).Some?
    modifies repo.users
    ensures err.None?
    ensures repo.q.rows == old(repo.q.rows) && GetById(repo.q.rows, id, None).Ok?
    ensures forall u :: u in repo.users.users ==> u.id != id
  {
    err := repo.Delete(id, None);
    assert forall i :: 0 <= i < |repo.users.users| ==> repo.users.users[i].id != id;
  }

  /** The intended delete removes the row, so the id is no longer found. */
  lemma DeleteShortUrlRemovesIt(urls: seq<UrlRow>, id: Uuid)
    ensures var (err, next) := ShortUrlDb.Delete(urls, id, None);
      err.None? && GetById(next, id, None) == Err(NoRows) && |next| <= |urls|
  {
    var next := ShortUrlDb.Without(urls, id);
    WithoutShrinks(urls, id);
  }

  lemma {:induction false} WithoutShrinks(urls: seq<UrlRow>, id: Uuid)
    ensures |ShortUrlDb.Without(urls, id)| <= |urls|
  {
    if urls != [] {
      WithoutShrinks(urls[1..], id);
    }
  }
}
