/**
 * The short-URL repository of
 * internal/adapters/secondary/persistence/infra/short_url.infra.go: row
 * mapping, the expiry rule of `GetBySlug`, and how driver errors are
 * classified. The clock is the parameter `now`.
 */
module ShortUrlInfra {
  import opened Wrappers
  import opened WrapErrors
  import opened Uuids
  import opened Times
  import opened Models
  import opened ShortUrlDb
  import UserDb

  const SomethingWentWrong: string := "something went wrong"

  /** The model's `ExpiresAt`: a pointer to the time when the column is valid, nil otherwise. */
  function ExpiresOf(t: Timestamptz): (r: Option<int>)
    ensures r.None? <==> !t.valid
    ensures r.Some? ==> r.value == t.time
  {
    if t.valid then Some(t.time) else None
  }

  /** A row as a model; `count` is what the mapping puts in `AccessCount`. */
  function ToModel(row: UrlRow, count: int): (u: ShortUrl)
    ensures u.id == Format(row.id) && u.userId == Format(row.userId) && u.slug == row.slug
    ensures u.originalUrl == row.originalUrl && u.createdAt == row.createdAt
    ensures u.expiresAt == ExpiresOf(row.expiresAt) && u.accessCount == count
  {
    ShortUrl(Format(row.id), row.slug, row.originalUrl, Format(row.userId), row.createdAt, ExpiresOf(row.expiresAt), count)
  }

  /** Whether a row has a valid expiry that `now` is strictly after. */
  predicate Expired(row: UrlRow, now: int) {
    row.expiresAt.valid && After(now, row.expiresAt.time)
  }

  /** `Create`'s error classification: unique violations pass through, anything else is internal. */
  function CreateError(e: Error): (r: Error)
    ensures IsUniqueViolation(Some(e)) ==> r == e
    ensures !IsUniqueViolation(Some(e)) ==> r == InternalErr(SomethingWentWrong, Some(e))
  {
    if IsUniqueViolation(Some(e)) then e else InternalErr(SomethingWentWrong, Some(e))
  }

  /** `Create`: the new id as text, or the classified error. */
  function CreateOutcome(rows: seq<UrlRow>, p: CreateParams, newId: Uuid, now: int, fault: Option<Error>)
    : (r: (Result<string, Error>, seq<UrlRow>))
    ensures r.1 == ShortUrlDb.Create(rows, p, newId, now, fault).1
    ensures r.0.Ok? ==> r.0.value == Format(newId)
    ensures r.0.Ok? <==> (fault.None? && FindBySlug(rows, p.slug).None? && FindById(rows, newId).None?)
    ensures fault.None? && FindBySlug(rows, p.slug).Some? ==> r.0 == Err(UserDb.DuplicateKey(SlugKey))
    ensures fault.None? && FindBySlug(rows, p.slug).None? && FindById(rows, newId).Some? ==>
      r.0 == Err(UserDb.DuplicateKey(PrimaryKey))
    ensures fault.Some? ==> r.0 == Err(CreateError(fault.value))
  {
    var (res, next) := ShortUrlDb.Create(rows, p, newId, now, fault);
    match res
    case Ok(id) => (Ok(Format(id)), next)
    case Err(e) =>
      UserDb.DuplicateKeyIsUniqueViolation(SlugKey);
      UserDb.DuplicateKeyIsUniqueViolation(PrimaryKey);
      (Err(CreateError(e)), next)
  }

  /** `GetShortUrl`: the row with its durable access count. */
  function GetShortUrl(rows: seq<UrlRow>, id: Uuid, fault: Option<Error>): (r: Result<ShortUrl, Error>)
    ensures fault.None? && FindById(rows, id).None? ==> r == Err(NotFoundErr("Short URL not fund"))
    ensures r.Ok? ==> exists row :: row in rows && row.id == id && r.value == ToModel(row, row.accessCount)
    ensures fault.Some? && !IsNoRows(fault.value) ==> r == Err(InternalErr(SomethingWentWrong, fault))
    ensures fault.Some? && IsNoRows(fault.value) ==> r == Err(NotFoundErr("Short URL not fund"))
    ensures fault.None? && FindById(rows, id).Some? ==>
      var row := rows[FindById(rows, id).value];
      r == Ok(ToModel(row, row.accessCount))
  {
    match GetById(rows, id, fault)
    case Ok(row) => Ok(ToModel(row, row.accessCount))
    case Err(e) => if IsNoRows(e) then Err(NotFoundErr("Short URL not fund")) else Err(InternalErr(SomethingWentWrong, Some(e)))
  }

  /** The NotFound message of `GetBySlug`, which names the slug. */
  function SlugNotFound(slug: string): string {
    "short URL with slug '" + slug + "' not found"
  }

  /** `GetBySlug`: an expired URL is refused; the model carries no access count. */
  function GetBySlug(rows: seq<UrlRow>, slug: string, now: int, fault: Option<Error>): (r: Result<ShortUrl, Error>)
    ensures fault.None? && FindBySlug(rows, slug).None? ==> r == Err(NotFoundErr(SlugNotFound(slug)))
    ensures fault.None? && FindBySlug(rows, slug).Some? ==>
      var row := rows[FindBySlug(rows, slug).value];
      r == if Expired(row, now) then Err(UnauthorizedErr("short url expired")) else Ok(ToModel(row, 0))
    ensures r.Ok? ==> r.value.accessCount == 0
    ensures fault.Some? && !IsNoRows(fault.value) ==> r == Err(InternalErr(SomethingWentWrong, fault))
    ensures fault.Some? && IsNoRows(fault.value) ==> r == Err(NotFoundErr(SlugNotFound(slug)))
  {
    match ShortUrlDb.GetBySlug(rows, slug, fault)
    case Err(e) =>
      if IsNoRows(e) then Err(NotFoundErr(SlugNotFound(slug))) else Err(InternalErr(SomethingWentWrong, Some(e)))
    case Ok(row) =>
      if Expired(row, now) then Err(UnauthorizedErr("short url expired")) else Ok(ToModel(row, 0))
  }

  /** A URL is answered by `GetBySlug` exactly when it exists and has not expired. */
  lemma GetBySlugAnswersLiveUrls(rows: seq<UrlRow>, slug: string, now: int)
    requires Consistent(rows)
    ensures GetBySlug(rows, slug, now, None).Ok? <==>
      exists i :: 0 <= i < |rows| && rows[i].slug == slug && !Expired(rows[i], now)
  {
    var k := FindBySlug(rows, slug);
    if k.Some? {
      forall i | 0 <= i < |rows| && rows[i].slug == slug
        ensures i == k.value
      {
      }
    }
  }

  class Repository {
    const q: UrlTable

    constructor (q: UrlTable)
      ensures this.q == q
    {
      this.q := q;
    }

    method Create(p: CreateParams, newId: Uuid, now: int, fault: Option<Error>) returns (r: Result<string, Error>)
      modifies q
      ensures (r, q.rows) == CreateOutcome(old(q.rows), p, newId, now, fault)
    {
      var res := q.CreateShortUrl(p, newId, now, fault);
      if res.Err? {
        if IsUniqueViolation(Some(res.error)) {
          return Err(res.error);
        }
        return Err(InternalErr(SomethingWentWrong, Some(res.error)));
      }
      return Ok(Format(res.value));
    }

    /** `Update`: the driver's error unchanged, or the id that was asked for. */
    method Update(p: UpdateParams, fault: Option<Error>) returns (r: Result<string, Error>)
      modifies q
      ensures q.rows == ShortUrlDb.Update(old(q.rows), p, fault).1
      ensures r == match ShortUrlDb.Update(old(q.rows), p, fault).0
        case Ok(_) => Ok(Format(p.id))
        case Err(e) => Err(e)
    {
      var res := q.UpdateShortUrl(p, fault);
      if res.Err? {
        return Err(res.error);
      }
      return Ok(Format(p.id));
    }

    /** `Delete`: any error becomes internal. */
    method Delete(id: Uuid, fault: Option<Error>) returns (r: Option<Error>)
      modifies q
      ensures q.rows == ShortUrlDb.Delete(old(q.rows), id, fault).1
      ensures r == if fault.Some? then Some(InternalErr(SomethingWentWrong, fault)) else None
    {
      var err := q.DeleteShortUrl(id, fault);
      if err.Some? {
        return Some(InternalErr(SomethingWentWrong, err));
      }
      return None;
    }

    /**
     * `List`: one model per row of the user, in table order, with its access
     * count; a user without rows gets the nil slice (`None`), not an empty one.
     */
    method List(userId: Uuid, fault: Option<Error>) returns (r: Result<Option<seq<ShortUrl>>, Error>)
      ensures fault.Some? ==> r == Err(InternalErr(SomethingWentWrong, fault))
      ensures fault.None? ==> (r.Ok? && (r.value.None? <==> OwnedBy(q.rows, userId) == []))
      ensures fault.None? && r.value.Some? ==>
        var owned := OwnedBy(q.rows, userId);
        |r.value.value| == |owned| &&
        forall i :: 0 <= i < |owned| ==> r.value.value[i] == ToModel(owned[i], owned[i].accessCount)
    {
      var res := GetByUser(q.rows, userId, fault);
      if res.Err? {
        return Err(InternalErr(SomethingWentWrong, Some(res.error)));
      }
      var owned := res.value;
      var out: Option<seq<ShortUrl>> := None;
      var i := 0;
      while i < |owned|
        invariant 0 <= i <= |owned|
        invariant out.None? <==> i == 0
        invariant out.Some? ==> (|out.value| == i &&
          forall k :: 0 <= k < i ==> out.value[k] == ToModel(owned[k], owned[k].accessCount))
      {
        var m := ToModel(owned[i], owned[i].accessCount);
        out := if out.None? then Some([m]) else Some(out.value + [m]);
        i := i + 1;
      }
      return Ok(out);
    }
  }
}
