/**
 * The handlers of internal/api/handlers.go that decide something: saving a
 * new short URL with a bounded slug retry, the redirect, and the merges of
 * the two update handlers, with `createHashSlug` from internal/api/utils.go.
 * Request parsing is not modelled: each handler receives the decoded fields.
 * `crypto/rand`, the URL validator and the external shortener are oracles,
 * and the clock is the parameter `now`.
 */
module ApiHandlers {
  import opened Wrappers
  import opened WrapErrors
  import opened Uuids
  import opened Times
  import HashSlug
  import opened Http
  import opened ShortUrlDb
  import ShortUrlInfra
  import UserDb
  import Models

  /** `for range 5`: the number of insert attempts. */
  const Attempts: nat := 5

  /**
   * The slug the ten draws `draw(0)`, ..., `draw(9)` spell, or None when one
   * of them fails.
   */
  function DrawnSlug(draw: nat -> Result<HashSlug.Index, Error>): (r: Option<string>)
    ensures r.Some? <==> forall i :: 0 <= i < HashSlug.SlugLength ==> draw(i).Ok?
    ensures r.Some? ==> |r.value| == HashSlug.SlugLength
    ensures r.Some? ==> forall c :: c in r.value ==> HashSlug.IsAlphanumeric(c)
  {
    if forall i :: 0 <= i < HashSlug.SlugLength ==> draw(i).Ok? then
      HashSlug.SymbolsAreTheAlphanumerics();
      Some(seq(HashSlug.SlugLength, i requires 0 <= i < HashSlug.SlugLength && draw(i).Ok? => HashSlug.Symbol(draw(i).value)))
    else None
  }

  /**
   * `createHashSlug`: ten symbols drawn one at a time; the first failed draw
   * answers 500 "Failed to create a slug url" and `("", false)`.
   */
  method CreateHashSlug(w: Writer, draw: nat -> Result<HashSlug.Index, Error>) returns (slug: string, ok: bool)
    modifies w`status, w`body
    ensures ok <==> DrawnSlug(draw).Some?
    ensures ok ==> (slug == DrawnSlug(draw).value && w.status == old(w.status) && w.body == old(w.body))
    ensures !ok ==> (slug == "" && w.status == Fixed(Fixed(old(w.status), StatusInternalServerError), StatusOK) &&
      w.body == old(w.body) + [Line("Failed to create a slug url")])
  {
    var b := new char[HashSlug.SlugLength];
    for i := 0 to HashSlug.SlugLength
      invariant forall k :: 0 <= k < i ==> draw(k).Ok? && b[k] == HashSlug.Symbol(draw(k).value)
      invariant w.status == old(w.status) && w.body == old(w.body)
    {
      var num := draw(i);
      if num.Err? {
        w.Error("Failed to create a slug url", StatusInternalServerError);
        return "", false;
      }
      b[i] := HashSlug.Symbol(num.value);
    }
    slug, ok := b[..], true;
    assert slug == DrawnSlug(draw).value;
  }

  /**
   * The expiry `handleCreateShortUrl` stores: the requested time when there
   * is one and it is not Go's zero time, NULL otherwise.
   */
  function CreateExpiry(expiresAt: Option<int>): (t: Timestamptz)
    ensures t.valid <==> expiresAt.Some? && !IsZero(expiresAt.value)
    ensures t.valid ==> t.time == expiresAt.value
    ensures !t.valid ==> t == Null
  {
    if expiresAt.Some? && !IsZero(expiresAt.value) then Timestamptz(expiresAt.value, true) else Null
  }

  /** The error `saveNewShortUrl` retries on: a `*pgconn.PgError` 23505 on the slug constraint, unwrapped. */
  predicate IsSlugClash(err: Error) {
    err.PgError? && err.code == "23505" && err.constraint == SlugKey
  }

  /** What a new short URL is made of. */
  datatype NewUrl = NewUrl(userId: Uuid, originalUrl: string, expiresAt: Timestamptz)

  /**
   * What attempt k sees: `draws(k)` feeds its `createHashSlug`, `ids(k)` is
   * the id the database would give the row, and `faults(k)` the failure of
   * the insert, if any.
   */
  datatype Tries = Tries(draws: nat -> nat -> Result<HashSlug.Index, Error>, ids: nat -> Uuid, faults: nat -> Option<Error>)

  /** How an attempt, or the whole save, ends. */
  datatype Ending = NoSlug | Inserted(id: Uuid) | Refused(error: Error) | Clash | Exhausted

  /** The row attempt k adds when its insert succeeds. */
  function NewRow(req: NewUrl, slug: string, id: Uuid, now: int): UrlRow {
    UrlRow(id, slug, req.originalUrl, req.userId, now, req.expiresAt, 0)
  }

  /** One pass of the loop body of `saveNewShortUrl`. */
  function Step(rows: seq<UrlRow>, req: NewUrl, tries: Tries, now: int, k: nat): (r: (Ending, seq<UrlRow>))
    ensures r.0 != Exhausted
    ensures !r.0.Inserted? ==> r.1 == rows
    ensures r.0.Inserted? ==> (DrawnSlug(tries.draws(k)).Some? &&
      r.1 == rows + [NewRow(req, DrawnSlug(tries.draws(k)).value, r.0.id, now)])
  {
    Attempt(rows, req, DrawnSlug(tries.draws(k)), tries.ids(k), tries.faults(k), now)
  }

  /** An attempt with the slug drawn (or not), the id the database gives and the insert's failure. */
  function Attempt(rows: seq<UrlRow>, req: NewUrl, slug: Option<string>, id: Uuid, fault: Option<Error>, now: int): (r: (Ending, seq<UrlRow>))
    ensures r.0 != Exhausted
    ensures !r.0.Inserted? ==> r.1 == rows
    ensures r.0.Inserted? ==> (slug.Some? && r.1 == rows + [NewRow(req, slug.value, r.0.id, now)])
  {
    if slug.None? then (NoSlug, rows)
    else
      var created := Create(rows, CreateParams(req.userId, slug.value, req.originalUrl, req.expiresAt), id, now, fault);
      if created.0.Ok? then (Inserted(created.0.value), created.1)
      else if IsSlugClash(created.0.error) then (Clash, rows)
      else (Refused(created.0.error), rows)
  }

  /**
   * How an attempt ends: without a slug when a draw fails; with a retry
   * exactly when the slug is taken (or the insert fails with a slug clash of
   * its own); with an insert under the id the database gives only when the
   * slug is free.
   */
  lemma StepEndings(rows: seq<UrlRow>, req: NewUrl, tries: Tries, now: int, k: nat)
    ensures Step(rows, req, tries, now, k).0 == NoSlug <==> DrawnSlug(tries.draws(k)).None?
    ensures Step(rows, req, tries, now, k).0 == Clash <==> (DrawnSlug(tries.draws(k)).Some? &&
      (tries.faults(k).None? ==> FindBySlug(rows, DrawnSlug(tries.draws(k)).value).Some?) &&
      (tries.faults(k).Some? ==> IsSlugClash(tries.faults(k).value)))
    ensures Step(rows, req, tries, now, k).0.Inserted? ==> (Step(rows, req, tries, now, k).0.id == tries.ids(k) &&
      tries.faults(k).None? && FindBySlug(rows, DrawnSlug(tries.draws(k)).value).None?)
  {
    var slug := DrawnSlug(tries.draws(k));
    if slug.Some? {
      var p := CreateParams(req.userId, slug.value, req.originalUrl, req.expiresAt);
      var created := Create(rows, p, tries.ids(k), now, tries.faults(k));
      if tries.faults(k).None? && FindBySlug(rows, slug.value).None? && FindById(rows, tries.ids(k)).Some? {
        assert created.0 == Err(UserDb.DuplicateKey(PrimaryKey));
        assert !IsSlugClash(created.0.error) by {
          assert |PrimaryKey| != |SlugKey|;
        }
      }
    }
  }

  /**
   * The attempts from k on: a clash moves on to the next one, anything else
   * ends the save, and after the fifth clash the save is exhausted.
   */
  function Save(rows: seq<UrlRow>, req: NewUrl, tries: Tries, now: int, k: nat): (r: (Ending, seq<UrlRow>))
    decreases Attempts - k
    ensures r.0 != Clash
    ensures !r.0.Inserted? ==> r.1 == rows
  {
    if k >= Attempts then (Exhausted, rows)
    else
      var s := Step(rows, req, tries, now, k);
      if s.0 == Clash then Save(rows, req, tries, now, k + 1) else s
  }

  /** One more attempt: a clash defers to the attempts after it, anything else is the save's own ending. */
  lemma SaveUnfolds(rows: seq<UrlRow>, req: NewUrl, tries: Tries, now: int, k: nat)
    requires k < Attempts
    ensures var s := Step(rows, req, tries, now, k);
      Save(rows, req, tries, now, k) == if s.0 == Clash then Save(rows, req, tries, now, k + 1) else s
  {
  }

  /** The save is exhausted exactly when every one of the remaining attempts clashes. */
  lemma SaveExhausted(rows: seq<UrlRow>, req: NewUrl, tries: Tries, now: int, k: nat)
    ensures Save(rows, req, tries, now, k).0 == Exhausted <==>
      forall j :: k <= j < Attempts ==> Step(rows, req, tries, now, j).0 == Clash
  {
    if Save(rows, req, tries, now, k).0 == Exhausted {
      forall j | k <= j < Attempts
        ensures Step(rows, req, tries, now, j).0 == Clash
      {
        ExhaustedMeansClash(rows, req, tries, now, k, j);
      }
    } else if forall j :: k <= j < Attempts ==> Step(rows, req, tries, now, j).0 == Clash {
      AllClashesExhaust(rows, req, tries, now, k);
    }
  }

  lemma {:induction false} ExhaustedMeansClash(rows: seq<UrlRow>, req: NewUrl, tries: Tries, now: int, k: nat, j: nat)
    requires k <= j < Attempts && Save(rows, req, tries, now, k).0 == Exhausted
    ensures Step(rows, req, tries, now, j).0 == Clash
    decreases j - k
  {
    SaveUnfolds(rows, req, tries, now, k);
    if k < j {
      ExhaustedMeansClash(rows, req, tries, now, k + 1, j);
    }
  }

  lemma {:induction false} AllClashesExhaust(rows: seq<UrlRow>, req: NewUrl, tries: Tries, now: int, k: nat)
    requires forall j :: k <= j < Attempts ==> Step(rows, req, tries, now, j).0 == Clash
    ensures Save(rows, req, tries, now, k).0 == Exhausted
    decreases Attempts - k
  {
    if k < Attempts {
      SaveUnfolds(rows, req, tries, now, k);
      AllClashesExhaust(rows, req, tries, now, k + 1);
    }
  }

  /** A save that is not exhausted ends the way one of its attempts does. */
  lemma {:induction false} SaveEndsWithAStep(rows: seq<UrlRow>, req: NewUrl, tries: Tries, now: int, k: nat)
    ensures Save(rows, req, tries, now, k).0 != Exhausted ==>
      exists j :: k <= j < Attempts && Save(rows, req, tries, now, k) == Step(rows, req, tries, now, j)
    decreases Attempts - k
  {
    if k < Attempts && Step(rows, req, tries, now, k).0 == Clash {
      SaveEndsWithAStep(rows, req, tries, now, k + 1);
    }
  }

  /** The save stops at the first attempt that does not clash, and ends the way that attempt does. */
  lemma {:induction false} SaveStopsAtFirstNonClash(rows: seq<UrlRow>, req: NewUrl, tries: Tries, now: int, k: nat, n: nat)
    requires k <= n < Attempts
    requires forall j :: k <= j < n ==> Step(rows, req, tries, now, j).0 == Clash
    requires Step(rows, req, tries, now, n).0 != Clash
    ensures Save(rows, req, tries, now, k) == Step(rows, req, tries, now, n)
    decreases n - k
  {
    if k < n {
      assert Step(rows, req, tries, now, k).0 == Clash;
      SaveStopsAtFirstNonClash(rows, req, tries, now, k + 1, n);
    }
  }

  /**
   * At most one row is added, and it is the requested URL under a fresh,
   * ten-symbol alphanumeric slug, with no accesses yet.
   */
  lemma SaveAddsAtMostOneRow(rows: seq<UrlRow>, req: NewUrl, tries: Tries, now: int)
    ensures var r := Save(rows, req, tries, now, 0);
      r.1 == rows || (r.0.Inserted? && |r.1| == |rows| + 1 && r.1[..|rows|] == rows &&
        r.1[|rows|].id == r.0.id && r.1[|rows|].userId == req.userId &&
        r.1[|rows|].originalUrl == req.originalUrl && r.1[|rows|].expiresAt == req.expiresAt &&
        r.1[|rows|].createdAt == now && r.1[|rows|].accessCount == 0 &&
        |r.1[|rows|].slug| == HashSlug.SlugLength && (forall c :: c in r.1[|rows|].slug ==> HashSlug.IsAlphanumeric(c)) &&
        FindBySlug(rows, r.1[|rows|].slug).None?)
  {
    var r := Save(rows, req, tries, now, 0);
    SaveEndsWithAStep(rows, req, tries, now, 0);
    if r.0.Inserted? {
      var j :| 0 <= j < Attempts && r == Step(rows, req, tries, now, j);
      StepEndings(rows, req, tries, now, j);
      assert r.1[..|rows|] == rows;
    }
  }

  /** The response body of each ending, as `saveNewShortUrl` is written: a success also reports a failure. */
  function AsWritten(e: Ending): seq<Chunk> {
    match e
    case NoSlug => [Line("Failed to create a slug url")]
    case Inserted(id) => [Json(Format(id)), Line("someting went wrong")]
    case Refused(_) => [Line("someting went wrong")]
    case Clash => []
    case Exhausted => [Line("could not generate unique slug")]
  }

  /** The response body of each ending once a success returns after writing the id. */
  function Intended(e: Ending): seq<Chunk> {
    if e.Inserted? then [Json(Format(e.id))] else AsWritten(e)
  }

  /** The status of each ending: the id's body write fixes 200 before `http.Error` can set 500. */
  function StatusOf(e: Ending): int {
    if e.Inserted? then StatusOK else StatusInternalServerError
  }

  /**
   * On an empty table with every draw and insert succeeding, the first attempt
   * inserts, and the response carries the new id followed by "someting went wrong".
   */
  lemma SuccessIsAlsoReportedAsFailure(req: NewUrl, id: Uuid, now: int)
    ensures var tries := Tries(k => i => Ok(0), k => id, k => None);
      Save([], req, tries, now, 0).0 == Inserted(id) &&
      AsWritten(Save([], req, tries, now, 0).0) == [Json(Format(id)), Line("someting went wrong")] &&
      Intended(Save([], req, tries, now, 0).0) == [Json(Format(id))]
  {
    var tries := Tries(k => i => Ok(0), k => id, k => None);
    assert DrawnSlug(tries.draws(0)).Some?;
    assert Step([], req, tries, now, 0).0 == Inserted(id);
  }

  /** The handlers, over the user and short-URL tables of `h.q`. */
  class ApiHandler {
    const users: UserDb.Queries
    const urls: UrlTable

    constructor (users: UserDb.Queries, urls: UrlTable)
      ensures this.users == users && this.urls == urls
    {
      this.users := users;
      this.urls := urls;
    }

    /**
     * The first half of one pass of the loop: draw a slug with
     * `createHashSlug`, then insert. `Clash` is the `*pgconn.PgError` the
     * loop retries on; only a failed draw writes to the response.
     */
    method InsertWithNewSlug(w: Writer, req: NewUrl, tries: Tries, now: int, k: nat) returns (e: Ending)
      requires w.Fresh()
      modifies w`status, w`body, urls`rows
      ensures (e, urls.rows) == Step(old(urls.rows), req, tries, now, k)
      ensures e == NoSlug ==> (w.status == StatusInternalServerError && w.body == AsWritten(NoSlug))
      ensures e != NoSlug ==> w.Fresh()
    {
      var slug, ok := CreateHashSlug(w, tries.draws(k));
      if !ok {
        return NoSlug;
      }
      var id := urls.CreateShortUrl(CreateParams(req.userId, slug, req.originalUrl, req.expiresAt), tries.ids(k), now, tries.faults(k));
      if id.Ok? {
        e := Inserted(id.value);
      } else if IsSlugClash(id.error) {
        e := Clash;
      } else {
        e := Refused(id.error);
      }
    }

    /**
     * `saveNewShortUrl` as written: a successful insert writes the id and
     * then falls through to the 500 branch, whose header comes too late.
     */
    method SaveNewShortUrl(w: Writer, req: NewUrl, tries: Tries, now: int)
      requires w.Fresh()
      modifies w`status, w`body, urls`rows
      ensures urls.rows == Save(old(urls.rows), req, tries, now, 0).1
      ensures w.body == AsWritten(Save(old(urls.rows), req, tries, now, 0).0)
      ensures w.status == StatusOf(Save(old(urls.rows), req, tries, now, 0).0)
    {
      ghost var rows := urls.rows;
      ghost var goal := Save(rows, req, tries, now, 0);
      var k := 0;
      while k < Attempts
        invariant 0 <= k <= Attempts
        invariant urls.rows == rows && w.Fresh()
        invariant goal == Save(rows, req, tries, now, k)
      {
        var e := InsertWithNewSlug(w, req, tries, now, k);
        SaveUnfolds(rows, req, tries, now, k);
        assert e != Clash ==> goal == (e, urls.rows);
        if e == NoSlug {
          return;
        }
        if e.Inserted? {
          w.SendJSON(Format(e.id));
          assert w.status == StatusOK;
        }
        if e == Clash {
          k := k + 1;
          continue;
        }
        w.Error("someting went wrong", StatusInternalServerError);
        return;
      }
      w.Error("could not generate unique slug", StatusInternalServerError);
    }

    /** `saveNewShortUrl` with the missing `return` after the id is written. */
    method SaveNewShortUrlFixed(w: Writer, req: NewUrl, tries: Tries, now: int)
      requires w.Fresh()
      modifies w`status, w`body, urls`rows
      ensures urls.rows == Save(old(urls.rows), req, tries, now, 0).1
      ensures w.body == Intended(Save(old(urls.rows), req, tries, now, 0).0)
      ensures w.status == StatusOf(Save(old(urls.rows), req, tries, now, 0).0)
    {
      ghost var rows := urls.rows;
      ghost var goal := Save(rows, req, tries, now, 0);
      var k := 0;
      while k < Attempts
        invariant 0 <= k <= Attempts
        invariant urls.rows == rows && w.Fresh()
        invariant goal == Save(rows, req, tries, now, k)
      {
        var e := InsertWithNewSlug(w, req, tries, now, k);
        SaveUnfolds(rows, req, tries, now, k);
        assert e != Clash ==> goal == (e, urls.rows);
        if e == NoSlug {
          return;
        }
        if e.Inserted? {
          w.SendJSON(Format(e.id));
          return;
        }
        if e == Clash {
          k := k + 1;
          continue;
        }
        w.Error("someting went wrong", StatusInternalServerError);
        return;
      }
      w.Error("could not generate unique slug", StatusInternalServerError);
    }

    /**
     * `handleCreateShortUrl` after decoding: the URL check (`urlValid`
     * stands for `validateUrl`), then the save with the expiry of
     * `CreateExpiry`.
     */
    method HandleCreateShortUrl(w: Writer, userId: Uuid, originalUrl: string, expiresAt: Option<int>,
                                urlValid: bool, tries: Tries, now: int)
      requires w.Fresh()
      modifies w`status, w`body, urls`rows
      ensures !urlValid ==> (urls.rows == old(urls.rows) && w.status == StatusBadRequest && w.body == [Line("invalid url")])
      ensures urlValid ==> (
        var saved := Save(old(urls.rows), NewUrl(userId, originalUrl, CreateExpiry(expiresAt)), tries, now, 0);
        urls.rows == saved.1 && w.body == AsWritten(saved.0) && w.status == StatusOf(saved.0))
    {
      if !urlValid {
        w.Error("invalid url", StatusBadRequest);
        return;
      }
      SaveNewShortUrl(w, NewUrl(userId, originalUrl, CreateExpiry(expiresAt)), tries, now);
    }

    /**
     * `handleRedirect`: a missing row is 404, any other lookup error 500, an
     * expired URL 410; otherwise a 302 to the original URL.
     */
    method HandleRedirect(w: Writer, slug: string, now: int, fault: Option<Error>)
      requires w.Fresh()
      modifies w`status, w`body, w`location
      ensures GetBySlug(urls.rows, slug, fault).Err? && IsNoRows(GetBySlug(urls.rows, slug, fault).error) ==>
        (w.status == StatusNotFound && w.body == [Line("short url not found")] && w.location == None)
      ensures GetBySlug(urls.rows, slug, fault).Err? && !IsNoRows(GetBySlug(urls.rows, slug, fault).error) ==>
        (w.status == StatusInternalServerError && w.body == [Line("something went wrong")] && w.location == None)
      ensures GetBySlug(urls.rows, slug, fault).Ok? && ShortUrlInfra.Expired(GetBySlug(urls.rows, slug, fault).value, now) ==>
        (w.status == StatusGone && w.body == [Line("short url expired")] && w.location == None)
      ensures w.status == StatusFound <==>
        (GetBySlug(urls.rows, slug, fault).Ok? && !ShortUrlInfra.Expired(GetBySlug(urls.rows, slug, fault).value, now))
      ensures w.status == StatusFound ==>
        (w.location == Some(GetBySlug(urls.rows, slug, fault).value.originalUrl) && w.body == [])
    {
      var shortUrl := GetBySlug(urls.rows, slug, fault);
      if shortUrl.Err? {
        if IsNoRows(shortUrl.error) {
          w.Error("short url not found", StatusNotFound);
          return;
        }
        w.Error("something went wrong", StatusInternalServerError);
        return;
      }
      if shortUrl.value.expiresAt.valid && After(now, shortUrl.value.expiresAt.time) {
        w.Error("short url expired", StatusGone);
        return;
      }
      w.Redirect(shortUrl.value.originalUrl, StatusFound);
    }

    /**
     * `handelUpdateUser`: an id that does not parse is 400, any lookup
     * failure 404; each absent field keeps its stored value, and an update
     * failure is 500.
     */
    method HandelUpdateUser(w: Writer, rawId: string, name: Option<string>, email: Option<string>,
                            lookupFault: Option<Error>, updateFault: Option<Error>)
      requires w.Fresh()
      modifies w`status, w`body, users`users
      ensures Parse(rawId).None? ==>
        (users.users == old(users.users) && w.status == StatusBadRequest && w.body == [Line("invalid user id")])
      ensures Parse(rawId).Some? && UserDb.GetUser(old(users.users), Parse(rawId).value, lookupFault).Err? ==>
        (users.users == old(users.users) && w.status == StatusNotFound && w.body == [Line("user not found")])
      ensures Parse(rawId).Some? && UserDb.GetUser(old(users.users), Parse(rawId).value, lookupFault).Ok? ==> (
        var id := Parse(rawId).value;
        var stored := UserDb.GetUser(old(users.users), id, lookupFault).value;
        var updated := UserDb.UpdateUser(old(users.users), id, Merged(name, stored.name), Merged(email, stored.email), updateFault);
        users.users == updated.1 &&
        (updated.0.Ok? ==> w.status == StatusOK && w.body == [Json(Format(id))]) &&
        (updated.0.Err? ==> w.status == StatusInternalServerError && w.body == [Line("something went wrong")]))
    {
      var userId := Parse(rawId);
      if userId.None? {
        w.Error("invalid user id", StatusBadRequest);
        return;
      }
      var existing := UserDb.GetUser(users.users, userId.value, lookupFault);
      if existing.Err? {
        w.Error("user not found", StatusNotFound);
        return;
      }
      var newName := existing.value.name;
      if name.Some? {
        newName := name.value;
      }
      var newEmail := existing.value.email;
      if email.Some? {
        newEmail := email.value;
      }
      var updated := users.UpdateUserQuery(userId.value, newName, newEmail, updateFault);
      if updated.Err? {
        w.Error("something went wrong", StatusInternalServerError);
        return;
      }
      w.SendJSON(Format(updated.value.id));
    }

    /**
     * `handleUpdateShortUrl`: an id that does not parse is 400, any lookup
     * failure 404. A new URL must pass `validateUrl` (`urlValid`) and brings
     * a slug from the external shortener (`shortened`); without one the
     * stored URL and slug stay. A new expiry is stored as given.
     */
    method HandleUpdateShortUrl(w: Writer, rawId: string, originalUrl: Option<string>, expiresAt: Option<int>,
                                urlValid: bool, lookupFault: Option<Error>, shortened: Result<string, Error>,
                                updateFault: Option<Error>)
      requires w.Fresh()
      modifies w`status, w`body, urls`rows
      ensures Parse(rawId).None? ==>
        (urls.rows == old(urls.rows) && w.status == StatusBadRequest && w.body == [Line("invalid short url id")])
      ensures Parse(rawId).Some? && GetById(old(urls.rows), Parse(rawId).value, lookupFault).Err? ==>
        (urls.rows == old(urls.rows) && w.status == StatusNotFound && w.body == [Line("short url not found")])
      ensures Parse(rawId).Some? && GetById(old(urls.rows), Parse(rawId).value, lookupFault).Ok? && originalUrl.Some? && !urlValid ==>
        (urls.rows == old(urls.rows) && w.status == StatusBadRequest && w.body == [Line("invalid url")])
      ensures Parse(rawId).Some? && GetById(old(urls.rows), Parse(rawId).value, lookupFault).Ok? && originalUrl.Some? && urlValid && shortened.Err? ==>
        (urls.rows == old(urls.rows) && w.status == StatusInternalServerError && w.body == [Line("failed to generate slug")])
      ensures (Parse(rawId).Some? && GetById(old(urls.rows), Parse(rawId).value, lookupFault).Ok? &&
        (originalUrl.Some? ==> urlValid && shortened.Ok?)) ==> (
        var id := Parse(rawId).value;
        var stored := GetById(old(urls.rows), id, lookupFault).value;
        var p := UpdateParams(id, NewSlug(originalUrl, shortened, stored.slug), Merged(originalUrl, stored.originalUrl),
                              if expiresAt.Some? then Timestamptz(expiresAt.value, true) else stored.expiresAt);
        var updated := Update(old(urls.rows), p, updateFault);
        urls.rows == updated.1 &&
        (updated.0.Ok? ==> w.status == StatusOK && w.body == [Json(Format(id))]) &&
        (updated.0.Err? ==> w.status == StatusInternalServerError && w.body == [Line("something went wrong")]))
    {
      var shortUrlId := Parse(rawId);
      if shortUrlId.None? {
        w.Error("invalid short url id", StatusBadRequest);
        return;
      }
      var existing := GetById(urls.rows, shortUrlId.value, lookupFault);
      if existing.Err? {
        w.Error("short url not found", StatusNotFound);
        return;
      }
      var url := existing.value.originalUrl;
      if originalUrl.Some? {
        if !urlValid {
          w.Error("invalid url", StatusBadRequest);
          return;
        }
        url := originalUrl.value;
      }
      var expiry := existing.value.expiresAt;
      if expiresAt.Some? {
        expiry := Timestamptz(expiresAt.value, true);
      }
      var slug := existing.value.slug;
      if originalUrl.Some? {
        if shortened.Err? {
          w.Error("failed to generate slug", StatusInternalServerError);
          return;
        }
        slug := shortened.value;
      }
      var updated := urls.UpdateShortUrl(UpdateParams(shortUrlId.value, slug, url, expiry), updateFault);
      if updated.Err? {
        w.Error("something went wrong", StatusInternalServerError);
        return;
      }
      w.SendJSON(Format(shortUrlId.value));
    }
  }

  /** A field of a partial update: the given value, or the stored one when absent. */
  function Merged(given: Option<string>, stored: string): string {
    if given.Some? then given.value else stored
  }

  /** The slug after an update: a new one from the shortener only when a new URL is given. */
  function NewSlug(originalUrl: Option<string>, shortened: Result<string, Error>, stored: string): string {
    if originalUrl.Some? && shortened.Ok? then shortened.value else stored
  }

  /** The merge of `handelUpdateUser` is `ApplyTo` on the stored user. */
  lemma UpdateMergeIsApplyTo(stored: UserDb.UserRow, name: Option<string>, email: Option<string>)
    ensures UserDb.ToModel(stored.(name := Merged(name, stored.name), email := Merged(email, stored.email))) ==
      Models.UpdateUserInput(name, email).ApplyTo(UserDb.ToModel(stored))
  {
  }

  /**
   * A successful short-URL update without a new URL keeps the stored slug
   * and URL; with one, it stores the new URL under the slug the shortener
   * answered, which may happen to equal the stored one.
   */
  lemma SlugChangesOnlyWithNewUrl(rows: seq<UrlRow>, id: Uuid, originalUrl: Option<string>, expiresAt: Option<int>,
                                  shortened: Result<string, Error>, updateFault: Option<Error>)
    requires FindById(rows, id).Some?
    requires originalUrl.Some? ==> shortened.Ok?
    ensures var stored := rows[FindById(rows, id).value];
      var p := UpdateParams(id, NewSlug(originalUrl, shortened, stored.slug), Merged(originalUrl, stored.originalUrl),
                            if expiresAt.Some? then Timestamptz(expiresAt.value, true) else stored.expiresAt);
      var updated := Update(rows, p, updateFault);
      updated.0.Ok? ==> (
        (originalUrl.None? ==> updated.0.value.slug == stored.slug && updated.0.value.originalUrl == stored.originalUrl) &&
        (originalUrl.Some? ==> updated.0.value.slug == shortened.value && updated.0.value.originalUrl == originalUrl.value) &&
        (expiresAt.None? ==> updated.0.value.expiresAt == stored.expiresAt) &&
        (expiresAt.Some? ==> updated.0.value.expiresAt == Timestamptz(expiresAt.value, true)))
  {
  }
}
