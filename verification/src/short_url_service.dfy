/**
 * The short-URL service of internal/core/usecases/services/short_url.service.go.
 * The repository is an interface whose implementation is not part of this
 * model: the reply it gives each call is a parameter. `draw(k)` is what
 * `utils.CreateHashSlug` returns on the k-th attempt of `genSlug`, and
 * `lookup(s)` is the repository's answer to `GetBySlug(s)`.
 */
module ShortUrlService {
  import opened Wrappers
  import opened WrapErrors
  import opened Uuids
  import opened Models
  import opened ShortUrlDb
  import ShortUrlInfra

  const MaxAttempts: int := 5
  const SomethingWentWrong: string := "something went wrong"

  /** The error `uuid.Parse` gives for a malformed id (its exact text is not modelled). */
  const InvalidUuid: Error := Plain("invalid UUID format")

  /** How a call ends: with its results, or with a nil-pointer panic. */
  datatype Outcome<T> = Returned(result: Result<T, Error>) | NilDeref

  /** The lookup says the slug is free: `errors.As` finds an `*AppError` that `Is(ErrNotFound)`. */
  predicate Vacant(reply: Result<ShortUrl, Error>) {
    reply.Err? && AsApp(reply.error).Some? && AppIs(AsApp(reply.error).value, Sentinel(NotFound))
  }

  /** Attempt `k` drew a slug that the lookup found in use. */
  predicate Taken(draw: int -> Result<string, Error>, lookup: string -> Result<ShortUrl, Error>, k: int) {
    draw(k).Ok? && lookup(draw(k).value).Ok?
  }

  const TooManyAttempts: Error := InternalErr("failed to generate unique slug after several attempts", None)

  /**
   * `genSlug(count)`: draw a candidate and keep it if the lookup says it is
   * free; a candidate in use moves on to the next attempt, anything else
   * stops with an internal error. Attempts go up to `MaxAttempts`.
   */
  function GenSlug(count: int, draw: int -> Result<string, Error>, lookup: string -> Result<ShortUrl, Error>)
    : (r: Result<string, Error>)
    decreases MaxAttempts + 1 - count
    ensures r.Ok? ==> exists k :: (count <= k <= MaxAttempts && draw(k) == Ok(r.value) && Vacant(lookup(r.value)) &&
      forall j :: count <= j < k ==> Taken(draw, lookup, j))
    ensures r == Err(TooManyAttempts) <==> forall j :: count <= j <= MaxAttempts ==> Taken(draw, lookup, j)
  {
    if count > MaxAttempts then Err(TooManyAttempts)
    else match draw(count)
      case Err(e) =>
        assert !Taken(draw, lookup, count);
        Err(InternalErr("failed to create hash slug", Some(e)))
      case Ok(slug) =>
        var reply := lookup(slug);
        if Vacant(reply) then
          assert !Taken(draw, lookup, count);
          Ok(slug)
        else if reply.Ok? then GenSlug(count + 1, draw, lookup)
        else
          assert !Taken(draw, lookup, count);
          Err(InternalErr("error checking slug existence", Some(reply.error)))
  }

  /**
   * The first attempt that does not find its candidate in use decides: a
   * generator failure and a failed lookup stop with their own errors.
   */
  lemma {:induction false} GenSlugStopsAtFirstFreeAttempt(count: int, k: int, draw: int -> Result<string, Error>, lookup: string -> Result<ShortUrl, Error>)
    requires count <= k <= MaxAttempts && !Taken(draw, lookup, k)
    requires forall j :: count <= j < k ==> Taken(draw, lookup, j)
    ensures draw(k).Err? ==> GenSlug(count, draw, lookup) == Err(InternalErr("failed to create hash slug", Some(draw(k).error)))
    ensures draw(k).Ok? && Vacant(lookup(draw(k).value)) ==> GenSlug(count, draw, lookup) == Ok(draw(k).value)
    ensures draw(k).Ok? && !Vacant(lookup(draw(k).value)) ==>
      GenSlug(count, draw, lookup) == Err(InternalErr("error checking slug existence", Some(lookup(draw(k).value).error)))
    decreases k - count
  {
    if count < k {
      assert Taken(draw, lookup, count);
      assert GenSlug(count, draw, lookup) == GenSlug(count + 1, draw, lookup);
      GenSlugStopsAtFirstFreeAttempt(count + 1, k, draw, lookup);
    } else if draw(k).Ok? {
      assert lookup(draw(k).value).Err?;
    }
  }

  datatype CreateInput = CreateInput(originalUrl: string, expiresAt: Option<int>)

  /**
   * `CreateShortUrl`: a slug is generated first, then the user id is parsed,
   * then the expiry is dereferenced. The first component is what reaches
   * the repository's `Create`, whose reply is `created`.
   */
  function CreateShortUrl(rawUserId: string, input: CreateInput, draw: int -> Result<string, Error>,
                          lookup: string -> Result<ShortUrl, Error>, created: Result<string, Error>)
    : (r: (Option<CreateParams>, Outcome<string>))
    ensures GenSlug(1, draw, lookup).Err? ==> r == (None, Returned(Err(GenSlug(1, draw, lookup).error)))
    ensures GenSlug(1, draw, lookup).Ok? && Parse(rawUserId).None? ==>
      r == (None, Returned(Err(InternalErr(SomethingWentWrong, Some(InvalidUuid)))))
    ensures input.expiresAt.None? ==> r.0.None?
    ensures GenSlug(1, draw, lookup).Ok? && Parse(rawUserId).Some? ==>
      r == if input.expiresAt.None? then (None, NilDeref)
           else (Some(CreateParams(Parse(rawUserId).value, GenSlug(1, draw, lookup).value, input.originalUrl,
                                   Timestamptz(input.expiresAt.value, true))), Returned(created))
    ensures r.0.Some? ==> (r.1 == Returned(created) && input.expiresAt.Some? && Parse(rawUserId).Some? &&
      r.0.value == CreateParams(Parse(rawUserId).value, GenSlug(1, draw, lookup).value, input.originalUrl,
                                Timestamptz(input.expiresAt.value, true)) &&
      Vacant(lookup(r.0.value.slug)))
  {
    var slug := GenSlug(1, draw, lookup);
    if slug.Err? then (None, Returned(Err(slug.error)))
    else
      var userId := Parse(rawUserId);
      if userId.None? then (None, Returned(Err(InternalErr(SomethingWentWrong, Some(InvalidUuid)))))
      else if input.expiresAt.None? then (None, NilDeref)
      else
        (Some(CreateParams(userId.value, slug.value, input.originalUrl, Timestamptz(input.expiresAt.value, true))),
         Returned(created))
  }

  /**
   * The as-written create panics on a request without an expiry once a slug
   * is drawn and the user id parses: the expiry pointer is dereferenced
   * before its nil check is used to mark the timestamp invalid.
   */
  lemma CreateWithoutExpiryPanics(userId: Uuid, originalUrl: string, draw: int -> Result<string, Error>,
                                  lookup: string -> Result<ShortUrl, Error>, created: Result<string, Error>)
    requires GenSlug(1, draw, lookup).Ok?
    ensures CreateShortUrl(Format(userId), CreateInput(originalUrl, None), draw, lookup, created) == (None, NilDeref)
  {
    ParseFormat(userId);
  }

  /**
   * `CreateShortUrl` as intended: a request without an expiry is sent with
   * a NULL timestamp, so every request with a free slug and a good user id
   * reaches the repository, and the expiry read back is the one asked for.
   */
  function CreateShortUrlFixed(rawUserId: string, input: CreateInput, draw: int -> Result<string, Error>,
                               lookup: string -> Result<ShortUrl, Error>, created: Result<string, Error>)
    : (r: (Option<CreateParams>, Outcome<string>))
    ensures r.1.Returned?
    ensures GenSlug(1, draw, lookup).Err? ==> r == (None, Returned(Err(GenSlug(1, draw, lookup).error)))
    ensures GenSlug(1, draw, lookup).Ok? && Parse(rawUserId).None? ==>
      r == (None, Returned(Err(InternalErr(SomethingWentWrong, Some(InvalidUuid)))))
    ensures r.0.Some? <==> GenSlug(1, draw, lookup).Ok? && Parse(rawUserId).Some?
    ensures r.0.Some? ==> (r.1 == Returned(created) && r.0.value.userId == Parse(rawUserId).value &&
      r.0.value.slug == GenSlug(1, draw, lookup).value && Vacant(lookup(r.0.value.slug)) &&
      r.0.value.originalUrl == input.originalUrl &&
      ShortUrlInfra.ExpiresOf(r.0.value.expiresAt) == input.expiresAt &&
      (!r.0.value.expiresAt.valid ==> r.0.value.expiresAt == Null))
  {
    var slug := GenSlug(1, draw, lookup);
    if slug.Err? then (None, Returned(Err(slug.error)))
    else
      var userId := Parse(rawUserId);
      if userId.None? then (None, Returned(Err(InternalErr(SomethingWentWrong, Some(InvalidUuid)))))
      else
        var expiresAt := if input.expiresAt.Some? then Timestamptz(input.expiresAt.value, true) else Null;
        (Some(CreateParams(userId.value, slug.value, input.originalUrl, expiresAt)), Returned(created))
  }

  /** Where the request carries an expiry, the corrected create is the as-written one. */
  lemma CreateFixedAgreesWithExpiry(rawUserId: string, input: CreateInput, draw: int -> Result<string, Error>,
                                    lookup: string -> Result<ShortUrl, Error>, created: Result<string, Error>)
    requires input.expiresAt.Some?
    ensures CreateShortUrlFixed(rawUserId, input, draw, lookup, created) == CreateShortUrl(rawUserId, input, draw, lookup, created)
  {
  }

  /**
   * A call that only forwards a parsed id to the repository: a malformed id
   * is internal and reaches nothing; a good one is asked for, and its reply
   * is the answer. This is `GetShortUrl`, `DeleteShortUrl` and `ListShortUrl`.
   */
  function Forward<T>(rawId: string, reply: Result<T, Error>): (r: (Option<Uuid>, Result<T, Error>))
    ensures Parse(rawId).None? ==> r == (None, Err(InternalErr(SomethingWentWrong, Some(InvalidUuid))))
    ensures Parse(rawId).Some? ==> r == (Parse(rawId), reply)
  {
    var id := Parse(rawId);
    if id.None? then (None, Err(InternalErr(SomethingWentWrong, Some(InvalidUuid)))) else (id, reply)
  }

  datatype UpdateInput = UpdateInput(originalUrl: Option<string>, expiresAt: Option<int>)

  /** The stored record with each field the input sets written over it. */
  function Merged(stored: ShortUrl, input: UpdateInput): (u: ShortUrl)
    ensures u.originalUrl == if input.originalUrl.Some? then input.originalUrl.value else stored.originalUrl
    ensures u.expiresAt == if input.expiresAt.Some? then input.expiresAt else stored.expiresAt
    ensures u.(originalUrl := stored.originalUrl, expiresAt := stored.expiresAt) == stored
  {
    stored.(originalUrl := if input.originalUrl.Some? then input.originalUrl.value else stored.originalUrl,
            expiresAt := if input.expiresAt.Some? then input.expiresAt else stored.expiresAt)
  }

  /**
   * `UpdateShortUrl`: parse the id, load the record, overwrite the fields the
   * input sets, draw a new slug, and send it all to the repository's `Update`.
   * `loaded` is the repository's answer to `GetShortUrl`, `updated` its answer
   * to `Update`; `sent` is what `Update` receives.
   */
  method UpdateShortUrl(id: string, input: UpdateInput, loaded: Result<ShortUrl, Error>,
                        draw: int -> Result<string, Error>, lookup: string -> Result<ShortUrl, Error>,
                        updated: Result<string, Error>)
    returns (sent: Option<UpdateParams>, r: Outcome<string>)
    ensures Parse(id).None? ==> sent.None? && r == Returned(Err(InternalErr(SomethingWentWrong, Some(InvalidUuid))))
    ensures Parse(id).Some? && loaded.Err? ==> sent.None? && r == Returned(Err(NotFoundErr("short err not found")))
    ensures Parse(id).Some? && loaded.Ok? && GenSlug(1, draw, lookup).Err? ==>
      sent.None? && r == Returned(Err(GenSlug(1, draw, lookup).error))
    ensures Parse(id).Some? && loaded.Ok? && GenSlug(1, draw, lookup).Ok? ==>
      var merged := Merged(loaded.value, input);
      if merged.expiresAt.None? then sent.None? && r == NilDeref
      else sent == Some(UpdateParams(Parse(id).value, GenSlug(1, draw, lookup).value, merged.originalUrl,
                                     Timestamptz(merged.expiresAt.value, true))) &&
           r == Returned(updated)
  {
    var shortUrlId := Parse(id);
    if shortUrlId.None? {
      return None, Returned(Err(InternalErr(SomethingWentWrong, Some(InvalidUuid))));
    }
    if loaded.Err? {
      return None, Returned(Err(NotFoundErr("short err not found")));
    }
    var shortUrl := new ShortUrlRef(loaded.value);
    if input.originalUrl.Some? {
      shortUrl.url := shortUrl.url.(originalUrl := input.originalUrl.value);
    }
    if input.expiresAt.Some? {
      shortUrl.url := shortUrl.url.(expiresAt := input.expiresAt);
    }
    var newSlug := GenSlug(1, draw, lookup);
    if newSlug.Err? {
      return None, Returned(Err(newSlug.error));
    }
    if shortUrl.url.expiresAt.None? {
      return None, NilDeref;
    }
    sent := Some(UpdateParams(shortUrlId.value, newSlug.value, shortUrl.url.originalUrl,
                              Timestamptz(shortUrl.url.expiresAt.value, true)));
    r := Returned(updated);
  }

  /** Whatever the input, an update that reaches the repository carries a slug the lookup reported free. */
  lemma UpdateSendsFreshSlug(stored: ShortUrl, input: UpdateInput, draw: int -> Result<string, Error>,
                             lookup: string -> Result<ShortUrl, Error>)
    requires GenSlug(1, draw, lookup).Ok?
    ensures Vacant(lookup(GenSlug(1, draw, lookup).value))
    ensures lookup(stored.slug).Ok? ==> GenSlug(1, draw, lookup).value != stored.slug
  {
  }
}
