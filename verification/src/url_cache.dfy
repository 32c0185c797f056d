/**
 * The Redis URL cache of internal/data/infra/cache.go: cached original URLs
 * under `url:<slug>` with a TTL derived from the expiry, and the recent-slug
 * list. The goroutines `LogRecentAccess` and `GetURL` start are run to
 * completion before the call returns.
 */
module UrlCache {
  import opened Wrappers
  import opened WrapErrors
  import opened Redis
  import opened Times
  import opened RecentList
  import opened Models

  const UrlPrefix: string := "url:"
  const DefaultTTL: int := 24 * Hour
  const MinTTL: int := 5 * Minute

  function UrlKey(slug: string): string {
    UrlPrefix + slug
  }

  /**
   * `calculateTTL`: 24h without an expiry (or with the zero time), nothing once
   * the expiry has passed, otherwise the time left but never under 5 minutes.
   */
  function CalculateTTL(expiresAt: Option<int>, now: int): (ttl: int)
    ensures ttl == 0 || MinTTL <= ttl <= MaxInt64
    ensures expiresAt.None? || IsZero(expiresAt.value) ==> ttl == DefaultTTL
    ensures expiresAt.Some? && !IsZero(expiresAt.value) ==>
      (ttl == 0 <==> expiresAt.value <= now) &&
      (ttl > MinTTL ==> ttl == Until(expiresAt.value, now)) &&
      (expiresAt.value > now ==> Until(expiresAt.value, now) <= ttl)
  {
    if expiresAt.Some? && !IsZero(expiresAt.value) then
      var left := Until(expiresAt.value, now);
      if left <= 0 then 0 else if left < MinTTL then MinTTL else left
    else
      DefaultTTL
  }

  /** The limit `GetRecentURLs` uses: its argument when within 1..20, else 20. */
  function ClampLimit(limit: int): (r: nat)
    ensures 1 <= r <= MaxLength
    ensures 1 <= limit <= MaxLength ==> r == limit
    ensures !(1 <= limit <= MaxLength) ==> r == MaxLength
  {
    if limit <= 0 || limit > MaxLength then MaxLength else limit
  }

  class URLCache {
    const client: Store

    constructor (client: Store)
      ensures this.client == client
    {
      this.client := client;
    }

    /**
     * `LogRecentAccess`: with a short URL, cache its original URL for the TTL
     * and refresh the recent list; a TTL of 0 or a failed `SET` stops there.
     * The answer does not depend on how the caching went.
     */
    method LogRecentAccess(shortUrl: Option<ShortUrl>, now: int, setFail: bool, f: ListFaults)
      returns (err: Option<Error>)
      modifies client`strings, client`recent
      ensures shortUrl.None? ==> err == Some(ValidationErr("short url cannot be nil"))
      ensures shortUrl.None? ==> client.strings == old(client.strings) && client.recent == old(client.recent)
      ensures shortUrl.Some? ==> err == None
      ensures shortUrl.Some? ==>
        var u := shortUrl.value;
        var ttl := CalculateTTL(u.expiresAt, now);
        var cached := ttl > 0 && !setFail;
        client.strings == (if cached then old(client.strings)[UrlKey(u.slug) := Entry(u.originalUrl, ttl)] else old(client.strings)) &&
        client.recent == (if cached then Updated(old(client.recent), u.slug, f) else old(client.recent))
    {
      if shortUrl.None? {
        return Some(ValidationErr("short url cannot be nil"));
      }
      var u := shortUrl.value;
      var ttl := CalculateTTL(u.expiresAt, now);
      if ttl > 0 {
        var ok := client.Set(UrlKey(u.slug), u.originalUrl, ttl, setFail);
        if ok {
          UpdateListURLs(u.slug, f);
        }
      }
      err := None;
    }

    /**
     * `GetURL`: a hit answers the cached URL and refreshes the recent list; a
     * miss is NotFound, any other store error Internal, an empty slug Validation.
     */
    method GetURL(slug: string, fail: bool, f: ListFaults) returns (r: Result<string, Error>)
      modifies client`recent
      ensures slug == "" ==> r == Err(ValidationErr("slug cannot be empty"))
      ensures slug != "" && fail ==> r == Err(InternalErr("cache retrieval error", Some(CommandError)))
      ensures slug != "" && !fail && UrlKey(slug) !in client.strings ==> r == Err(NotFoundErr("url not found in cache"))
      ensures r.Err? ==> client.recent == old(client.recent)
      ensures slug != "" && !fail && UrlKey(slug) in client.strings ==>
        r == Ok(client.strings[UrlKey(slug)].value) && client.recent == Updated(old(client.recent), slug, f)
    {
      if slug == "" {
        return Err(ValidationErr("slug cannot be empty"));
      }
      var reply := client.Get(UrlKey(slug), fail);
      if reply.Nil? {
        return Err(NotFoundErr("url not found in cache"));
      }
      if reply.Failed? {
        return Err(InternalErr("cache retrieval error", Some(CommandError)));
      }
      UpdateListURLs(slug, f);
      r := Ok(reply.value);
    }

    /** `updateListURLs`: the transaction, then a trim when `LLEN` reported more than 20. */
    method UpdateListURLs(slug: string, f: ListFaults)
      modifies client`recent
      ensures client.recent == Updated(old(client.recent), slug, f)
    {
      var len := client.RemovePushLen(slug, f.exec);
      if len.Val? && len.value > MaxLength {
        var ok := client.LTrim(MaxLength - 1, f.trim);
      }
    }

    /** `GetRecentURLs`: at most the clamped limit of slugs, from the head of the list. */
    method GetRecentURLs(limit: int, fail: bool) returns (r: Result<seq<string>, Error>)
      ensures fail ==> r == Err(InternalErr("failed to retrieve recent urls", Some(CommandError)))
      ensures !fail ==> (r.Ok? && |r.value| <= ClampLimit(limit) && |r.value| <= |client.recent| &&
        r.value == client.recent[..|r.value|] && (|r.value| == ClampLimit(limit) || r.value == client.recent))
    {
      var n := ClampLimit(limit);
      var reply := client.LRange(n - 1, fail);
      if reply.Failed? {
        return Err(InternalErr("failed to retrieve recent urls", Some(CommandError)));
      }
      r := Ok(reply.value);
    }
  }
}
