/**
 * The older URL cache of internal/adapters/secondary/volatile/rdstore/cache.go,
 * written against a package-level Redis client (here the `rdb` parameter).
 * It has no minimum TTL, treats the zero time like any other expiry, and
 * reports every read failure as a miss.
 */
module RdCache {
  import opened Wrappers
  import opened WrapErrors
  import opened Redis
  import opened Times
  import opened RecentList
  import opened Models
  import UrlCache

  const DefaultTTL: int := 24 * Hour

  /** The TTL `LogRecentAccess` caches with, or None when the URL has already expired. */
  function CacheTTL(expiresAt: Option<int>, now: int): (ttl: Option<int>)
    ensures expiresAt.None? ==> ttl == Some(DefaultTTL)
    ensures expiresAt.Some? ==> (ttl.None? <==> expiresAt.value <= now)
    ensures ttl.Some? ==> ttl.value > 0
    ensures expiresAt.Some? && ttl.Some? ==> ttl.value == Until(expiresAt.value, now)
  {
    if expiresAt.None? then Some(DefaultTTL)
    else
      var left := Until(expiresAt.value, now);
      if left <= 0 then None else Some(left)
  }

  /**
   * The two TTL rules agree without an expiry, when the URL has expired, and
   * when at least 5 minutes are left; they differ on the zero time (24h against
   * no caching) and below 5 minutes (the clamp against the time left).
   */
  lemma TtlRulesCompared(expiresAt: Option<int>, now: int)
    ensures expiresAt.None? ==> CacheTTL(expiresAt, now) == Some(UrlCache.CalculateTTL(expiresAt, now))
    ensures expiresAt.Some? && !IsZero(expiresAt.value) && expiresAt.value <= now ==>
      CacheTTL(expiresAt, now).None? && UrlCache.CalculateTTL(expiresAt, now) == 0
    ensures expiresAt.Some? && !IsZero(expiresAt.value) && Until(expiresAt.value, now) >= UrlCache.MinTTL ==>
      CacheTTL(expiresAt, now) == Some(UrlCache.CalculateTTL(expiresAt, now))
    ensures expiresAt.Some? && IsZero(expiresAt.value) && ZeroTime < now ==>
      CacheTTL(expiresAt, now).None? && UrlCache.CalculateTTL(expiresAt, now) == DefaultTTL
    ensures expiresAt.Some? && !IsZero(expiresAt.value) && 0 < Until(expiresAt.value, now) < UrlCache.MinTTL ==>
      CacheTTL(expiresAt, now).value < UrlCache.CalculateTTL(expiresAt, now) == UrlCache.MinTTL
  {
  }

  /** `LogRecentAccess`: cache and refresh the list unless already expired; always answers nil. */
  method LogRecentAccess(rdb: Store, shortUrl: ShortUrl, now: int, setFail: bool, f: ListFaults)
    returns (err: Option<Error>)
    modifies rdb`strings, rdb`recent
    ensures err == None
    ensures var ttl := CacheTTL(shortUrl.expiresAt, now);
      var cached := ttl.Some? && !setFail;
      rdb.strings == (if cached then old(rdb.strings)[UrlCache.UrlKey(shortUrl.slug) := Entry(shortUrl.originalUrl, ttl.value)] else old(rdb.strings)) &&
      rdb.recent == (if cached then Updated(old(rdb.recent), shortUrl.slug, f) else old(rdb.recent))
  {
    var ttl := CacheTTL(shortUrl.expiresAt, now);
    if ttl.Some? {
      var ok := rdb.Set(UrlCache.UrlKey(shortUrl.slug), shortUrl.originalUrl, ttl.value, setFail);
      if ok {
        UpdateListUrls(rdb, shortUrl.slug, f);
      }
    }
    err := None;
  }

  /** `GetUrl`: the cached URL, or NotFound whatever went wrong. */
  method GetUrl(rdb: Store, slug: string, fail: bool, f: ListFaults) returns (r: Result<string, Error>)
    modifies rdb`recent
    ensures r.Err? ==> r.error == NotFoundErr("url not found in cache") && rdb.recent == old(rdb.recent)
    ensures r.Ok? <==> !fail && UrlCache.UrlKey(slug) in rdb.strings
    ensures r.Ok? ==> r.value == rdb.strings[UrlCache.UrlKey(slug)].value && rdb.recent == Updated(old(rdb.recent), slug, f)
  {
    var reply := rdb.Get(UrlCache.UrlKey(slug), fail);
    if !reply.Val? {
      return Err(NotFoundErr("url not found in cache"));
    }
    UpdateListUrls(rdb, slug, f);
    r := Ok(reply.value);
  }

  /** `updateListUrls`: the same list rule as the newer cache. */
  method UpdateListUrls(rdb: Store, slug: string, f: ListFaults)
    modifies rdb`recent
    ensures rdb.recent == Updated(old(rdb.recent), slug, f)
  {
    var len := rdb.RemovePushLen(slug, f.exec);
    if len.Val? && len.value > MaxLength {
      var ok := rdb.LTrim(MaxLength - 1, f.trim);
    }
  }
}
