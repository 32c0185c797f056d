/**
 * `handleRedirect` of internal/adapters/primary/api/handlers.go: the Redis
 * cache first, the database on a miss, and one access-counter increment for
 * every redirect. The slug lookup goes through the short-URL service to the
 * repository of short_url.infra.go; the store commands are those of the
 * rdstore package.
 */
module AdapterRedirect {
  import opened Wrappers
  import opened WrapErrors
  import opened Http
  import opened Redis
  import opened AccessKeys
  import RecentList
  import UrlCache
  import RdCache
  import RdAccessCount
  import ShortUrlDb
  import ShortUrlInfra

  /** How each store command and the database lookup of one request fail, if they do. */
  datatype Faults = Faults(
    get: bool, getList: RecentList.ListFaults,
    lookup: Option<Error>,
    cacheSet: bool, setList: RecentList.ListFaults,
    incr: bool)

  /** Every error the repository's lookup answers is an `*AppError` whose code is not 302. */
  lemma LookupErrorsAreAppErrors(rows: seq<ShortUrlDb.UrlRow>, slug: string, now: int, fault: Option<Error>)
    ensures var r := ShortUrlInfra.GetBySlug(rows, slug, now, fault);
      r.Err? ==> (AsApp(r.error).Some? && AsApp(r.error).value.code in {401, 404, 500})
  {
  }

  class Handler {
    const rdb: Store
    const urls: ShortUrlDb.UrlTable

    constructor (rdb: Store, urls: ShortUrlDb.UrlTable)
      ensures this.rdb == rdb && this.urls == urls
    {
      this.rdb := rdb;
      this.urls := urls;
    }

    /**
     * A cache hit redirects to the cached URL without a database lookup; a
     * miss looks the slug up, answers the lookup's error through
     * `SendErrors`, or caches the URL and redirects to it. Each redirect
     * increments the slug's counter once (unless the `INCR` itself fails,
     * which the handler never learns).
     */
    method HandleRedirect(w: Writer, slug: string, now: int, f: Faults) returns (ghost queried: bool)
      requires w.Fresh()
      modifies w`status, w`body, w`location, rdb`counters, rdb`strings, rdb`recent
      ensures var key := UrlCache.UrlKey(slug);
        (!f.get && key in old(rdb.strings)) ==> (
          !queried && w.status == StatusFound && w.location == Some(old(rdb.strings)[key].value) && w.body == [] &&
          rdb.strings == old(rdb.strings) && rdb.recent == RecentList.Updated(old(rdb.recent), slug, f.getList))
      ensures queried <==> (f.get || UrlCache.UrlKey(slug) !in old(rdb.strings))
      ensures var lookup := ShortUrlInfra.GetBySlug(urls.rows, slug, now, f.lookup);
        (queried && lookup.Err?) ==> (
          w.status == AsApp(lookup.error).value.code && w.location == None &&
          w.body == [ErrorBody(AsApp(lookup.error).value.message, AsApp(lookup.error).value.cause)] &&
          rdb.strings == old(rdb.strings) && rdb.recent == old(rdb.recent))
      ensures var lookup := ShortUrlInfra.GetBySlug(urls.rows, slug, now, f.lookup);
        (queried && lookup.Ok?) ==> (
          w.status == StatusFound && w.location == Some(lookup.value.originalUrl) && w.body == [] &&
          var ttl := RdCache.CacheTTL(lookup.value.expiresAt, now);
          var cached := ttl.Some? && !f.cacheSet;
          rdb.strings == (if cached then old(rdb.strings)[UrlCache.UrlKey(slug) := Entry(lookup.value.originalUrl, ttl.value)] else old(rdb.strings)) &&
          rdb.recent == (if cached then RecentList.Updated(old(rdb.recent), slug, f.setList) else old(rdb.recent)))
      ensures rdb.counters == if w.status == StatusFound && !f.incr then IncrementedBy(old(rdb.counters), AccessKey(slug), 1) else old(rdb.counters)
    {
      var url := RdCache.GetUrl(rdb, slug, f.get, f.getList);
      if url.Ok? {
        RdAccessCount.IncrementAccess(rdb, slug, f.incr);
        w.Redirect(url.value, StatusFound);
        return false;
      }
      queried := true;
      var shortUrl := ShortUrlInfra.GetBySlug(urls.rows, slug, now, f.lookup);
      if shortUrl.Err? {
        LookupErrorsAreAppErrors(urls.rows, slug, now, f.lookup);
        w.SendErrors(shortUrl.error);
        return;
      }
      var _ := RdCache.LogRecentAccess(rdb, shortUrl.value, now, f.cacheSet, f.setList);
      RdAccessCount.IncrementAccess(rdb, slug, f.incr);
      w.Redirect(shortUrl.value.originalUrl, StatusFound);
    }
  }
}
