/**
 * `handleRedirect` of internal/api/server/handler.go: the URL cache of
 * internal/data/infra/cache.go first, the short-URL service on any cache
 * error, and the retrying access counter of internal/data/infra/access_count.go
 * once per redirect. The service's slug lookup belongs to a generation of the
 * service that is not part of this model: its answer is the parameter `lookup`.
 */
module ServerRedirect {
  import opened Wrappers
  import opened WrapErrors
  import opened Http
  import opened Redis
  import opened AccessKeys
  import Models
  import RecentList
  import UrlCache
  import AccessCounting
  import SendResponse

  /**
   * How each store command of one request fails: the cache `GET` and its
   * list refresh, the `SET` and list refresh of `LogRecentAccess`, and the
   * `INCR` attempts (`failing`) and cancellations of `IncrementAccess`.
   */
  datatype Faults = Faults(
    get: bool, getList: RecentList.ListFaults,
    cacheSet: bool, setList: RecentList.ListFaults,
    failing: set<nat>, cancelled: set<nat>)

  /** The counters after `IncrementAccess(slug)`, whatever it answers. */
  function Counted(counters: map<string, int>, slug: string, f: Faults): map<string, int> {
    if slug != "" && AccessCounting.RetryFrom(f.failing, f.cancelled, 0).SucceededAt?
    then IncrementedBy(counters, AccessKey(slug), 1)
    else counters
  }

  class Handler {
    const cache: UrlCache.URLCache
    const accessCount: AccessCounting.AccessCounter

    constructor (cache: UrlCache.URLCache, accessCount: AccessCounting.AccessCounter)
      ensures this.cache == cache && this.accessCount == accessCount
    {
      this.cache := cache;
      this.accessCount := accessCount;
    }

    /**
     * A cache hit redirects to the cached URL without asking the service;
     * any cache error falls back to it. A failed lookup is answered by
     * `SendResponse`, whose status comes from the error and not from the 500
     * the handler passes; a found URL is cached, counted and redirected to.
     */
    method HandleRedirect(w: Writer, slug: string, now: int, lookup: Result<Models.ShortUrl, Error>, f: Faults)
      returns (ghost queried: bool)
      requires w.Fresh()
      modifies w`status, w`body, w`location, cache.client`strings, cache.client`recent, accessCount.client`counters
      ensures queried <==> (slug == "" || f.get || UrlCache.UrlKey(slug) !in old(cache.client.strings))
      ensures !queried ==> (
        w.status == StatusFound && w.location == Some(old(cache.client.strings)[UrlCache.UrlKey(slug)].value) &&
        w.body == [] && cache.client.strings == old(cache.client.strings) &&
        cache.client.recent == RecentList.Updated(old(cache.client.recent), slug, f.getList))
      ensures queried && lookup.Err? ==> (
        w.location == None &&
        w.body == [Envelope(SendResponse.Send<string>(StatusInternalServerError, None, Some(lookup.error)).body)] &&
        (SendResponse.DetermineErrorStatus(lookup.error) != 0 ==> w.status == SendResponse.DetermineErrorStatus(lookup.error)) &&
        cache.client.strings == old(cache.client.strings) && cache.client.recent == old(cache.client.recent))
      ensures queried && lookup.Ok? ==> (
        w.status == StatusFound && w.location == Some(lookup.value.originalUrl) && w.body == [] &&
        var ttl := UrlCache.CalculateTTL(lookup.value.expiresAt, now);
        var cached := ttl > 0 && !f.cacheSet;
        cache.client.strings == (if cached then old(cache.client.strings)[UrlCache.UrlKey(lookup.value.slug) := Entry(lookup.value.originalUrl, ttl)] else old(cache.client.strings)) &&
        cache.client.recent == (if cached then RecentList.Updated(old(cache.client.recent), lookup.value.slug, f.setList) else old(cache.client.recent)))
      ensures accessCount.client.counters ==
        if w.location.Some? then Counted(old(accessCount.client.counters), slug, f) else old(accessCount.client.counters)
    {
      var url := cache.GetURL(slug, f.get, f.getList);
      if url.Ok? {
        var _ := accessCount.IncrementAccess(slug, f.failing, f.cancelled);
        w.Redirect(url.value, StatusFound);
        return false;
      }
      queried := true;
      if lookup.Err? {
        w.SendReply(SendResponse.Send(StatusInternalServerError, None, Some(lookup.error)));
        return;
      }
      var _ := cache.LogRecentAccess(Some(lookup.value), now, f.cacheSet, f.setList);
      var _ := accessCount.IncrementAccess(slug, f.failing, f.cancelled);
      w.Redirect(lookup.value.originalUrl, StatusFound);
    }
  }
}
