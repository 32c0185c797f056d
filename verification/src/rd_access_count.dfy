/** The single-shot counter increment of internal/adapters/secondary/volatile/rdstore/access_count.go. */
module RdAccessCount {
  import opened Redis
  import opened AccessKeys

  /**
   * `IncrementAccess`: one `INCR` of `access:<slug>`, even for an empty slug
   * (which only draws a warning); a failure is logged and otherwise ignored.
   */
  method IncrementAccess(rdb: Store, slug: string, fail: bool)
    modifies rdb`counters
    ensures rdb.counters == if fail then old(rdb.counters) else IncrementedBy(old(rdb.counters), AccessKey(slug), 1)
  {
    var reply := rdb.Incr(AccessKey(slug), fail);
  }
}
