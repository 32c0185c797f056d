/**
 * The durable side of the access counters: the `access_count` column of the
 * `short_urls` table, keyed by slug. The query behind
 * `Queries.IncrementAccessCount` is not part of this model; it is taken to add
 * its argument to the row with that slug, to touch nothing when no row has
 * that slug, and to fail, as Postgres does on an `integer` column, when the
 * sum leaves the 32-bit range.
 */
module Durable {
  import opened Wrappers
  import opened GoInt

  /** The access counts after adding `n` to `slug`'s row, or None when Postgres rejects the sum. */
  function Absorbed(counts: map<string, int>, slug: string, n: int): (r: Option<map<string, int>>)
    ensures slug !in counts ==> r == Some(counts)
    ensures slug in counts ==> (r.Some? <==> InInt32(counts[slug] + n))
    ensures r.Some? ==> r.value.Keys == counts.Keys
    ensures r.Some? && slug in counts ==> r.value[slug] == counts[slug] + n
    ensures r.Some? ==> forall s :: s in counts && s != slug ==> r.value[s] == counts[s]
  {
    if slug !in counts then Some(counts)
    else if InInt32(counts[slug] + n) then Some(counts[slug := counts[slug] + n])
    else None
  }

  class Database {
    var accessCounts: map<string, int>

    constructor (counts: map<string, int>)
      ensures accessCounts == counts
    {
      accessCounts := counts;
    }

    /** `IncrementAccessCount(slug, n)`; `fail` stands for a lost connection or a cancelled context. */
    method IncrementAccessCount(slug: string, n: int, fail: bool) returns (ok: bool)
      modifies this`accessCounts
      ensures ok <==> !fail && Absorbed(old(accessCounts), slug, n).Some?
      ensures accessCounts == if ok then Absorbed(old(accessCounts), slug, n).value else old(accessCounts)
    {
      if fail {
        return false;
      }
      var next := Absorbed(accessCounts, slug, n);
      if next.None? {
        return false;
      }
      accessCounts := next.value;
      ok := true;
    }
  }
}
