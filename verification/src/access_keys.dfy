/** Redis keys under which per-slug access counters live: `access:<slug>`. */
module AccessKeys {
  const Prefix: string := "access:"

  function AccessKey(slug: string): (key: string)
    ensures |key| == |Prefix| + |slug| && key[..|Prefix|] == Prefix && key[|Prefix|..] == slug
  {
    Prefix + slug
  }

  /** Keys returned by `SCAN ... MATCH access:*` all carry the prefix. */
  predicate IsAccessKey(key: string) {
    |Prefix| <= |key| && key[..|Prefix|] == Prefix
  }

  /** The slug the workers recover by cutting the prefix's length off the key. */
  function SlugOf(key: string): (slug: string)
    requires |Prefix| <= |key|
    ensures |slug| == |key| - |Prefix|
    ensures IsAccessKey(key) ==> AccessKey(slug) == key
  {
    key[|Prefix|..]
  }

  /** Different slugs count under different keys, and cutting the prefix gives the slug back. */
  lemma AccessKeyRoundTrip(s: string, t: string)
    ensures IsAccessKey(AccessKey(s)) && SlugOf(AccessKey(s)) == s
    ensures AccessKey(s) == AccessKey(t) <==> s == t
  {
    if AccessKey(s) == AccessKey(t) {
      assert s == AccessKey(s)[|Prefix|..] == AccessKey(t)[|Prefix|..] == t;
    }
  }
}
