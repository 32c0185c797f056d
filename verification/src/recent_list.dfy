/**
 * The most-recently-used slug list `url:recent` kept by both URL caches
 * (internal/data/infra/cache.go and
 * internal/adapters/secondary/volatile/rdstore/cache.go): one transaction
 * removes every occurrence of the slug, pushes it at the head and reads the
 * length; a second pipeline trims the list to 20 entries when it is longer.
 */
module RecentList {
  import opened Redis

  const ListKey: string := "url:recent"
  const MaxLength: nat := 20

  /** Whether the transaction fails, and whether the trim pipeline fails. */
  datatype ListFaults = ListFaults(exec: bool, trim: bool)

  const NoFaults: ListFaults := ListFaults(false, false)

  /** The list after the `LREM`/`LPUSH` transaction. */
  function Touched(list: seq<string>, slug: string): seq<string> {
    [slug] + Remove(list, slug)
  }

  /** The list after `updateListURLs`. */
  function Updated(list: seq<string>, slug: string, f: ListFaults): seq<string> {
    if f.exec then list
    else
      var t := Touched(list, slug);
      if |t| > MaxLength && !f.trim then Head(t, MaxLength - 1) else t
  }

  /** `a` keeps some of the entries of `b`, in their order. */
  predicate SubSeq(a: seq<string>, b: seq<string>)
    decreases |b|
  {
    a == [] || (b != [] && ((a[0] == b[0] && SubSeq(a[1..], b[1..])) || SubSeq(a, b[1..])))
  }

  lemma {:induction false} RemoveIsSubSeq(s: seq<string>, x: string)
    ensures SubSeq(Remove(s, x), s)
    decreases |s|
  {
    if s != [] {
      RemoveIsSubSeq(s[1..], x);
      if s[0] != x {
        assert ([s[0]] + Remove(s[1..], x))[1..] == Remove(s[1..], x);
      }
    }
  }

  lemma {:induction false} RemoveAbsent(s: seq<string>, x: string)
    requires x !in s
    ensures Remove(s, x) == s
    decreases |s|
  {
    if s != [] {
      RemoveAbsent(s[1..], x);
      assert [s[0]] + s[1..] == s;
    }
  }

  /**
   * After the transaction the slug is at the head and nowhere else, every other
   * entry is still there, and the others keep their relative order.
   */
  lemma TouchedShape(list: seq<string>, slug: string)
    ensures var t := Touched(list, slug);
      t[0] == slug && slug !in t[1..] &&
      (forall y :: y != slug ==> (y in t <==> y in list)) &&
      SubSeq(t[1..], list)
  {
    RemoveIsSubSeq(list, slug);
    assert Touched(list, slug)[1..] == Remove(list, slug);
  }

  /**
   * A fault-free update leaves at most 20 entries: the first 20 of the touched
   * list, the slug first.
   */
  lemma UpdatedIsBoundedPrefix(list: seq<string>, slug: string)
    ensures var t := Touched(list, slug); var r := Updated(list, slug, NoFaults);
      |r| <= MaxLength && r == t[..|r|] && (|r| == MaxLength || r == t) && r[0] == slug
  {
  }

  /** Touching the slug that is already alone at the head changes nothing. */
  lemma {:induction false} TouchHeadIsFixed(u: seq<string>, slug: string)
    requires u != [] && u[0] == slug && slug !in u[1..]
    ensures Touched(u, slug) == u
  {
    RemoveAbsent(u[1..], slug);
    assert Remove(u, slug) == Remove(u[1..], slug);
    assert [u[0]] + u[1..] == u;
  }

  /** Logging the same slug twice in a row leaves the list as logging it once. */
  lemma {:induction false} UpdatedIdempotent(list: seq<string>, slug: string)
    ensures Updated(Updated(list, slug, NoFaults), slug, NoFaults) == Updated(list, slug, NoFaults)
  {
    var u := Updated(list, slug, NoFaults);
    TouchedShape(list, slug);
    UpdatedIsBoundedPrefix(list, slug);
    var t := Touched(list, slug);
    assert u[1..] == t[1..|u|];
    TouchHeadIsFixed(u, slug);
  }
}
