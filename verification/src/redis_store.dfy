/**
 * The volatile key-value store (Redis) as the model sees it. Keys are split by
 * the kind of value Redis holds under them: integer counters (`access:<slug>`),
 * cached URLs with their TTL (`url:<slug>`), and the list of recent slugs
 * (`url:recent`). Every command takes a `fail` flag standing for a transport
 * or server error; a failed command changes nothing.
 */
module Redis {
  import WrapErrors

  /** The error go-redis returns for a failed command; its text is not modelled. */
  const CommandError: WrapErrors.Error := WrapErrors.Plain("redis: command failed")

  /** What go-redis hands back: a value, `redis.Nil` for a missing key, or another error. */
  datatype Reply<T> = Val(value: T) | Nil | Failed

  /** A cached string with the TTL it was stored with (nanoseconds). */
  datatype Entry = Entry(value: string, ttl: int)

  /** The value of a counter, with an absent key read as 0 (as INCR and INCRBY do). */
  function Get0(m: map<string, int>, key: string): int {
    if key in m then m[key] else 0
  }

  /** The counters after `INCRBY key n`: the key is created at 0 if absent. */
  function IncrementedBy(m: map<string, int>, key: string, n: int): (m': map<string, int>)
    ensures key in m' && m'[key] == Get0(m, key) + n
    ensures forall k :: k != key ==> Get0(m', k) == Get0(m, k)
    ensures m'.Keys == m.Keys + {key}
  {
    m[key := Get0(m, key) + n]
  }

  /** The counters after `GETDEL key`. */
  function Deleted(m: map<string, int>, key: string): (m': map<string, int>)
    ensures key !in m'
    ensures forall k :: k != key ==> Get0(m', k) == Get0(m, k)
    ensures m'.Keys == m.Keys - {key}
  {
    m - {key}
  }

  /** Put back what a drain removed: INCRBY of the drained value restores the counter exactly. */
  lemma DrainThenRestore(m: map<string, int>, key: string)
    requires key in m
    ensures IncrementedBy(Deleted(m, key), key, m[key]) == m
  {
    var r := IncrementedBy(Deleted(m, key), key, m[key]);
    assert forall k :: k in r <==> k in m;
  }

  /** The elements of `s` with every occurrence of `x` removed (`LREM key 0 x`). */
  function Remove(s: seq<string>, x: string): (r: seq<string>)
    ensures |r| <= |s| && x !in r
    ensures forall y :: y in r <==> y in s && y != x
  {
    if s == [] then []
    else if s[0] == x then Remove(s[1..], x)
    else [s[0]] + Remove(s[1..], x)
  }

  /** `LRANGE key 0 stop` / what `LTRIM key 0 stop` keeps, with Redis's reading of a negative stop. */
  function Head(s: seq<string>, stop: int): (r: seq<string>)
    ensures |r| <= |s| && r == s[..|r|]
    ensures 0 <= stop ==> |r| == if stop + 1 < |s| then stop + 1 else |s|
  {
    var last := if stop < 0 then |s| + stop else stop;
    if last < 0 then [] else if last + 1 < |s| then s[..last + 1] else s
  }

  class Store {
    var counters: map<string, int>
    var strings: map<string, Entry>
    var recent: seq<string>

    constructor ()
      ensures counters == map[] && strings == map[] && recent == []
    {
      counters, strings, recent := map[], map[], [];
    }

    /** `INCR key`. */
    method Incr(key: string, fail: bool) returns (r: Reply<int>)
      modifies this`counters
      ensures fail ==> r == Failed && counters == old(counters)
      ensures !fail ==> counters == IncrementedBy(old(counters), key, 1) && r == Val(counters[key])
    {
      if fail {
        return Failed;
      }
      counters := IncrementedBy(counters, key, 1);
      r := Val(counters[key]);
    }

    /** `INCRBY key n`. */
    method IncrBy(key: string, n: int, fail: bool) returns (r: Reply<int>)
      modifies this`counters
      ensures fail ==> r == Failed && counters == old(counters)
      ensures !fail ==> counters == IncrementedBy(old(counters), key, n) && r == Val(counters[key])
    {
      if fail {
        return Failed;
      }
      counters := IncrementedBy(counters, key, n);
      r := Val(counters[key]);
    }

    /** `GETDEL key`: the old value and the key gone, or `redis.Nil` when there was none. */
    method GetDel(key: string, fail: bool) returns (r: Reply<int>)
      modifies this`counters
      ensures fail ==> r == Failed && counters == old(counters)
      ensures !fail && key !in old(counters) ==> r == Nil && counters == old(counters)
      ensures !fail && key in old(counters) ==> r == Val(old(counters)[key]) && counters == Deleted(old(counters), key)
    {
      if fail {
        return Failed;
      }
      if key !in counters {
        return Nil;
      }
      r := Val(counters[key]);
      counters := Deleted(counters, key);
    }

    /** `GET key` on a cached string. */
    method Get(key: string, fail: bool) returns (r: Reply<string>)
      ensures fail ==> r == Failed
      ensures !fail && key in strings ==> r == Val(strings[key].value)
      ensures !fail && key !in strings ==> r == Nil
    {
      if fail {
        return Failed;
      }
      if key !in strings {
        return Nil;
      }
      r := Val(strings[key].value);
    }

    /** `SET key value EX ttl`. */
    method Set(key: string, value: string, ttl: int, fail: bool) returns (ok: bool)
      modifies this`strings
      ensures ok == !fail
      ensures strings == if fail then old(strings) else old(strings)[key := Entry(value, ttl)]
    {
      if fail {
        return false;
      }
      strings := strings[key := Entry(value, ttl)];
      ok := true;
    }

    /**
     * The transaction `LREM url:recent 0 slug; LPUSH url:recent slug; LLEN url:recent`,
     * answering the length LLEN reports.
     */
    method RemovePushLen(slug: string, fail: bool) returns (r: Reply<int>)
      modifies this`recent
      ensures fail ==> r == Failed && recent == old(recent)
      ensures !fail ==> recent == [slug] + Remove(old(recent), slug) && r == Val(|recent|)
    {
      if fail {
        return Failed;
      }
      recent := [slug] + Remove(recent, slug);
      r := Val(|recent|);
    }

    /** `LTRIM url:recent 0 stop`. */
    method LTrim(stop: int, fail: bool) returns (ok: bool)
      modifies this`recent
      ensures ok == !fail
      ensures recent == if fail then old(recent) else Head(old(recent), stop)
    {
      if fail {
        return false;
      }
      recent := Head(recent, stop);
      ok := true;
    }

    /** `LRANGE url:recent 0 stop`. */
    method LRange(stop: int, fail: bool) returns (r: Reply<seq<string>>)
      ensures r == if fail then Failed else Val(Head(recent, stop))
    {
      if fail {
        return Failed;
      }
      r := Val(Head(recent, stop));
    }
  }
}
