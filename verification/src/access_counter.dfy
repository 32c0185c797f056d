/**
 * The Redis-backed access counter of internal/data/infra/access_count.go:
 * `IncrementAccess` with its bounded retry, the `SCAN` over `access:*`, and the
 * drain (`GETDEL`) and restore (`INCRBY`) the sync worker uses.
 */
module AccessCounting {
  import opened Wrappers
  import opened WrapErrors
  import Redis
  import GoContext
  import opened AccessKeys
  import opened Scan

  const Retries: nat := 3

  /** How the retry loop of `IncrementAccess` ends. */
  datatype Attempts = SucceededAt(attempt: nat) | CancelledAt(attempt: nat) | Exhausted

  /**
   * The outcome of the attempts from `attempt` on: `failing` are the attempts
   * whose `INCR` fails, `cancelled` those before which the context is found done
   * (only attempts after the first wait, so only they look at the context).
   */
  function RetryFrom(failing: set<nat>, cancelled: set<nat>, attempt: nat): Attempts
    decreases Retries - attempt
  {
    if attempt >= Retries then Exhausted
    else if attempt > 0 && attempt in cancelled then CancelledAt(attempt)
    else if attempt !in failing then SucceededAt(attempt)
    else RetryFrom(failing, cancelled, attempt + 1)
  }

  /** At most three attempts; the loop stops at the first success or the first cancellation. */
  lemma {:induction false} RetryOutcome(failing: set<nat>, cancelled: set<nat>)
    ensures RetryFrom(failing, cancelled, 0) == Exhausted <==>
      0 in failing && 1 in failing && 2 in failing && 1 !in cancelled && 2 !in cancelled
    ensures forall a: nat :: RetryFrom(failing, cancelled, 0) == SucceededAt(a) ==>
      a < Retries && a !in failing && (forall b :: 0 <= b < a ==> b in failing) &&
      (forall b :: 0 < b <= a ==> b !in cancelled)
    ensures forall a: nat :: RetryFrom(failing, cancelled, 0) == CancelledAt(a) ==>
      0 < a < Retries && a in cancelled && (forall b :: 0 <= b < a ==> b in failing)
  {
    var r0 := RetryFrom(failing, cancelled, 0);
    assert RetryFrom(failing, cancelled, 3) == Exhausted;
    var r2 := RetryFrom(failing, cancelled, 2);
    var r1 := RetryFrom(failing, cancelled, 1);
    assert r0 == if 0 !in failing then SucceededAt(0) else r1;
  }

  class AccessCounter {
    const client: Redis.Store

    constructor (client: Redis.Store)
      ensures this.client == client
    {
      this.client := client;
    }

    /** internal/data/infra/access_count.go:30-60 */
    method IncrementAccess(slug: string, failing: set<nat>, cancelled: set<nat>) returns (r: Result<int, Error>)
      modifies client`counters
      ensures slug == "" ==>
        r == Err(ValidationErr("Slug cannot be empty")) && client.counters == old(client.counters)
      ensures slug != "" && RetryFrom(failing, cancelled, 0).SucceededAt? ==>
        client.counters == Redis.IncrementedBy(old(client.counters), AccessKey(slug), 1) &&
        r == Ok(client.counters[AccessKey(slug)])
      ensures slug != "" && RetryFrom(failing, cancelled, 0).CancelledAt? ==>
        r == Err(GoContext.Done) && client.counters == old(client.counters)
      ensures slug != "" && RetryFrom(failing, cancelled, 0).Exhausted? ==>
        r == Err(InternalErr("Failed to incremente access counter", Some(Redis.CommandError))) &&
        client.counters == old(client.counters)
    {
      if slug == "" {
        return Err(ValidationErr("Slug cannot be empty"));
      }
      var key := AccessKey(slug);
      var attempt: nat := 0;
      while attempt < Retries
        invariant attempt <= Retries
        invariant RetryFrom(failing, cancelled, 0) == RetryFrom(failing, cancelled, attempt)
        invariant client.counters == old(client.counters)
      {
        if attempt > 0 && attempt in cancelled {
          return Err(GoContext.Done);
        }
        var reply := client.Incr(key, attempt in failing);
        if reply.Val? {
          return Ok(reply.value);
        }
        attempt := attempt + 1;
      }
      r := Err(InternalErr("Failed to incremente access counter", Some(Redis.CommandError)));
    }

    /** internal/data/infra/access_count.go:62-83: every page of the iteration, or an error. */
    method GetAllAccessKeys(replies: seq<ScanReply>) returns (r: Result<seq<string>, Error>)
      requires Terminates(replies)
      ensures ScanAll(replies).Some? ==> r == Ok(ScanAll(replies).value)
      ensures ScanAll(replies).None? ==> r == Err(InternalErr("Failed to retrieve access keys", Some(Redis.CommandError)))
    {
      var keys := ScanLoop(replies);
      if keys.None? {
        return Err(InternalErr("Failed to retrieve access keys", Some(Redis.CommandError)));
      }
      r := Ok(keys.value);
    }

    /** internal/data/infra/access_count.go:85-93: `GETDEL` read as an int; a missing key is an error. */
    method GetAndDeleteCounter(key: string, fail: bool) returns (r: Result<int, Error>)
      modifies client`counters
      ensures !fail && key in old(client.counters) ==>
        r == Ok(old(client.counters)[key]) && client.counters == Redis.Deleted(old(client.counters), key)
      ensures fail || key !in old(client.counters) ==>
        r == Err(InternalErr("Failed to proccess counter", Some(if fail then Redis.CommandError else RedisNil))) &&
        client.counters == old(client.counters)
    {
      var reply := client.GetDel(key, fail);
      if !reply.Val? {
        return Err(InternalErr("Failed to proccess counter", Some(if reply.Nil? then RedisNil else Redis.CommandError)));
      }
      r := Ok(reply.value);
    }

    /** internal/data/infra/access_count.go:95-103: `INCRBY key count`. */
    method RestoreCounter(key: string, count: int, fail: bool) returns (r: Option<Error>)
      modifies client`counters
      ensures fail ==> r == Some(InternalErr("Failed to restore access counter", Some(Redis.CommandError)))
      ensures fail ==> client.counters == old(client.counters)
      ensures !fail ==> r == None && client.counters == Redis.IncrementedBy(old(client.counters), key, count)
    {
      var reply := client.IncrBy(key, count, fail);
      if reply.Failed? {
        return Some(InternalErr("Failed to restore access counter", Some(Redis.CommandError)));
      }
      r := None;
    }
  }

  /** The error go-redis reports for a missing key. */
  const RedisNil: Error := Plain("redis: nil")

  /**
   * The cursor loop shared by both `SCAN` helpers: append each page, stop at
   * cursor 0, give up at the first error.
   */
  method ScanLoop(replies: seq<ScanReply>) returns (keys: Option<seq<string>>)
    requires Terminates(replies)
    ensures keys == ScanAll(replies)
  {
    var acc: seq<string> := [];
    var i := 0;
    assert replies[0..] == replies;
    assert Prepend([], ScanAll(replies)) == ScanAll(replies) by {
      if ScanAll(replies).Some? {
        assert [] + ScanAll(replies).value == ScanAll(replies).value;
      }
    }
    while true
      invariant i <= StopAt(replies)
      invariant Terminates(replies[i..]) && ScanAll(replies) == Prepend(acc, ScanAll(replies[i..]))
      decreases StopAt(replies) - i
    {
      var reply := replies[i];
      if reply.ScanFailed? {
        return None;
      }
      if reply.cursor == 0 {
        acc := acc + reply.keys;
        break;
      }
      ScanStep(replies[i..]);
      assert replies[i..][1..] == replies[i + 1..];
      PrependTwice(acc, reply.keys, ScanAll(replies[i + 1..]));
      acc := acc + reply.keys;
      i := i + 1;
    }
    keys := Some(acc);
  }

  lemma PrependTwice(a: seq<string>, b: seq<string>, r: Option<seq<string>>)
    ensures Prepend(a, Prepend(b, r)) == Prepend(a + b, r)
  {
    if r.Some? {
      assert a + (b + r.value) == (a + b) + r.value;
    }
  }

  lemma ScanStep(replies: seq<ScanReply>)
    requires Terminates(replies) && !Stops(replies[0])
    ensures Terminates(replies[1..])
    ensures ScanAll(replies) == Prepend(replies[0].keys, ScanAll(replies[1..]))
  {
  }
}
