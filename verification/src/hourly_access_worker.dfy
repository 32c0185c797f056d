/**
 * The hourly access worker of internal/adapters/primary/workers/access_count.go.
 * It talks to Redis directly rather than through an `AccessCounter`, counts a
 * drained counter that is not positive as processed, and waits for each key's
 * goroutine before dispatching the next.
 */
module HourlyAccessWorker {
  import opened Wrappers
  import opened GoInt
  import opened WrapErrors
  import Redis
  import opened Durable
  import opened AccessKeys
  import opened Scan
  import opened AccessCounting
  import opened AccessSync

  const MaxConcurrent: nat := 10
  const ScanCount: nat := 100

  /** `StartHourlyAccessWorker`: the goroutine is launched unless the database handle is nil. */
  method StartHourlyAccessWorker(db: Database?, rdb: Redis.Store?) returns (started: bool)
    ensures started <==> db != null
  {
    if db == null {
      return false;
    }
    started := true;
  }

  /** `getAllAccessKeys`: the full iteration, or go-redis's own error. */
  method GetAllAccessKeys(replies: seq<ScanReply>) returns (r: Result<seq<string>, Error>)
    requires Terminates(replies)
    ensures ScanAll(replies).Some? ==> r == Ok(ScanAll(replies).value)
    ensures ScanAll(replies).None? ==> r == Err(Redis.CommandError)
  {
    var keys := ScanLoop(replies);
    if keys.None? {
      return Err(Redis.CommandError);
    }
    r := Ok(keys.value);
  }

  /** `processAccessCount`. */
  method ProcessAccessCount(db: Database, rdb: Redis.Store, replies: seq<ScanReply>, cancelAt: nat, f: Faults)
    returns (t: Tally)
    requires Terminates(replies) && Matching(replies)
    modifies rdb`counters, db`accessCounts
    ensures PassState(rdb.counters, db.accessCounts, t) ==
      Pass(PassState(old(rdb.counters), old(db.accessCounts), Tally(0, 0)), ScanAll(replies), cancelAt, f, true)
  {
    t := Tally(0, 0);
    var scanned := GetAllAccessKeys(replies);
    if scanned.Err? {
      return;
    }
    var keys := scanned.value;
    if |keys| == 0 {
      return;
    }
    assert AllKeyed(keys);
    ghost var s0 := PassState(rdb.counters, db.accessCounts, t);
    var i := 0;
    while i < |keys|
      invariant i <= Dispatched(keys, cancelAt)
      invariant PassState(rdb.counters, db.accessCounts, t) == Run(s0, keys, i, f, true)
    {
      if i >= cancelAt {
        break;
      }
      t := ReconcileKey(db, rdb, keys[i], SlugOf(keys[i]), i, f, t);
      i := i + 1;
    }
  }

  /** The goroutine for one key. */
  method ReconcileKey(db: Database, rdb: Redis.Store, key: string, slug: string, i: nat, f: Faults, t: Tally)
    returns (t': Tally)
    requires IsAccessKey(key) && slug == SlugOf(key)
    modifies rdb`counters, db`accessCounts
    ensures PassState(rdb.counters, db.accessCounts, t') ==
      Reconcile(PassState(old(rdb.counters), old(db.accessCounts), t), key, i, f, true)
  {
    var count := rdb.GetDel(key, i in f.drain);
    if !count.Val? {
      return t.(failed := t.failed + 1);
    }
    if count.value > 0 {
      var ok := db.IncrementAccessCount(slug, ToInt32(count.value), i in f.write);
      if !ok {
        var restored := rdb.IncrBy(key, count.value, i in f.restore);
        return t.(failed := t.failed + 1);
      }
    }
    t' := t.(processed := t.processed + 1);
  }
}
