/**
 * The access sync worker of internal/api/worker/access_count.go: a goroutine
 * that, once at start and then every hour until `Stop`, moves the Redis
 * access counters into the `short_urls` table through the infra
 * `AccessCounter`.
 */
module AccessSyncWorker {
  import opened Wrappers
  import opened GoInt
  import opened WrapErrors
  import Redis
  import opened Durable
  import opened AccessKeys
  import opened Scan
  import opened AccessCounting
  import opened AccessSync

  const MaxConcurrentProcesses: nat := 10
  const Minute: nat := 60 * 1_000_000_000
  const WorkerInterval: nat := 60 * Minute
  const WorkerTimeout: nat := 5 * Minute

  class Worker {
    const db: Database?
    const counter: AccessCounter
    const interval: nat
    const concurrency: nat
    /** The goroutine has been launched. */
    var started: bool
    /** The shutdown channel has been closed. */
    var shutdown: bool
    /** The goroutine has made its first, unconditional pass. */
    var firstDone: bool
    /** The goroutine's `select` has taken the shutdown case and returned. */
    var exited: bool

    /** `NewAccessSyncWorker`: the database handle it stores is never nil. */
    constructor New(db: Database, rdb: Redis.Store)
      ensures this.db == db && counter.client == rdb
      ensures interval == WorkerInterval && concurrency == MaxConcurrentProcesses
      ensures !started && !shutdown && !firstDone && !exited
    {
      this.db := db;
      counter := new AccessCounter(rdb);
      interval := WorkerInterval;
      concurrency := MaxConcurrentProcesses;
      started, shutdown, firstDone, exited := false, false, false, false;
    }

    /** `Start`: refuses a nil database, otherwise launches the goroutine. */
    method Start() returns (err: Option<Error>)
      modifies this`started
      ensures db == null ==> err == Some(InternalErr("Cannot start access worker with nil database", None)) && started == old(started)
      ensures db != null ==> err == None && started
    {
      if db == null {
        return Some(InternalErr("Cannot start access worker with nil database", None));
      }
      started := true;
      err := None;
    }

    /** `Stop`: closes the shutdown channel; closing it a second time is a Go panic. */
    method Stop() returns (panicked: bool)
      modifies this`shutdown
      ensures panicked == old(shutdown) && shutdown
    {
      panicked := shutdown;
      shutdown := true;
    }

    /**
     * One step of the goroutine. Its first step is the pass it makes before
     * it ever looks at a channel, so it runs even when the shutdown channel
     * is already closed. Every later step is a `select`: with the channel
     * still open it waits for a tick and makes a pass; once the channel is
     * closed, `tickChosen` says whether the `select` took a tick that was
     * also ready (and made one more pass) or the shutdown case (and returned).
     */
    method Tick(tickChosen: bool, replies: seq<ScanReply>, cancelAt: nat, f: Faults) returns (t: Option<Tally>)
      requires db != null && Terminates(replies) && Matching(replies)
      modifies this`firstDone, this`exited, counter.client`counters, db`accessCounts
      ensures var runs := old(started && !exited && (!firstDone || !shutdown || tickChosen));
        (runs <==> t.Some?) &&
        (!runs ==> counter.client.counters == old(counter.client.counters) && db.accessCounts == old(db.accessCounts)) &&
        (runs ==> (PassState(counter.client.counters, db.accessCounts, t.value) ==
          Pass(PassState(old(counter.client.counters), old(db.accessCounts), Tally(0, 0)), ScanAll(replies), cancelAt, f, false)))
      ensures firstDone == (old(firstDone) || old(started && !exited))
      ensures exited == (old(exited) || old(started && firstDone && shutdown && !tickChosen))
    {
      if !started || exited {
        return None;
      }
      if firstDone && shutdown && !tickChosen {
        exited := true;
        return None;
      }
      firstDone := true;
      var tally := ProcessAccessCount(replies, cancelAt, f);
      t := Some(tally);
    }

    /**
     * `processAccessCount`: scan the keys, then give each key a goroutine until
     * the context (done from position `cancelAt` on) is found cancelled.
     */
    method ProcessAccessCount(replies: seq<ScanReply>, cancelAt: nat, f: Faults) returns (t: Tally)
      requires db != null && Terminates(replies) && Matching(replies)
      modifies counter.client`counters, db`accessCounts
      ensures PassState(counter.client.counters, db.accessCounts, t) ==
        Pass(PassState(old(counter.client.counters), old(db.accessCounts), Tally(0, 0)), ScanAll(replies), cancelAt, f, false)
    {
      t := Tally(0, 0);
      var scanned := counter.GetAllAccessKeys(replies);
      if scanned.Err? {
        return;
      }
      var keys := scanned.value;
      if |keys| == 0 {
        return;
      }
      assert AllKeyed(keys);
      ghost var s0 := PassState(counter.client.counters, db.accessCounts, t);
      var i := 0;
      while i < |keys|
        invariant i <= Dispatched(keys, cancelAt)
        invariant PassState(counter.client.counters, db.accessCounts, t) == Run(s0, keys, i, f, false)
      {
        if i >= cancelAt {
          break;
        }
        t := ReconcileKey(keys[i], SlugOf(keys[i]), i, f, t);
        i := i + 1;
      }
    }

    /** The goroutine for one key: drain, write as `int32`, restore on a failed write. */
    method ReconcileKey(key: string, slug: string, i: nat, f: Faults, t: Tally) returns (t': Tally)
      requires db != null && IsAccessKey(key) && slug == SlugOf(key)
      modifies counter.client`counters, db`accessCounts
      ensures PassState(counter.client.counters, db.accessCounts, t') ==
        Reconcile(PassState(old(counter.client.counters), old(db.accessCounts), t), key, i, f, false)
    {
      var count := counter.GetAndDeleteCounter(key, i in f.drain);
      if count.Err? {
        return t.(failed := t.failed + 1);
      }
      if count.value <= 0 {
        return t;
      }
      var ok := db.IncrementAccessCount(slug, ToInt32(count.value), i in f.write);
      if !ok {
        var restoreErr := counter.RestoreCounter(key, count.value, i in f.restore);
        return t.(failed := t.failed + 1);
      }
      t' := t.(processed := t.processed + 1);
    }
  }

  /** `StartHourlyAccessSyncWorker`: nothing starts without both handles. */
  method StartHourlyAccessSyncWorker(db: Database?, rdb: Redis.Store?) returns (w: Worker?)
    ensures db == null || rdb == null ==> w == null
    ensures db != null && rdb != null ==> w != null && fresh(w) && w.db == db && w.counter.client == rdb && w.started && !w.shutdown && !w.firstDone && !w.exited
  {
    if db == null || rdb == null {
      return null;
    }
    w := new Worker.New(db, rdb);
    var err := w.Start();
  }
}
