/**
 * What one pass of an access-count sync worker does to the two stores, as a
 * function of their contents. Both workers (internal/api/worker/access_count.go
 * and internal/adapters/primary/workers/access_count.go) drain each scanned
 * counter with `GETDEL`, add it to the slug's row as an `int32`, and put the
 * count back with `INCRBY` when the database write fails. They differ only in
 * how a drained counter that is not positive is tallied.
 *
 * The goroutines of a pass each work on their own key; the model runs them
 * one after another in scan order.
 */
module AccessSync {
  import opened Wrappers
  import opened GoInt
  import opened Redis
  import opened Durable
  import opened AccessKeys

  /** The `processed` and `failed` totals a pass logs. */
  datatype Tally = Tally(processed: nat, failed: nat)

  /**
   * Which dispatched keys (by position in the scan) meet a failing `GETDEL`, a
   * failing database write, or a failing `INCRBY` restore.
   */
  datatype Faults = Faults(drain: set<nat>, write: set<nat>, restore: set<nat>)

  /** Redis counters, the durable `access_count` per slug, and the running tally. */
  datatype PassState = PassState(counters: map<string, int>, durable: map<string, int>, tally: Tally)

  predicate AllKeyed(keys: seq<string>) {
    forall i :: 0 <= i < |keys| ==> IsAccessKey(keys[i])
  }

  /** The goroutine for the key at position `i`. */
  function Reconcile(s: PassState, key: string, i: nat, f: Faults, emptyIsProcessed: bool): PassState
    requires IsAccessKey(key)
  {
    if i in f.drain || key !in s.counters then
      s.(tally := s.tally.(failed := s.tally.failed + 1))
    else
      var count := s.counters[key];
      var drained := Deleted(s.counters, key);
      if count <= 0 then
        PassState(drained, s.durable,
          if emptyIsProcessed then s.tally.(processed := s.tally.processed + 1) else s.tally)
      else
        var written := if i in f.write then None else Absorbed(s.durable, SlugOf(key), ToInt32(count));
        if written.Some? then
          PassState(drained, written.value, s.tally.(processed := s.tally.processed + 1))
        else
          PassState(if i in f.restore then drained else IncrementedBy(drained, key, count),
            s.durable, s.tally.(failed := s.tally.failed + 1))
  }

  /** The first `n` keys reconciled in order. */
  function Run(s: PassState, keys: seq<string>, n: nat, f: Faults, emptyIsProcessed: bool): PassState
    requires AllKeyed(keys) && n <= |keys|
  {
    if n == 0 then s else Reconcile(Run(s, keys, n - 1, f, emptyIsProcessed), keys[n - 1], n - 1, f, emptyIsProcessed)
  }

  /** How many keys get a goroutine before the loop sees the context done at position `cancelAt`. */
  function Dispatched(keys: seq<string>, cancelAt: nat): (n: nat)
    ensures n <= |keys| && (n == |keys| || n == cancelAt)
  {
    if cancelAt < |keys| then cancelAt else |keys|
  }

  /** One pass: nothing happens when the scan failed or found no key. */
  function Pass(s: PassState, scanned: Option<seq<string>>, cancelAt: nat, f: Faults, emptyIsProcessed: bool): PassState
    requires scanned.Some? ==> AllKeyed(scanned.value)
  {
    if scanned.None? || scanned.value == [] then s
    else Run(s, scanned.value, Dispatched(scanned.value, cancelAt), f, emptyIsProcessed)
  }

  /** A slug's accesses not yet synced plus those already in its row. */
  function Total(s: PassState, slug: string): int {
    Get0(s.counters, AccessKey(slug)) + Get0(s.durable, slug)
  }

  /** A reconcile step touches only its own key and its own slug's row. */
  lemma ReconcileFrame(s: PassState, key: string, i: nat, f: Faults, e: bool)
    requires IsAccessKey(key)
    ensures var s' := Reconcile(s, key, i, f, e);
      s'.durable.Keys == s.durable.Keys &&
      (forall k :: k != key ==> (k in s'.counters <==> k in s.counters) && Get0(s'.counters, k) == Get0(s.counters, k)) &&
      (forall sl :: sl != SlugOf(key) ==> Get0(s'.durable, sl) == Get0(s.durable, sl))
  {
  }

  /**
   * One reconcile step keeps a slug's total: a count leaves Redis only to land
   * in the row, or is put back. This needs the counter within `int32` (so the
   * conversion keeps it), not negative (a negative count is dropped), the slug's
   * row to exist (an update of no row drops the count), and the restore not to fail.
   */
  lemma ReconcileConserves(s: PassState, key: string, i: nat, f: Faults, e: bool, slug: string)
    requires IsAccessKey(key) && slug in s.durable
    requires 0 <= Get0(s.counters, AccessKey(slug)) <= MaxInt32
    requires key == AccessKey(slug) ==> i !in f.restore
    ensures var s' := Reconcile(s, key, i, f, e);
      Total(s', slug) == Total(s, slug) && slug in s'.durable &&
      0 <= Get0(s'.counters, AccessKey(slug)) <= MaxInt32
  {
    var s' := Reconcile(s, key, i, f, e);
    ReconcileFrame(s, key, i, f, e);
    if key != AccessKey(slug) {
      assert SlugOf(key) != slug;
    } else if !(i in f.drain || key !in s.counters) {
      var count := s.counters[key];
      if count > 0 {
        assert ToInt32(count) == count;
        var written := if i in f.write then None else Absorbed(s.durable, slug, count);
        if written.None? {
          DrainThenRestore(s.counters, key);
        }
      }
    }
  }

  /**
   * A pass loses no access of a slug whose row exists, whose counter is within
   * `int32` and not negative, and none of whose restores fail: what leaves
   * Redis is found in the row, and what the row refused is back in Redis.
   */
  lemma {:induction false} RunConserves(s: PassState, keys: seq<string>, n: nat, f: Faults, e: bool, slug: string)
    requires AllKeyed(keys) && n <= |keys| && slug in s.durable
    requires 0 <= Get0(s.counters, AccessKey(slug)) <= MaxInt32
    requires forall i :: 0 <= i < n && keys[i] == AccessKey(slug) ==> i !in f.restore
    ensures var s' := Run(s, keys, n, f, e);
      Total(s', slug) == Total(s, slug) && slug in s'.durable &&
      0 <= Get0(s'.counters, AccessKey(slug)) <= MaxInt32
  {
    if n > 0 {
      RunConserves(s, keys, n - 1, f, e, slug);
      ReconcileConserves(Run(s, keys, n - 1, f, e), keys[n - 1], n - 1, f, e, slug);
    }
  }

  /** Keys the pass did not reach, and rows of slugs it did not reach, are untouched. */
  lemma {:induction false} RunFrame(s: PassState, keys: seq<string>, n: nat, f: Faults, e: bool)
    requires AllKeyed(keys) && n <= |keys|
    ensures var s' := Run(s, keys, n, f, e);
      s'.durable.Keys == s.durable.Keys &&
      (forall k :: k !in keys[..n] ==> (k in s'.counters <==> k in s.counters) && Get0(s'.counters, k) == Get0(s.counters, k)) &&
      (forall sl :: AccessKey(sl) !in keys[..n] ==> Get0(s'.durable, sl) == Get0(s.durable, sl))
  {
    if n > 0 {
      RunFrame(s, keys, n - 1, f, e);
      var key := keys[n - 1];
      ReconcileFrame(Run(s, keys, n - 1, f, e), key, n - 1, f, e);
      assert keys[..n] == keys[..n - 1] + [key];
      forall sl | AccessKey(sl) !in keys[..n]
        ensures SlugOf(key) != sl
      {
        assert AccessKey(SlugOf(key)) == key;
      }
    }
  }

  /** Every dispatched key ends as processed, failed or (for the API worker) skipped; the adapters worker counts each one. */
  lemma {:induction false} RunTally(s: PassState, keys: seq<string>, n: nat, f: Faults, e: bool)
    requires AllKeyed(keys) && n <= |keys|
    ensures var t := Run(s, keys, n, f, e).tally;
      s.tally.processed <= t.processed && s.tally.failed <= t.failed &&
      t.processed + t.failed <= s.tally.processed + s.tally.failed + n &&
      (e ==> t.processed + t.failed == s.tally.processed + s.tally.failed + n)
  {
    if n > 0 {
      RunTally(s, keys, n - 1, f, e);
    }
  }

  /** The stored counts never leave the `int32` range the column allows, and no row appears or vanishes. */
  lemma {:induction false} RunKeepsRowsInInt32(s: PassState, keys: seq<string>, n: nat, f: Faults, e: bool)
    requires AllKeyed(keys) && n <= |keys|
    requires forall sl :: sl in s.durable ==> InInt32(s.durable[sl])
    ensures var s' := Run(s, keys, n, f, e);
      s'.durable.Keys == s.durable.Keys && forall sl :: sl in s'.durable ==> InInt32(s'.durable[sl])
  {
    if n > 0 {
      RunKeepsRowsInInt32(s, keys, n - 1, f, e);
    }
  }

  /**
   * Keys that are gone by the time the pass reaches them (a key listed twice by
   * `SCAN`, or a counter another pass drained) only count as failures.
   */
  lemma {:induction false} RunOnAbsentKeys(s: PassState, keys: seq<string>, n: nat, f: Faults, e: bool)
    requires AllKeyed(keys) && n <= |keys|
    requires forall i :: 0 <= i < n ==> keys[i] !in s.counters
    ensures Run(s, keys, n, f, e) == s.(tally := s.tally.(failed := s.tally.failed + n))
  {
    if n > 0 {
      RunOnAbsentKeys(s, keys, n - 1, f, e);
    }
  }

  /**
   * Without faults, a pass over distinct keys whose counts fit in `int32` and in
   * their rows moves every count into its row and leaves no counter behind.
   */
  lemma {:induction false} FaultFreeRunMovesCounts(s: PassState, keys: seq<string>, n: nat, f: Faults, e: bool)
    requires AllKeyed(keys) && n <= |keys|
    requires forall i, j :: 0 <= i < j < n ==> keys[i] != keys[j]
    requires forall i :: 0 <= i < n ==> i !in f.drain && i !in f.write
    requires forall i :: 0 <= i < n ==>
      keys[i] in s.counters && 0 < s.counters[keys[i]] <= MaxInt32 && SlugOf(keys[i]) in s.durable &&
      InInt32(s.durable[SlugOf(keys[i])] + s.counters[keys[i]])
    ensures var s' := Run(s, keys, n, f, e);
      s'.tally == s.tally.(processed := s.tally.processed + n) &&
      forall i :: 0 <= i < n ==>
        keys[i] !in s'.counters && SlugOf(keys[i]) in s'.durable &&
        s'.durable[SlugOf(keys[i])] == s.durable[SlugOf(keys[i])] + s.counters[keys[i]]
  {
    if n > 0 {
      var m := n - 1;
      var p := Run(s, keys, m, f, e);
      FaultFreeRunMovesCounts(s, keys, m, f, e);
      assert keys[m] !in keys[..m];
      RunFrameAt(s, keys, m, f, e, keys[m]);
      MovedStaysMoved(s, p, keys, m, f, e);
    }
  }

  /** `RunFrame` at one key the pass did not reach, and at its slug's row. */
  lemma RunFrameAt(s: PassState, keys: seq<string>, n: nat, f: Faults, e: bool, key: string)
    requires AllKeyed(keys) && n <= |keys| && IsAccessKey(key) && key !in keys[..n]
    ensures var s' := Run(s, keys, n, f, e);
      s'.durable.Keys == s.durable.Keys &&
      (key in s'.counters <==> key in s.counters) && Get0(s'.counters, key) == Get0(s.counters, key) &&
      Get0(s'.durable, SlugOf(key)) == Get0(s.durable, SlugOf(key))
  {
    RunFrame(s, keys, n, f, e);
  }

  /**
   * The induction step of `FaultFreeRunMovesCounts`: the key at position `m`,
   * untouched so far, is drained into its row, and the keys before it stay moved.
   */
  lemma MovedStaysMoved(s: PassState, p: PassState, keys: seq<string>, m: nat, f: Faults, e: bool)
    requires AllKeyed(keys) && m < |keys|
    requires forall i :: 0 <= i < m ==> keys[i] != keys[m]
    requires m !in f.drain && m !in f.write
    requires keys[m] in s.counters && 0 < s.counters[keys[m]] <= MaxInt32 && SlugOf(keys[m]) in s.durable &&
      InInt32(s.durable[SlugOf(keys[m])] + s.counters[keys[m]])
    requires (keys[m] in p.counters <==> keys[m] in s.counters) && Get0(p.counters, keys[m]) == Get0(s.counters, keys[m])
    requires Get0(p.durable, SlugOf(keys[m])) == Get0(s.durable, SlugOf(keys[m])) && p.durable.Keys == s.durable.Keys
    requires p.tally == s.tally.(processed := s.tally.processed + m)
    requires forall i :: 0 <= i < m ==> keys[i] in s.counters && SlugOf(keys[i]) in s.durable
    requires forall i :: 0 <= i < m ==>
      keys[i] !in p.counters && SlugOf(keys[i]) in p.durable &&
      p.durable[SlugOf(keys[i])] == s.durable[SlugOf(keys[i])] + s.counters[keys[i]]
    ensures var s' := Reconcile(p, keys[m], m, f, e);
      s'.tally == s.tally.(processed := s.tally.processed + m + 1) &&
      forall i :: 0 <= i < m + 1 ==>
        keys[i] !in s'.counters && SlugOf(keys[i]) in s'.durable &&
        s'.durable[SlugOf(keys[i])] == s.durable[SlugOf(keys[i])] + s.counters[keys[i]]
  {
    var key := keys[m];
    ReconcileMoves(p, key, m, f, e);
    forall i | 0 <= i < m
      ensures SlugOf(keys[i]) != SlugOf(key)
    {
      assert AccessKey(SlugOf(keys[i])) == keys[i];
      assert AccessKey(SlugOf(key)) == key;
    }
  }

  /** The fault-free step on a positive count that fits: the key is drained into its row. */
  lemma ReconcileMoves(p: PassState, key: string, i: nat, f: Faults, e: bool)
    requires IsAccessKey(key) && i !in f.drain && i !in f.write
    requires key in p.counters && 0 < p.counters[key] <= MaxInt32
    requires SlugOf(key) in p.durable && InInt32(p.durable[SlugOf(key)] + p.counters[key])
    ensures Reconcile(p, key, i, f, e) == PassState(Deleted(p.counters, key),
      p.durable[SlugOf(key) := p.durable[SlugOf(key)] + p.counters[key]],
      p.tally.(processed := p.tally.processed + 1))
  {
    assert ToInt32(p.counters[key]) == p.counters[key];
  }

  /**
   * The `int32` conversion on the write loses accesses: a counter of 2^31 is
   * drained and lands in the row as -2^31.
   */
  lemma OversizedCountWraps()
    ensures var s := PassState(map[AccessKey("a") := MaxInt32 + 1], map["a" := 0], Tally(0, 0));
      var s' := Run(s, [AccessKey("a")], 1, Faults({}, {}, {}), false);
      Total(s, "a") == MaxInt32 + 1 && Total(s', "a") == MinInt32 && s'.tally == Tally(1, 0)
  {
    var s := PassState(map[AccessKey("a") := MaxInt32 + 1], map["a" := 0], Tally(0, 0));
    assert AccessKey("a") in s.counters && SlugOf(AccessKey("a")) == "a";
    assert ToInt32(MaxInt32 + 1) == MinInt32;
  }
}
