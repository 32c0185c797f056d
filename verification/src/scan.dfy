/**
 * A full `SCAN` iteration over `access:*`. The replies the server gives to
 * successive calls are an input: a page of keys with the next cursor, or an
 * error. Redis promises that a full iteration ends with cursor 0.
 */
module Scan {
  import opened Wrappers
  import AccessKeys

  datatype ScanReply = Page(keys: seq<string>, cursor: nat) | ScanFailed

  /** The reply that ends the loop: an error or the page that brings the cursor back to 0. */
  predicate Stops(r: ScanReply) {
    r.ScanFailed? || r.cursor == 0
  }

  predicate Terminates(replies: seq<ScanReply>) {
    exists i :: 0 <= i < |replies| && Stops(replies[i])
  }

  /** Every key the server lists matches the `access:*` pattern. */
  predicate Matching(replies: seq<ScanReply>) {
    forall i, k :: 0 <= i < |replies| && replies[i].Page? && k in replies[i].keys ==> AccessKeys.IsAccessKey(k)
  }

  /** The index of the reply that ends the loop. */
  function StopAt(replies: seq<ScanReply>): (n: nat)
    requires Terminates(replies)
    ensures n < |replies| && Stops(replies[n])
    ensures forall i :: 0 <= i < n ==> !Stops(replies[i])
  {
    if Stops(replies[0]) then 0
    else
      assert Terminates(replies[1..]) by {
        var j :| 0 <= j < |replies| && Stops(replies[j]);
        assert j != 0 && Stops(replies[1..][j - 1]);
      }
      1 + StopAt(replies[1..])
  }

  function Prepend(ks: seq<string>, r: Option<seq<string>>): Option<seq<string>> {
    if r.Some? then Some(ks + r.value) else None
  }

  /** The keys gathered over the whole iteration, or None when some call failed; all of them match the pattern. */
  function ScanAll(replies: seq<ScanReply>): (r: Option<seq<string>>)
    requires Terminates(replies)
    ensures r.Some? && Matching(replies) ==> forall k :: k in r.value ==> AccessKeys.IsAccessKey(k)
    decreases |replies|
  {
    if Stops(replies[0]) then
      (if replies[0].ScanFailed? then None else Some(replies[0].keys))
    else
      assert Terminates(replies[1..]) by {
        var j :| 0 <= j < |replies| && Stops(replies[j]);
        assert j != 0 && Stops(replies[1..][j - 1]);
      }
      assert Matching(replies) ==> Matching(replies[1..]) by {
        if Matching(replies) {
          forall i, k | 0 <= i < |replies[1..]| && replies[1..][i].Page? && k in replies[1..][i].keys
            ensures AccessKeys.IsAccessKey(k)
          {
            assert replies[1..][i] == replies[i + 1];
          }
        }
      }
      Prepend(replies[0].keys, ScanAll(replies[1..]))
  }

  /** The pages read up to the stop, concatenated. */
  function Concat(replies: seq<ScanReply>, n: nat): seq<string>
    requires n <= |replies|
    requires forall i :: 0 <= i < n ==> replies[i].Page?
  {
    if n == 0 then [] else Concat(replies, n - 1) + replies[n - 1].keys
  }

  /**
   * An iteration fails exactly when its last call fails, and otherwise yields
   * the pages it read, in order.
   */
  lemma {:induction false} ScanAllIsConcat(replies: seq<ScanReply>)
    requires Terminates(replies)
    ensures ScanAll(replies).None? <==> replies[StopAt(replies)].ScanFailed?
    ensures ScanAll(replies).Some? ==> ScanAll(replies).value == Concat(replies, StopAt(replies) + 1)
    decreases |replies|
  {
    if Stops(replies[0]) {
      assert StopAt(replies) == 0;
    } else {
      var rest := replies[1..];
      assert Terminates(rest) by {
        var j :| 0 <= j < |replies| && Stops(replies[j]);
        assert j != 0 && Stops(rest[j - 1]);
      }
      ScanAllIsConcat(rest);
      assert StopAt(replies) == 1 + StopAt(rest);
      if ScanAll(replies).Some? {
        ConcatShift(replies, StopAt(rest) + 1);
      }
    }
  }

  lemma {:induction false} ConcatShift(replies: seq<ScanReply>, n: nat)
    requires 0 < |replies| && n < |replies|
    requires forall i :: 0 <= i <= n ==> replies[i].Page?
    ensures Concat(replies, n + 1) == replies[0].keys + Concat(replies[1..], n)
  {
    if n > 0 {
      ConcatShift(replies, n - 1);
      assert replies[1..][n - 1] == replies[n];
    }
  }
}
