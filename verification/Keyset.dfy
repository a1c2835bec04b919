/** Keyset pagination over the event log, as the rebuild reads it (src/indexer/reindex.ts:97-149). */
module Keyset {
  import opened Outcomes
  import opened Events
  import opened EventLog
  import opened TextOrder
  import opened LogOrder

  /** WHERE ledger > $1 OR (ledger = $1 AND id > $2); no condition on the first batch. */
  predicate Beyond(key: Option<(nat, EventId)>, ev: Event) {
    key.Some? ==> ev.ledger > key.value.0 || (ev.ledger == key.value.0 && TextLess(key.value.1, ev.id))
  }

  function RowsBeyond(log: Log, key: Option<(nat, EventId)>): Log {
    map id | id in log && Beyond(key, log[id].ev) :: log[id]
  }

  /** ORDER BY ledger, id LIMIT n. */
  function Batch(log: Log, key: Option<(nat, EventId)>, limit: nat): seq<Event> {
    var rows := Sorted(RowsBeyond(log, key));
    if |rows| <= limit then rows else rows[..limit]
  }

  function KeyOfLast(evs: seq<Event>): Option<(nat, EventId)> {
    if evs == [] then None else Some((evs[|evs| - 1].ledger, evs[|evs| - 1].id))
  }

  lemma BeyondIsLater(all: seq<Event>, n: nat, j: nat)
    requires Ascending(all) && 0 < n <= |all| && j < |all|
    ensures Beyond(KeyOfLast(all[..n]), all[j]) <==> n <= j
  {
    assert all[..n][n - 1] == all[n - 1];
    assert Beyond(KeyOfLast(all[..n]), all[j]) <==> Before(all[n - 1], all[j]);
    if j < n {
      NotBefore(all, j, n - 1);
    }
  }

  lemma RestIsListed(all: seq<Event>, log: Log, n: nat)
    requires Lists(all, log) && Ascending(all) && 0 < n <= |all|
    ensures Lists(all[n..], RowsBeyond(log, KeyOfLast(all[..n]))) && Ascending(all[n..])
  {
    hide Beyond;
    var key := KeyOfLast(all[..n]);
    var rest := RowsBeyond(log, key);
    forall e | e in all[n..]
      ensures e.id in rest && rest[e.id].ev == e
    {
      var j :| n <= j < |all| && all[j] == e;
      assert e in all;
      BeyondIsLater(all, n, j);
    }
    forall id | id in rest
      ensures rest[id].ev in all[n..]
    {
      var e := rest[id].ev;
      assert log[id].ev in all;
      var j :| 0 <= j < |all| && all[j] == e;
      BeyondIsLater(all, n, j);
      assert e == all[n..][j - n];
    }
  }

  /** After the first `n` rows of the reading order, the rows beyond the last key are exactly the others. */
  lemma RowsBeyondAreTheRest(log: Log, n: nat)
    requires n <= |Sorted(log)|
    ensures Sorted(RowsBeyond(log, KeyOfLast(Sorted(log)[..n]))) == Sorted(log)[n..]
  {
    hide Sorted;
    var all := Sorted(log);
    if n == 0 {
      assert RowsBeyond(log, None) == log;
      assert all[..0] == [] && all[0..] == all;
    } else {
      SortedListsLog(log);
      RestIsListed(all, log, n);
      AscendingListingIsSorted(all[n..], RowsBeyond(log, KeyOfLast(all[..n])));
    }
  }

  lemma NotBefore(all: seq<Event>, j: nat, k: nat)
    requires Ascending(all) && j <= k < |all|
    ensures !Before(all[k], all[j])
  {
    BeforeIrreflexive(all[j]);
    if j < k && Before(all[k], all[j]) {
      BeforeTransitive(all[j], all[k], all[j]);
    }
  }

  /** So the next batch is the next stretch of the reading order: full, or all that is left. */
  lemma BatchIsNextStretch(log: Log, n: nat, limit: nat)
    requires n <= |Sorted(log)| && limit >= 1
    ensures var rows := Batch(log, KeyOfLast(Sorted(log)[..n]), limit);
            && n + |rows| <= |Sorted(log)|
            && rows == Sorted(log)[n..n + |rows|]
            && (rows == [] <==> n == |Sorted(log)|)
  {
    hide Sorted;
    RowsBeyondAreTheRest(log, n);
  }
}
