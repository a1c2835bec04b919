/**
 * The raw event log, its `folded_at` marks and the two ways a page is folded into the
 * derived tables: the whole page in one transaction, or one event per transaction
 * (src/indexer/poller.ts). Everything is parametric in the handler, so nothing here
 * depends on what a particular event does.
 */
module EventLog {
  import opened Outcomes
  import opened Events

  /** `applyEvent`: the new derived tables, or the error the handler threw. */
  type Handler<!S> = (S, Event) -> Outcome<S>

  datatype Row = Row(ev: Event, folded: bool)

  /** The `events` table: one row per event id. */
  type Log = m: map<EventId, Row> | forall id :: id in m ==> m[id].ev.id == id

  /** The part of the database a fold transaction reads and writes. `folds` is the transaction's history:
      the events it applied, in order. */
  datatype Txn<+S> = Txn(log: Log, derived: S, folds: seq<Event>)

  function Ids(evs: seq<Event>): set<EventId> {
    set e | e in evs :: e.id
  }

  ghost predicate Distinct(evs: seq<Event>) {
    forall i, j :: 0 <= i < j < |evs| ==> evs[i].id != evs[j].id
  }

  /** How many of the events carry this id. */
  function Occurrences(evs: seq<Event>, id: EventId): nat {
    if evs == [] then 0
    else Occurrences(evs[..|evs| - 1], id) + (if evs[|evs| - 1].id == id then 1 else 0)
  }

  function FoldedIds(log: Log): set<EventId> {
    set id | id in log && log[id].folded
  }

  /** `insertRawEvent`: idempotent on the id; an existing row is left as it is. */
  function InsertRaw(log: Log, ev: Event): Log {
    if ev.id in log then log else log[ev.id := Row(ev, false)]
  }

  /** What `insertRawEvent` returns: `folded_at IS NULL` on the row that now exists. */
  predicate NeedsFold(log: Log, ev: Event) {
    ev.id in log ==> !log[ev.id].folded
  }

  /** `markFolded`: an UPDATE, so a no-op when there is no such row. */
  function MarkFolded(log: Log, id: EventId): Log {
    if id in log then log[id := log[id].(folded := true)] else log
  }

  /** The continuity check: an event from below the ledger already folded to. */
  predicate Below(last: nat, ev: Event) {
    last > 0 && ev.ledger < last
  }

  /** Raw insert, fold and mark of one event inside an open transaction. */
  function FoldOne<S>(apply: Handler<S>, t: Txn<S>, ev: Event): Outcome<Txn<S>> {
    var log := InsertRaw(t.log, ev);
    if !NeedsFold(t.log, ev) then Ok(t.(log := log))
    else
      var d :- apply(t.derived, ev);
      Ok(Txn(MarkFolded(log, ev.id), d, t.folds + [ev]))
  }

  /** The left fold of the handler; fails as soon as one event throws. */
  function Fold<S>(apply: Handler<S>, s: S, evs: seq<Event>): Outcome<S> {
    if evs == [] then Ok(s)
    else
      var d :- Fold(apply, s, evs[..|evs| - 1]);
      apply(d, evs[|evs| - 1])
  }

  /** One event, rolled back if it throws. */
  function Attempt<S>(apply: Handler<S>, s: S, ev: Event): S {
    match apply(s, ev)
    case Ok(d) => d
    case Err(_) => s
  }

  /** The left fold in which a throwing event leaves the state as it was. */
  function FoldSkipping<S>(apply: Handler<S>, s: S, evs: seq<Event>): S {
    if evs == [] then s
    else Attempt(apply, FoldSkipping(apply, s, evs[..|evs| - 1]), evs[|evs| - 1])
  }

  lemma FoldSnoc<S>(apply: Handler<S>, s: S, evs: seq<Event>, ev: Event)
    ensures Fold(apply, s, evs + [ev]) ==
            match Fold(apply, s, evs) { case Ok(d) => apply(d, ev) case Err(m) => Err(m) }
  {
    assert (evs + [ev])[..|evs|] == evs;
  }

  lemma FoldOfTwo<S>(apply: Handler<S>, s: S, x: Event, y: Event)
    ensures Fold(apply, s, [x]) == apply(s, x)
    ensures Fold(apply, s, [x, y]) == match apply(s, x) { case Ok(d) => apply(d, y) case Err(m) => Err(m) }
  {
    FoldSnoc(apply, s, [], x);
    FoldSnoc(apply, s, [x], y);
    assert [] + [x] == [x] && [x] + [y] == [x, y];
  }

  lemma FoldSkippingSnoc<S>(apply: Handler<S>, s: S, evs: seq<Event>, ev: Event)
    ensures FoldSkipping(apply, s, evs + [ev]) == Attempt(apply, FoldSkipping(apply, s, evs), ev)
  {
    assert (evs + [ev])[..|evs|] == evs;
  }

  /** When no event throws, skipping throwing events makes no difference. */
  lemma {:induction false} FoldSkippingIsFold<S>(apply: Handler<S>, s: S, evs: seq<Event>)
    requires Fold(apply, s, evs).Ok?
    ensures FoldSkipping(apply, s, evs) == Fold(apply, s, evs).value
  {
    if evs != [] {
      FoldSkippingIsFold(apply, s, evs[..|evs| - 1]);
    }
  }

  lemma DistinctSnoc(evs: seq<Event>, ev: Event)
    ensures Ids(evs + [ev]) == Ids(evs) + {ev.id}
    ensures Distinct(evs + [ev]) <==> Distinct(evs) && ev.id !in Ids(evs)
  {
    var all := evs + [ev];
    assert forall e :: e in all <==> e in evs || e == ev;
    if Distinct(all) {
      forall i, j | 0 <= i < j < |evs|
        ensures evs[i].id != evs[j].id
      {
        assert all[i] == evs[i] && all[j] == evs[j];
      }
      forall e | e in evs
        ensures e.id != ev.id
      {
        var k :| 0 <= k < |evs| && evs[k] == e;
        assert all[k] == e && all[|evs|] == ev;
      }
    }
    if Distinct(evs) && ev.id !in Ids(evs) {
      forall i, j | 0 <= i < j < |all|
        ensures all[i].id != all[j].id
      {
        assert all[i] == evs[i] && evs[i] in evs;
      }
    }
  }

  lemma OccurrencesSnoc(evs: seq<Event>, ev: Event, id: EventId)
    ensures Occurrences(evs + [ev], id) == Occurrences(evs, id) + (if ev.id == id then 1 else 0)
  {
    assert (evs + [ev])[..|evs|] == evs;
  }

  lemma {:induction false} OccursIffListed(evs: seq<Event>, id: EventId)
    ensures id in Ids(evs) <==> Occurrences(evs, id) >= 1
  {
    if evs != [] {
      var n := |evs| - 1;
      OccursIffListed(evs[..n], id);
      DistinctSnoc(evs[..n], evs[n]);
      assert evs == evs[..n] + [evs[n]];
    }
  }

  /** Distinct events carry each id at most once. */
  lemma {:induction false} DistinctOccurOnce(evs: seq<Event>, id: EventId)
    requires Distinct(evs)
    ensures Occurrences(evs, id) <= 1
  {
    if evs != [] {
      var n := |evs| - 1;
      assert evs == evs[..n] + [evs[n]];
      DistinctSnoc(evs[..n], evs[n]);
      DistinctOccurOnce(evs[..n], id);
      OccursIffListed(evs[..n], id);
    }
  }

  lemma {:induction false} RepeatedOccursTwice(evs: seq<Event>, i: nat, j: nat)
    requires i < j < |evs| && evs[i].id == evs[j].id
    ensures Occurrences(evs, evs[j].id) >= 2
  {
    var n := |evs| - 1;
    if j < n {
      RepeatedOccursTwice(evs[..n], i, j);
    } else {
      assert evs[..n][i] in evs[..n];
      OccursIffListed(evs[..n], evs[j].id);
    }
  }

  /** And only distinct events do. */
  lemma OnceIsDistinct(evs: seq<Event>)
    requires forall id :: Occurrences(evs, id) <= 1
    ensures Distinct(evs)
  {
    forall i, j | 0 <= i < j < |evs|
      ensures evs[i].id != evs[j].id
    {
      if evs[i].id == evs[j].id {
        RepeatedOccursTwice(evs, i, j);
      }
    }
  }

  lemma MarkedIds(log: Log, ev: Event)
    ensures FoldedIds(MarkFolded(InsertRaw(log, ev), ev.id)) == FoldedIds(log) + {ev.id}
    ensures FoldedIds(InsertRaw(log, ev)) == FoldedIds(log)
  {
  }
}
