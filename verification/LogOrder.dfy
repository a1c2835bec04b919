/** Reading the `events` table in (ledger, id) order. */
module LogOrder {
  import opened Events
  import opened EventLog
  import opened TextOrder

  predicate IsFirst(log: Log, id: EventId) {
    id in log && forall k :: k in log && k != id ==> Before(log[id].ev, log[k].ev)
  }

  lemma {:induction false} FirstExists(log: Log)
    requires log != map[]
    ensures exists id :: IsFirst(log, id)
    decreases |log|
  {
    var k :| k in log;
    var rest: Log := log - {k};
    assert |rest.Keys| < |log.Keys| by {
      assert rest.Keys == log.Keys - {k};
    }
    if rest == map[] {
      assert forall x :: x in log ==> x == k || x in rest;
      assert IsFirst(log, k);
    } else {
      FirstExists(rest);
      var m :| IsFirst(rest, m);
      BeforeTotal(log[k].ev, log[m].ev);
      if Before(log[m].ev, log[k].ev) {
        assert IsFirst(log, m);
      } else {
        forall x | x in log && x != k
          ensures Before(log[k].ev, log[x].ev)
        {
          if x != m {
            BeforeTransitive(log[k].ev, log[m].ev, log[x].ev);
          }
        }
        assert IsFirst(log, k);
      }
    }
  }

  lemma FirstUnique(log: Log, a: EventId, b: EventId)
    requires IsFirst(log, a) && IsFirst(log, b)
    ensures a == b
  {
    if a != b {
      BeforeTransitive(log[a].ev, log[b].ev, log[a].ev);
      BeforeIrreflexive(log[a].ev);
    }
  }

  function FirstId(log: Log): (id: EventId)
    requires log != map[]
    ensures IsFirst(log, id)
  {
    FirstExists(log);
    assert forall a, b :: IsFirst(log, a) && IsFirst(log, b) ==> a == b by {
      forall a, b | IsFirst(log, a) && IsFirst(log, b)
        ensures a == b
      {
        FirstUnique(log, a, b);
      }
    }
    var id :| id in log && IsFirst(log, id);
    id
  }

  /** All rows in reading order. */
  function Sorted(log: Log): (evs: seq<Event>)
    decreases |log|
  {
    if log == map[] then []
    else
      var id := FirstId(log);
      var rest: Log := log - {id};
      assert rest.Keys == log.Keys - {id};
      assert |rest.Keys| < |log.Keys|;
      [log[id].ev] + Sorted(rest)
  }

  ghost predicate Lists(evs: seq<Event>, log: Log) {
    && (forall e :: e in evs ==> e.id in log && log[e.id].ev == e)
    && (forall id :: id in log ==> log[id].ev in evs)
  }

  lemma {:induction false} SortedLists(log: Log)
    ensures Lists(Sorted(log), log)
    decreases |log|
  {
    if log != map[] {
      var id := FirstId(log);
      var rest: Log := log - {id};
      assert rest.Keys == log.Keys - {id};
      assert |rest.Keys| < |log.Keys|;
      SortedLists(rest);
      assert Sorted(log) == [log[id].ev] + Sorted(rest);
    }
  }

  lemma AscendingCons(e: Event, r: seq<Event>)
    requires Ascending(r) && forall x :: x in r ==> Before(e, x)
    ensures Ascending([e] + r)
  {
    hide Before;
    var s := [e] + r;
    forall i, j | 0 <= i < j < |s|
      ensures Before(s[i], s[j])
    {
      assert s[j] == r[j - 1] && r[j - 1] in r;
    }
  }

  lemma {:induction false} SortedAscending(log: Log)
    ensures Ascending(Sorted(log))
    decreases |log|
  {
    if log != map[] {
      hide Ascending, Before;
      var id := FirstId(log);
      var rest: Log := log - {id};
      assert rest.Keys == log.Keys - {id};
      assert |rest.Keys| < |log.Keys|;
      SortedAscending(rest);
      SortedLists(rest);
      AscendingCons(log[id].ev, Sorted(rest));
    }
  }

  lemma ListsDistinct(evs: seq<Event>, log: Log)
    requires Lists(evs, log) && Ascending(evs)
    ensures Distinct(evs)
  {
    forall i, j | 0 <= i < j < |evs|
      ensures evs[i].id != evs[j].id
    {
      assert evs[i] in evs && evs[j] in evs;
      BeforeIrreflexive(evs[i]);
    }
  }

  /** The reading order lists every row exactly once, ascending in (ledger, id). */
  lemma SortedListsLog(log: Log)
    ensures Lists(Sorted(log), log)
    ensures Ascending(Sorted(log)) && Distinct(Sorted(log))
    ensures Ids(Sorted(log)) == log.Keys
  {
    SortedLists(log);
    SortedAscending(log);
    ListsDistinct(Sorted(log), log);
    forall k | k in log.Keys
      ensures k in Ids(Sorted(log))
    {
      assert log[k].ev in Sorted(log);
    }
  }

  lemma HeadIsFirst(evs: seq<Event>, log: Log)
    requires Lists(evs, log) && Ascending(evs) && log != map[]
    ensures evs != [] && evs[0] == log[FirstId(log)].ev
  {
    var first := log[FirstId(log)].ev;
    assert first in evs;
    var j :| 0 <= j < |evs| && evs[j] == first;
    assert evs[0] in evs;
    if j > 0 {
      BeforeIrreflexive(first);
      assert Before(evs[0], first);
      assert Before(first, evs[0]);
      BeforeTransitive(first, evs[0], first);
    }
  }

  lemma TailLists(evs: seq<Event>, log: Log, id: EventId, rest: Log)
    requires Lists(evs, log) && Ascending(evs) && evs != []
    requires evs[0].id == id && rest == log - {id}
    ensures Lists(evs[1..], rest) && Ascending(evs[1..])
  {
    var tail := evs[1..];
    ListsDistinct(evs, log);
    forall e | e in tail
      ensures e.id in rest && rest[e.id].ev == e
    {
      var j :| 0 <= j < |tail| && tail[j] == e;
      assert evs[j + 1] == e && e in evs;
    }
    forall k | k in rest
      ensures rest[k].ev in tail
    {
      assert k in log && log[k].ev in evs;
      var j :| 0 <= j < |evs| && evs[j] == log[k].ev;
      assert tail[j - 1] == log[k].ev;
    }
  }

  lemma SortedCons(log: Log, evs: seq<Event>)
    requires log != map[] && evs != [] && evs[0] == log[FirstId(log)].ev
    requires evs[1..] == Sorted(log - {FirstId(log)})
    ensures evs == Sorted(log)
  {
    assert evs == [evs[0]] + evs[1..];
  }

  /** There is only one ascending listing of a log. */
  lemma {:induction false} AscendingListingIsSorted(evs: seq<Event>, log: Log)
    requires Lists(evs, log) && Ascending(evs)
    ensures evs == Sorted(log)
    decreases |evs|
  {
    if evs != [] {
      assert evs[0] in evs && evs[0].id in log;
      HeadIsFirst(evs, log);
      TailLists(evs, log, FirstId(log), log - {FirstId(log)});
      AscendingListingIsSorted(evs[1..], log - {FirstId(log)});
      SortedCons(log, evs);
    } else if log != map[] {
      HeadIsFirst(evs, log);
    }
  }
}
