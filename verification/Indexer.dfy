/**
 * The indexer as it runs: a database whose tables change statement by statement, the poller's own memory,
 * and the loops over pages, events and batches (src/indexer/poller.ts, replay.ts, reindex.ts). Every
 * method is proved against its specification function.
 */
module Indexer {
  import opened Outcomes
  import opened Events
  import opened EventLog
  import opened LogOrder
  import opened PageModes
  import opened Quarantine
  import opened Polling
  import opened Replaying
  import opened Keyset
  import opened ReadFlags
  import opened Handlers
  import TableStore

  const REINDEX_LOCK_HELD := "Cannot acquire reindex advisory lock (0x0d400001)"

  class Database {
    const tables: TableStore.Store
    var log: Log
    var failed: map<EventId, FailedRow>
    var cursors: map<ContractId, Cursor>
    var memory: Notebook   // the process's own counters
    var saved: Notebook    // the quarantine_state table
    var halted: bool       // an uncleared reorg_halts row
    ghost var folds: seq<Event>
    ghost var heard: set<(nat, Hash)>

    constructor ()
      ensures fresh(tables) && Books() == PageModes.Books(Txn(map[], EMPTY, []), map[])
      ensures cursors == map[] && memory == map[] && saved == map[] && !halted && heard == {}
    {
      tables := new TableStore.Store();
      log, failed, cursors, memory, saved, halted := map[], map[], map[], map[], map[], false;
      folds, heard := [], {};
    }

    ghost function Open(): Txn<Tables>
      reads this, tables
    {
      Txn(log, tables.View(), folds)
    }

    ghost function Books(): PageModes.Books<Tables>
      reads this, tables
    {
      PageModes.Books(Open(), failed)
    }

    ghost function Work(): Polling.Work<Tables>
      reads this, tables
    {
      Polling.Work(Books(), Counters(memory, saved))
    }

    ghost function Station(c: ContractId): Polling.Station<Tables>
      reads this, tables
    {
      Polling.Station(Work(), if c in cursors then Some(cursors[c]) else None, heard)
    }

    /** INSERT ... ON CONFLICT DO UPDATE SET id = id RETURNING folded_at. */
    method InsertRawEvent(ev: Event) returns (needsFold: bool)
      modifies this`log
      ensures log == InsertRaw(old(log), ev) && needsFold == NeedsFold(old(log), ev)
    {
      if ev.id !in log {
        log := log[ev.id := Row(ev, false)];
      }
      needsFold := !log[ev.id].folded;
    }

    method MarkFoldedRow(id: EventId)
      modifies this`log
      ensures log == MarkFolded(old(log), id)
    {
      if id in log {
        log := log[id := log[id].(folded := true)];
      }
    }

    /** Fold one event in an open transaction; on an error the caller rolls back. */
    method FoldNow(ev: Event) returns (r: Outcome<()>)
      modifies this`log, this`folds, tables
      ensures match FoldOne(Apply, old(Open()), ev)
              case Ok(t) => r.Ok? && Open() == t
              case Err(m) => r == Err(m)
    {
      hide Apply;
      var needsFold := InsertRawEvent(ev);
      if needsFold {
        var r1 := tables.ApplyEvent(ev);
        match r1 {
          case Err(m) => return Err(m);
          case Ok(_) =>
        }
        MarkFoldedRow(ev.id);
        folds := folds + [ev];
      }
      r := Ok(());
    }

    /** `ingestPage`. */
    method IngestPage(page: seq<Event>, last: nat, luck: PageLuck) returns (v: Verdict<()>)
      modifies this`log, this`folds, tables
      ensures match AttemptPage(Apply, old(Open()), page, last, luck)
              case Done(t) => v == Done(()) && Open() == t
              case Diverged => v == Diverged && Open() == old(Open())
              case Threw(m) => v == Threw(m) && Open() == old(Open())
    {
      hide Apply, FoldOne;
      if page == [] {
        return Done(());
      }
      if !luck.lockFree {
        return Threw(PAGE_LOCK_HELD);
      }
      if luck.sqlError.Some? {
        return Threw(luck.sqlError.value);
      }
      ghost var begin := Open();
      var log0, tables0 := log, tables.View();
      for i := 0 to |page|
        invariant PageModes.IngestPage(Apply, begin, page[..i], last) == Done(Open())
      {
        assert page[..i + 1][..i] == page[..i];
        var ev := page[i];
        if Below(last, ev) {
          StopsAt(Apply, begin, page, i, last);
          log, folds := log0, begin.folds;
          tables.Restore(tables0);
          return Diverged;
        }
        var r := FoldNow(ev);
        if r.Err? {
          StopsAt(Apply, begin, page, i, last);
          log, folds := log0, begin.folds;
          tables.Restore(tables0);
          return Threw(r.message);
        }
      }
      assert page[..|page|] == page;
      v := Done(());
    }

    /** `ingestEventQuarantined`. */
    method IngestEventQuarantined(ev: Event, last: nat, luck: Luck) returns (v: Verdict<()>)
      modifies this`log, this`folds, this`failed, tables
      ensures match IngestEvent(Apply, old(Books()), ev, last, luck)
              case Done(b) => v == Done(()) && Books() == b
              case Diverged => v == Diverged && Books() == old(Books())
              case Threw(m) => v == Threw(m) && Books() == old(Books())
    {
      hide Apply;
      if Below(last, ev) {
        return Diverged;
      }
      if !luck.lockFree {
        return Threw(EVENT_LOCK_HELD);
      }
      if luck.rawError.Some? {
        return Threw(luck.rawError.value);
      }
      var needsFold := InsertRawEvent(ev);
      if !needsFold {
        return Done(());
      }
      var begin := tables.View();
      var r: Outcome<()>;
      if luck.sqlError.Some? {
        r := Err(luck.sqlError.value);
      } else {
        r := tables.ApplyEvent(ev);
      }
      match r {
        case Ok(_) =>
          MarkFoldedRow(ev.id);
          folds := folds + [ev];
        case Err(m) =>
          tables.Restore(begin);
          if luck.recorded {
            failed := failed[ev.id := FailedRow(m, false)];
          }
      }
      v := Done(());
    }

    /** The per-event pass over a page. */
    method IngestEachEvent(page: seq<Event>, last: nat, lucks: seq<Luck>) returns (v: Verdict<()>)
      modifies this`log, this`folds, this`failed, tables
      ensures IngestEvents(Apply, old(Books()), page, last, lucks) == Progress(Books(), v)
    {
      hide Apply, IngestEvent;
      ghost var begin := Books();
      for i := 0 to |page|
        invariant IngestEvents(Apply, begin, page[..i], last, lucks) == Progress(Books(), Done(()))
      {
        assert page[..i + 1][..i] == page[..i];
        var r := IngestEventQuarantined(page[i], last, LuckAt(lucks, i));
        if !r.Done? {
          EventsStopAt(Apply, begin, page, i, last, lucks);
          return r;
        }
      }
      assert page[..|page|] == page;
      v := Done(());
    }

    method SetSuspicion(c: ContractId, s: Option<Suspicion>, wrote: bool)
      modifies this`memory, this`saved
      ensures Counters(memory, saved) == Put(old(Counters(memory, saved)), c, s, wrote)
    {
      memory := memory[c := s];
      if wrote {
        saved := saved[c := s];
      }
    }

    /** `ingestPageWithQuarantine`. */
    method IngestPageWithQuarantine(threshold: nat, c: ContractId, page: seq<Event>, last: nat, luck: PageLuck)
      returns (v: Verdict<()>)
      modifies this`log, this`folds, this`failed, this`memory, this`saved, tables
      ensures (Work(), v) == IngestWithQuarantine(Apply, threshold, old(Work()), c, page, last, luck)
    {
      hide Apply, AttemptPage, Polling.EscalatePage;
      if c !in memory {
        memory := memory[c := if luck.read then Stored(saved, c) else None];
      }
      var r := IngestPage(page, last, luck);
      match r {
        case Done(_) =>
          SetSuspicion(c, None, luck.wroteClear);
          return Done(());
        case Diverged =>
          return Diverged;
        case Threw(m) =>
          var state := Bump(memory[c], KeyOf(page), m);
          SetSuspicion(c, Some(state), luck.wroteFailure);
          if state.failures < threshold {
            return Threw(m);
          }
          v := EscalatePage(c, state, page, last, luck);
      }
    }

    /** The per-event pass with its counter bookkeeping. */
    method EscalatePage(c: ContractId, state: Suspicion, page: seq<Event>, last: nat, luck: PageLuck)
      returns (v: Verdict<()>)
      requires c in memory && memory[c] == Some(state)
      modifies this`log, this`folds, this`failed, this`memory, this`saved, tables
      ensures (Work(), v) == Polling.EscalatePage(Apply, old(Work()), c, page, last, luck)
    {
      hide Apply, IngestEvents;
      SetSuspicion(c, Some(state), luck.wroteEscalation);
      v := IngestEachEvent(page, last, luck.events);
      if v.Done? {
        SetSuspicion(c, None, luck.wroteClear);
      }
    }

    /** What follows an ingested page in the drain loop: token, cursor write, stop or go on. */
    method AdvanceCursor(cfg: Config, c: ContractId, initial: Option<Cursor>, d: Drain, a: Answer) returns (e: Ending)
      modifies this`cursors, this`heard
      ensures (Station(c), e) == Advance(cfg, initial, d, old(Station(c)), a)
    {
      var pageCount := |a.events|;
      var next, folded := d.request, d.last;
      if pageCount > 0 {
        next, folded := Some(a.events[pageCount - 1].id), a.events[pageCount - 1].ledger;
      } else if a.cursor.Some? {
        next := a.cursor;
      }
      var tip := if a.latest.Some? then a.latest.value else d.tip;
      var d' := d.(request := next, pages := d.pages + 1);
      if initial.None? || next != initial.value.token || folded != d.last || tip != d.tip {
        var hash := d.hash;
        if folded != d.last {
          hash := a.hash;
          heard := Heard(heard, folded, a.hash);
        }
        if !a.saved {
          return Errored("Cursor write failed");
        }
        cursors := cursors[c := Cursor(next, folded, hash, tip)];
        d' := Drain(next, folded, hash, tip, d.pages + 1);
      }
      if pageCount < cfg.pageLimit || d'.pages >= cfg.maxPages || !a.more {
        return Stopped;
      }
      e := Going(d');
    }

    /** `fetchOnce`. */
    method FetchOnce(cfg: Config, c: ContractId, tip: nat, priorHash: Option<Hash>, answers: seq<Answer>)
      returns (e: Ending)
      modifies this`log, this`folds, this`failed, this`memory, this`saved, this`cursors, this`heard, tables
      ensures (Station(c), e) == Polling.FetchOnce(Apply, cfg, c, old(Station(c)), tip, priorHash, answers)
    {
      hide Apply, Loop;
      var initial := if c in cursors then Some(cursors[c]) else None;
      if Rewound(initial, tip) {
        return Raised;
      }
      if AsksHash(initial) {
        heard := Heard(heard, Prior(initial), priorHash);
      }
      if Forked(initial, priorHash) {
        return Raised;
      }
      e := DrainPages(cfg, c, initial, FirstDrain(initial, tip), answers);
    }

    /** The drain loop of `fetchOnce`. */
    method DrainPages(cfg: Config, c: ContractId, initial: Option<Cursor>, first: Drain, answers: seq<Answer>)
      returns (e: Ending)
      modifies this`log, this`folds, this`failed, this`memory, this`saved, this`cursors, this`heard, tables
      ensures (Station(c), e) == Loop(Apply, cfg, c, initial, first, old(Station(c)), answers)
    {
      hide Apply, PageStep;
      ghost var begin := Station(c);
      var d := first;
      var i := 0;
      while i < |answers|
        invariant 0 <= i <= |answers|
        invariant Loop(Apply, cfg, c, initial, first, begin, answers)
                  == Loop(Apply, cfg, c, initial, d, Station(c), answers[i..])
      {
        assert answers[i..][0] == answers[i] && answers[i..][1..] == answers[i + 1..];
        e := DrainPage(cfg, c, initial, d, answers[i]);
        if !e.Going? {
          return;
        }
        d := e.drain;
        i := i + 1;
      }
      e := Stopped;
    }

    /** One turn of the drain loop. */
    method DrainPage(cfg: Config, c: ContractId, initial: Option<Cursor>, d: Drain, a: Answer) returns (e: Ending)
      modifies this`log, this`folds, this`failed, this`memory, this`saved, this`cursors, this`heard, tables
      ensures (Station(c), e) == PageStep(Apply, cfg, c, initial, d, old(Station(c)), a)
    {
      hide Apply, IngestWithQuarantine, Advance;
      var v := IngestPageWithQuarantine(cfg.threshold, c, a.events, d.last, a.luck);
      match v {
        case Diverged => e := Raised;
        case Threw(m) => e := Errored(m);
        case Done(_) => e := AdvanceCursor(cfg, c, initial, d, a);
      }
    }

    /** `replayFailedEvent`. */
    method ReplayFailedEvent(id: EventId, luck: Luck) returns (outcome: ReplayOutcome)
      modifies this`log, this`folds, this`failed, tables
      ensures (Books(), outcome) == Replay(Apply, old(Books()), id, luck)
    {
      hide Apply;
      if !luck.lockFree {
        return LockHeld;
      }
      if luck.rawError.Some? {
        return SqlFailed(luck.rawError.value);
      }
      if id !in failed || failed[id].resolved {
        return AlreadyResolved;
      }
      if id !in log {
        return Inconsistent;
      }
      if log[id].folded {
        failed := failed[id := failed[id].(resolved := true)];
        return AlreadyResolved;
      }
      var ev := log[id].ev;
      var begin := tables.View();
      var r: Outcome<()>;
      if luck.sqlError.Some? {
        r := Err(luck.sqlError.value);
      } else {
        r := tables.ApplyEvent(ev);
      }
      match r {
        case Ok(_) =>
          MarkFoldedRow(id);
          folds := folds + [ev];
          failed := failed[id := failed[id].(resolved := true)];
          outcome := Replayed;
        case Err(m) =>
          tables.Restore(begin);
          failed := failed[id := failed[id].(error := m)];
          outcome := StillFailing(m);
      }
    }

    /** `replayAllUnresolvedFailedEvents`. */
    method ReplayAllUnresolved(ids: seq<EventId>, lucks: seq<Luck>) returns (outcomes: seq<ReplayOutcome>)
      modifies this`log, this`folds, this`failed, tables
      ensures (Books(), outcomes) == ReplayAll(Apply, old(Books()), ids, lucks)
    {
      hide Apply, Replay;
      ghost var begin := Books();
      outcomes := [];
      for i := 0 to |ids|
        invariant (Books(), outcomes) == ReplayAll(Apply, begin, ids[..i], lucks) && !Replaying.Stopped(outcomes)
      {
        assert ids[..i + 1][..i] == ids[..i];
        var outcome := ReplayFailedEvent(ids[i], LuckAt(lucks, i));
        outcomes := outcomes + [outcome];
        if Throws(outcome) {
          ReplayStopsAt(Apply, begin, ids, i, lucks);
          return;
        }
      }
      assert ids[..|ids|] == ids;
    }

    /** Fold one batch of rows onto the tables; `done` rows of `all` came before it. */
    method FoldBatch(rows: seq<Event>, ghost all: seq<Event>, ghost done: nat) returns (r: Outcome<()>)
      requires done + |rows| <= |all| && rows == all[done..done + |rows|]
      requires Fold(Apply, EMPTY, all[..done]) == Ok(tables.View())
      modifies tables
      ensures match r
              case Ok(_) => Fold(Apply, EMPTY, all[..done + |rows|]) == Ok(tables.View())
              case Err(m) => Fold(Apply, EMPTY, all) == Err(m)
    {
      hide Apply;
      for i := 0 to |rows|
        invariant Fold(Apply, EMPTY, all[..done + i]) == Ok(tables.View())
      {
        var n := done + i;
        assert rows[i] == all[n] && all[..n + 1][..n] == all[..n];
        r := tables.ApplyEvent(rows[i]);
        if r.Err? {
          FoldStopsAt(Apply, EMPTY, all, n);
          return;
        }
      }
      r := Ok(());
    }

    /** The keyset loop: every row once, in (ledger, id) order, whatever the batch size. */
    method RebuildTables(batchSize: nat) returns (r: Outcome<nat>)
      requires batchSize >= 1
      modifies tables
      ensures match Fold(Apply, EMPTY, Sorted(log))
              case Ok(t) => r == Ok(|Sorted(log)|) && tables.View() == t
              case Err(m) => r == Err(m)
    {
      hide Apply, Sorted;
      tables.Truncate();
      ghost var all := Sorted(log);
      assert all[..0] == [];
      var lastKey: Option<(nat, EventId)> := None;
      var processed := 0;
      while true
        invariant processed <= |all| && lastKey == KeyOfLast(all[..processed])
        invariant Fold(Apply, EMPTY, all[..processed]) == Ok(tables.View())
        decreases |all| - processed
      {
        BatchIsNextStretch(log, processed, batchSize);
        var rows := Batch(log, lastKey, batchSize);
        if rows == [] {
          break;
        }
        hide Fold;
        var folded := FoldBatch(rows, all, processed);
        if folded.Err? {
          return Err(folded.message);
        }
        processed := processed + |rows|;
        var last := rows[|rows| - 1];
        assert all[..processed][processed - 1] == last;
        lastKey := Some((last.ledger, last.id));
      }
      assert all[..processed] == all;
      r := Ok(processed);
    }

    /** `reindexFromEventLog`: truncate, read the log in keyset batches and fold every row, restore the read
        flags, and resolve failures and halts, all in one transaction. If a handler throws, or the lock is
        held, nothing has changed. */
    method ReindexFromEventLog(requestedBatch: int, lockFree: bool) returns (r: Outcome<nat>)
      modifies this`failed, this`halted, tables
      ensures !lockFree ==> r == Err(REINDEX_LOCK_HELD)
      ensures lockFree ==>
                match Fold(Apply, EMPTY, Sorted(log))
                case Ok(t) =>
                  && r == Ok(|Sorted(log)|)
                  && tables.View()
                    == t.(notifications := RestoreReads(t.notifications, SavedReads(old(tables.View()).notifications)))
                  && failed.Keys == old(failed).Keys
                     && (forall id :: id in failed ==> failed[id] == old(failed)[id].(resolved := true))
                  && !halted
                case Err(m) => r == Err(m)
      ensures r.Err? ==> tables.View() == old(tables.View()) && failed == old(failed) && halted == old(halted)
    {
      hide Apply, Sorted, Fold;
      if !lockFree {
        return Err(REINDEX_LOCK_HELD);
      }
      var begin := tables.View();
      r := RebuildTables(if requestedBatch < 1 then 1 else requestedBatch);
      if r.Err? {
        tables.Restore(begin);
        return;
      }
      tables.notifications := RestoreReads(tables.notifications, SavedReads(begin.notifications));
      failed := map id | id in failed :: failed[id].(resolved := true);
      halted := false;
    }
  }

  /** The page loop stops at the first event that diverges or throws. */
  lemma {:induction false} StopsAt<S>(apply: Handler<S>, t: Txn<S>, page: seq<Event>, i: nat, last: nat)
    requires i < |page| && PageModes.IngestPage(apply, t, page[..i], last).Done?
    requires var t1 := PageModes.IngestPage(apply, t, page[..i], last).value;
             Below(last, page[i]) || FoldOne(apply, t1, page[i]).Err?
    ensures PageModes.IngestPage(apply, t, page, last) ==
            if Below(last, page[i]) then Diverged
            else Threw(FoldOne(apply, PageModes.IngestPage(apply, t, page[..i], last).value, page[i]).message)
    decreases |page|
  {
    var n := |page| - 1;
    hide FoldOne;
    if i < n {
      assert page[..n][..i] == page[..i];
      StopsAt(apply, t, page[..n], i, last);
    }
  }

  lemma {:induction false} EventsStopAt<S>(apply: Handler<S>, b: PageModes.Books<S>, page: seq<Event>, i: nat,
                                           last: nat, lucks: seq<Luck>)
    requires i < |page| && !IngestEvents(apply, b, page[..i + 1], last, lucks).verdict.Done?
    ensures IngestEvents(apply, b, page, last, lucks) == IngestEvents(apply, b, page[..i + 1], last, lucks)
    decreases |page|
  {
    hide IngestEvent;
    var n := |page| - 1;
    if i < n {
      assert page[..n][..i + 1] == page[..i + 1];
      EventsStopAt(apply, b, page[..n], i, last, lucks);
    } else {
      assert page[..i + 1] == page;
    }
  }

  lemma {:induction false} ReplayStopsAt<S>(apply: Handler<S>, b: PageModes.Books<S>, ids: seq<EventId>, i: nat,
                                            lucks: seq<Luck>)
    requires i < |ids| && Replaying.Stopped(ReplayAll(apply, b, ids[..i + 1], lucks).1)
    ensures ReplayAll(apply, b, ids, lucks) == ReplayAll(apply, b, ids[..i + 1], lucks)
    decreases |ids|
  {
    hide Replay;
    var n := |ids| - 1;
    if i < n {
      assert ids[..n][..i + 1] == ids[..i + 1];
      ReplayStopsAt(apply, b, ids[..n], i, lucks);
    } else {
      assert ids[..i + 1] == ids;
    }
  }

  lemma {:induction false} FoldStopsAt<S>(apply: Handler<S>, s: S, evs: seq<Event>, i: nat)
    requires i < |evs| && Fold(apply, s, evs[..i]).Ok? && apply(Fold(apply, s, evs[..i]).value, evs[i]).Err?
    ensures Fold(apply, s, evs) == Err(apply(Fold(apply, s, evs[..i]).value, evs[i]).message)
    decreases |evs|
  {
    var n := |evs| - 1;
    if i < n {
      assert evs[..n][..i] == evs[..i];
      FoldStopsAt(apply, s, evs[..n], i);
    }
  }
}
