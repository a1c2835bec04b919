/**
 * What a rebuild and a reset do to the rest of a run. A rebuild reads every row but marks none
 * (src/indexer/reindex.ts:124-149); a reset wipes the tables but leaves every mark
 * (src/indexer/poller.ts:135-139).
 */
module Rebuilds {
  import opened Outcomes
  import opened Events
  import opened EventLog
  import opened TextOrder
  import opened LogOrder
  import opened PageModes
  import opened FoldProtocol
  import opened Refinement
  import EO = ExactlyOnce

  /** Only a rebuild or a reset changes what is stale or wiped. */
  lemma {:induction false} StaleAndWipedStay<S>(apply: Handler<S>, init: S, s: Sys<S>, more: Run)
    requires EO.NoRebuild(more) && EO.NoReset(more)
    ensures var h := ExecFrom(apply, init, s, more).hist; h.stale == s.hist.stale && h.wiped == s.hist.wiped
  {
    if more != [] {
      StaleAndWipedStay(apply, init, s, more[..|more| - 1]);
      assert !more[|more| - 1].1.CommitRebuild? && !more[|more| - 1].1.Reset?;
    }
  }

  lemma {:induction false} StaleStaysEmpty<S>(apply: Handler<S>, init: S, s: Sys<S>, more: Run)
    requires s.hist.stale == {} && EO.NoRebuild(more)
    ensures ExecFrom(apply, init, s, more).hist.stale == {}
  {
    if more != [] {
      StaleStaysEmpty(apply, init, s, more[..|more| - 1]);
      assert !more[|more| - 1].1.CommitRebuild?;
    }
  }

  lemma RebuildLeavesNothingStale<S>(apply: Handler<S>, init: S, s: Sys<S>, w: WorkerId)
    requires At(s, w).Rebuilding? && At(s, w).snapshot == s.db.log && FoldedIds(s.db.log) == s.db.log.Keys
    requires Fold(apply, init, Sorted(s.db.log)).Ok?
    ensures var h := Step(apply, init, s, w, CommitRebuild).hist; h.stale == {} && h.wiped == {}
  {
    hide Sorted, Fold;
  }

  /** A rebuild that found every row folded is safe: from then on, until the next rebuild, no event contributes
      twice, whatever pollers, replays, resets and crashes follow; and until the next reset every folded event
      contributes exactly once. */
  lemma RebuildOfFoldedLogIsSafe<S>(apply: Handler<S>, init: S, run: Run, w: WorkerId, more: Run)
    requires At(Exec(apply, init, run), w).Rebuilding?
    requires FoldedIds(Exec(apply, init, run).db.log) == Exec(apply, init, run).db.log.Keys
    requires Fold(apply, init, Sorted(Exec(apply, init, run).db.log)).Ok?
    requires EO.NoRebuild(more)
    ensures var s := Exec(apply, init, run + [(w, CommitRebuild)] + more);
            && Distinct(s.hist.contributed)
            && (EO.NoReset(more) ==> Ids(s.hist.contributed) == FoldedIds(s.db.log))
  {
    hide Step, Fold, Sorted;
    var s := Exec(apply, init, run);
    var s' := Step(apply, init, s, w, CommitRebuild);
    EO.InvHolds(apply, init, run);
    assert EO.ProcSound(apply, init, s, w);
    RebuildLeavesNothingStale(apply, init, s, w);
    ExecSnoc(apply, init, Start(init), run, w, CommitRebuild);
    StaleStaysEmpty(apply, init, s', more);
    if EO.NoReset(more) {
      StaleAndWipedStay(apply, init, s', more);
    }
    ExecAppend(apply, init, Start(init), run + [(w, CommitRebuild)], more);
    EO.FoldedExactlyOnce(apply, init, run + [(w, CommitRebuild)] + more);
    AtMostOnceIsDistinct(Exec(apply, init, run + [(w, CommitRebuild)] + more).hist.contributed);
  }

  lemma AtMostOnceIsDistinct(evs: seq<Event>)
    requires forall id :: Occurrences(evs, id) <= 2 && Occurrences(evs, id) != 2
    ensures Distinct(evs)
  {
    OnceIsDistinct(evs);
  }

  // A row that a rebuild found logged but not folded

  lemma FoldOneMarks<S>(apply: Handler<S>, t: Txn<S>, ev: Event)
    requires FoldOne(apply, t, ev).Ok?
    ensures FoldedIds(FoldOne(apply, t, ev).value.log) == FoldedIds(t.log) + {ev.id}
  {
    MarkedIds(t.log, ev);
  }

  lemma {:induction false} PageMarksItsEvents<S>(apply: Handler<S>, t: Txn<S>, page: seq<Event>, last: nat)
    requires PageModes.IngestPage(apply, t, page, last).Done?
    ensures Ids(page) <= FoldedIds(PageModes.IngestPage(apply, t, page, last).value.log)
  {
    if page != [] {
      var n := |page| - 1;
      PageMarksItsEvents(apply, t, page[..n], last);
      assert page == page[..n] + [page[n]];
      DistinctSnoc(page[..n], page[n]);
      FoldOneMarks(apply, PageModes.IngestPage(apply, t, page[..n], last).value, page[n]);
      hide FoldOne, FoldedIds, Ids;
    }
  }

  lemma {:induction false} FoldStepsAreQuiet(w: WorkerId, n: nat)
    ensures EO.NoRebuild(FoldSteps(w, n)) && EO.NoReset(FoldSteps(w, n))
  {
    if n > 0 {
      FoldStepsAreQuiet(w, n - 1);
    }
  }

  lemma PageRunIsQuiet(w: WorkerId, n: nat)
    ensures EO.NoRebuild(PageRun(w, n)) && EO.NoReset(PageRun(w, n))
  {
    FoldStepsAreQuiet(w, n);
  }

  /** A rebuild that found a row logged but not folded is not safe: the next page that holds the row, of any
      contract and from any cursor, makes it contribute a second time. */
  lemma UnfoldedRowContributesTwice<S>(apply: Handler<S>, init: S, run: Run, w: WorkerId, poll: Poll, b: Books<S>,
                                       id: EventId)
    requires var s := Exec(apply, init, run);
             && id in s.hist.stale && id in Ids(poll.page)
             && At(s, w) == Fetched(poll) && s.db.lock == None && Matches(s, b)
    requires PageModes.IngestPage(apply, b.txn, poll.page, poll.last).Done?
    ensures Occurrences(Exec(apply, init, run + PageRun(w, |poll.page|)).hist.contributed, id) == 2
  {
    hide ExecFrom, Step, PageModes.IngestPage, PageRun;
    var s, page := Exec(apply, init, run), PageRun(w, |poll.page|);
    PageRunIsQuiet(w, |poll.page|);
    StaleAndWipedStay(apply, init, s, page);
    PageModeIsARun(apply, init, s, w, poll, b);
    PageMarksItsEvents(apply, b.txn, poll.page, poll.last);
    ExecAppend(apply, init, Start(init), run, page);
    EO.FoldedExactlyOnce(apply, init, run + page);
  }

  /** A worker logs an event in per-event mode and dies before folding it; then the tables are rebuilt. */
  function LogThenRebuild(w: WorkerId, c: ContractId, ev: Event): Run {
    [(w, LoadCursor(c, 0)), (w, Fetch([ev])), (w, FailPage)]
    + [(w, LockEvent), (w, InsertEvent), (w, Crash)]
    + [(w, LockRebuild), (w, CommitRebuild), (w, Release)]
  }

  lemma FetchedThenFailed<S>(apply: Handler<S>, init: S, w: WorkerId, c: ContractId, ev: Event)
    ensures var s := ExecFrom(apply, init, Start(init), [(w, LoadCursor(c, 0)), (w, Fetch([ev])), (w, FailPage)]);
            At(s, w) == NextEvent(Poll(c, 0, 0, [ev]), 0) && s.db == Start(init).db && s.hist == Start(init).hist
  {
    hide ExecFrom, FoldOne;
    ExecThree(apply, init, Start(init), w, LoadCursor(c, 0), w, Fetch([ev]), FailPage);
  }

  lemma LoggedThenDied<S>(apply: Handler<S>, init: S, s: Sys<S>, w: WorkerId, c: ContractId, ev: Event)
    requires At(s, w) == NextEvent(Poll(c, 0, 0, [ev]), 0) && s.db == Start(init).db && s.hist == Start(init).hist
    ensures var s' := ExecFrom(apply, init, s, [(w, LockEvent), (w, InsertEvent), (w, Crash)]);
            && At(s', w).Idle? && s'.hist == Start(init).hist
            && s'.db == Start(init).db.(log := map[ev.id := Row(ev, false)])
  {
    hide ExecFrom, FoldOne;
    ExecThree(apply, init, s, w, LockEvent, w, InsertEvent, Crash);
    LockAndInsert(apply, init, s, w, Poll(c, 0, 0, [ev]), 0);
  }

  lemma SortedOne(ev: Event)
    ensures Sorted(map[ev.id := Row(ev, false)]) == [ev]
  {
    AscendingListingIsSorted([ev], map[ev.id := Row(ev, false)]);
  }

  lemma RebuiltUnfolded<S>(apply: Handler<S>, init: S, s: Sys<S>, w: WorkerId, ev: Event)
    requires At(s, w).Idle? && s.db == Start(init).db.(log := map[ev.id := Row(ev, false)])
             && s.hist == Start(init).hist
    requires apply(init, ev).Ok?
    ensures var s' := ExecFrom(apply, init, s, [(w, LockRebuild), (w, CommitRebuild), (w, Release)]);
            && At(s', w).Idle? && s'.hist.stale == {ev.id} && s'.hist.applied == []
            && s'.db == s.db.(derived := apply(init, ev).value)
  {
    hide ExecFrom, Sorted, Fold;
    SortedOne(ev);
    FoldOfTwo(apply, init, ev, ev);
    RebuildSteps(apply, init, s, w, apply(init, ev).value);
    assert FoldedIds(s.db.log) == {} && s.db.log.Keys == {ev.id} && AllResolved(s.db.failed) == s.db.failed;
  }

  lemma AfterLogThenRebuild<S>(apply: Handler<S>, init: S, w: WorkerId, c: ContractId, ev: Event)
    requires apply(init, ev).Ok?
    ensures var s := Exec(apply, init, LogThenRebuild(w, c, ev));
            && At(s, w).Idle? && s.hist.stale == {ev.id} && s.hist.applied == []
            && s.db == Start(init).db.(log := map[ev.id := Row(ev, false)], derived := apply(init, ev).value)
  {
    hide Step, ExecFrom;
    var r1: Run := [(w, LoadCursor(c, 0)), (w, Fetch([ev])), (w, FailPage)];
    var r2: Run := [(w, LockEvent), (w, InsertEvent), (w, Crash)];
    var r3: Run := [(w, LockRebuild), (w, CommitRebuild), (w, Release)];
    var s1 := ExecFrom(apply, init, Start(init), r1);
    var s2 := ExecFrom(apply, init, s1, r2);
    FetchedThenFailed(apply, init, w, c, ev);
    LoggedThenDied(apply, init, s1, w, c, ev);
    RebuiltUnfolded(apply, init, s2, w, ev);
    ExecAppend(apply, init, Start(init), r1, r2);
    ExecAppend(apply, init, Start(init), r1 + r2, r3);
  }

  lemma FetchedAgain<S>(apply: Handler<S>, init: S, s: Sys<S>, w: WorkerId, c: ContractId, ev: Event)
    requires At(s, w).Idle? && s.db.cursors == map[]
    ensures var s' := ExecFrom(apply, init, s, [(w, LoadCursor(c, 0)), (w, Fetch([ev]))]);
            At(s', w) == Fetched(Poll(c, 0, 0, [ev])) && s'.db == s.db && s'.hist == s.hist
  {
    hide ExecFrom, FoldOne;
    ExecTwo(apply, init, s, w, LoadCursor(c, 0), w, Fetch([ev]));
  }

  lemma IngestOne<S>(apply: Handler<S>, t: Txn<S>, ev: Event)
    requires NeedsFold(t.log, ev) && apply(t.derived, ev).Ok?
    ensures PageModes.IngestPage(apply, t, [ev], 0)
            == Done(Txn(MarkFolded(InsertRaw(t.log, ev), ev.id), apply(t.derived, ev).value, t.folds + [ev]))
  {
    hide MarkFolded, InsertRaw;
    assert [ev][..0] == [];
  }

  /** Such a row is reached, for every event that the handler accepts twice: log it in per-event mode, crash,
      rebuild, and poll again. The event was folded once and is in the tables twice. */
  lemma RebuildThenPollFoldsTwice<S>(apply: Handler<S>, init: S, w: WorkerId, c: ContractId, ev: Event)
    requires Fold(apply, init, [ev, ev]).Ok?
    ensures var run := LogThenRebuild(w, c, ev) + [(w, LoadCursor(c, 0)), (w, Fetch([ev]))] + PageRun(w, 1);
            Occurrences(Exec(apply, init, run).hist.contributed, ev.id) == 2
  {
    FoldOfTwo(apply, init, ev, ev);
    hide Fold;
    var poll := Poll(c, 0, 0, [ev]);
    var r1, r2 := LogThenRebuild(w, c, ev), [(w, LoadCursor(c, 0)), (w, Fetch([ev]))];
    AfterLogThenRebuild(apply, init, w, c, ev);
    var s1 := Exec(apply, init, r1);
    FetchedAgain(apply, init, s1, w, c, ev);
    ExecAppend(apply, init, Start(init), r1, r2);
    var b := Books(Txn(s1.db.log, s1.db.derived, []), map[]);
    assert Marks(b.failed) == map[];
    IngestOne(apply, b.txn, ev);
    assert ev in [ev];
    hide ExecFrom, PageModes.IngestPage, PageRun;
    UnfoldedRowContributesTwice(apply, init, r1 + r2, w, poll, b, ev.id);
  }

  // A reset

  /** What has been contributed since is the tail of what has been applied, after the first `n`. */
  ghost predicate Tail(before: seq<Event>, applied: seq<Event>, contributed: seq<Event>) {
    && before <= applied
    && exists k :: |before| <= k <= |applied| && applied[k..] == contributed
  }

  lemma TailGrows(before: seq<Event>, applied: seq<Event>, contributed: seq<Event>, folds: seq<Event>)
    requires Tail(before, applied, contributed)
    ensures Tail(before, applied + folds, contributed + folds)
  {
    var k :| |before| <= k <= |applied| && applied[k..] == contributed;
    assert (applied + folds)[k..] == contributed + folds;
  }

  lemma TailRestarts(before: seq<Event>, applied: seq<Event>)
    requires before <= applied
    ensures Tail(before, applied, [])
  {
    assert applied[|applied|..] == [];
  }

  lemma StepKeepsTail<S>(apply: Handler<S>, init: S, s: Sys<S>, before: seq<Event>, w: WorkerId, a: Action)
    requires Tail(before, s.hist.applied, s.hist.contributed) && !a.CommitRebuild?
    ensures var h := Step(apply, init, s, w, a).hist; Tail(before, h.applied, h.contributed)
  {
    TailRestarts(before, s.hist.applied);
    hide Tail;
    if !a.Reset? {
      hide Step;
      var folds := EO.StepAppends(apply, init, s, w, a);
      TailGrows(before, s.hist.applied, s.hist.contributed, folds);
    }
  }

  lemma {:induction false} RunKeepsTail<S>(apply: Handler<S>, init: S, s: Sys<S>, before: seq<Event>, more: Run)
    requires Tail(before, s.hist.applied, s.hist.contributed) && EO.NoRebuild(more)
    ensures var h := ExecFrom(apply, init, s, more).hist; Tail(before, h.applied, h.contributed)
  {
    hide Tail, Step;
    if more != [] {
      var n := |more| - 1;
      RunKeepsTail(apply, init, s, before, more[..n]);
      StepKeepsTail(apply, init, ExecFrom(apply, init, s, more[..n]), before, more[n].0, more[n].1);
    }
  }

  /** A reset is an epoch boundary: no event folded before it contributes again until a rebuild, so
      polling the same contracts again does not bring their state back. */
  lemma ResetForgetsFoldedEvents<S>(apply: Handler<S>, init: S, run: Run, w: WorkerId, more: Run)
    requires Exec(apply, init, run).db.lock == None && EO.NoRebuild(more)
    ensures Ids(Exec(apply, init, run + [(w, Reset)] + more).hist.contributed) !! FoldedIds(Exec(apply, init,
        run).db.log)
  {
    var s := Exec(apply, init, run);
    var s' := Step(apply, init, s, w, Reset);
    var all := run + [(w, Reset)];
    assert all[..|run|] == run;
    assert s'.hist.applied == s.hist.applied && s'.hist.contributed == [];
    hide Step, Tail;
    TailRestarts(s.hist.applied, s.hist.applied);
    RunKeepsTail(apply, init, s', s.hist.applied, more);
    ExecAppend(apply, init, Start(init), all, more);
    var t := Exec(apply, init, all + more);
    EO.FoldedExactlyOnce(apply, init, run);
    EO.FoldedExactlyOnce(apply, init, all + more);
    TailIsNew(s.hist.applied, t.hist.applied, t.hist.contributed);
  }

  lemma TailIsNew(before: seq<Event>, applied: seq<Event>, contributed: seq<Event>)
    requires Distinct(applied) && Tail(before, applied, contributed)
    ensures Ids(contributed) !! Ids(before)
  {
    var k :| |before| <= k <= |applied| && applied[k..] == contributed;
    hide Tail;
    forall e, b | e in contributed && b in before
      ensures e.id != b.id
    {
      var i :| 0 <= i < |contributed| && contributed[i] == e;
      var j :| 0 <= j < |before| && before[j] == b;
      hide Distinct;
      assert applied[k + i] == e && applied[j] == b;
      LaterDiffers(applied, j, k + i);
    }
  }

  lemma LaterDiffers(applied: seq<Event>, j: nat, i: nat)
    requires Distinct(applied) && j < i < |applied|
    ensures applied[j].id != applied[i].id
  {
  }

  // The order of a rebuild

  /** A rebuild folds the applied events in the order in which they were folded if and only if they are the rows
      of the log and that order was ascending in (ledger, id). */
  lemma RebuildKeepsTheOrderIffAscending(log: Log, applied: seq<Event>)
    ensures Sorted(log) == applied <==> Lists(applied, log) && Ascending(applied)
  {
    hide Sorted;
    SortedListsLog(log);
    if Lists(applied, log) && Ascending(applied) {
      AscendingListingIsSorted(applied, log);
    }
  }

  /** One page of one contract, folded by a worker that then dies. */
  function OnePage(w: WorkerId, c: ContractId, ev: Event): Run {
    [(w, LoadCursor(c, 0)), (w, Fetch([ev]))] + PageRun(w, 1) + [(w, Crash)]
  }

  lemma CrashStops<S>(apply: Handler<S>, init: S, s: Sys<S>, w: WorkerId)
    requires s.db.lock == None
    ensures var s' := Step(apply, init, s, w, Crash); At(s', w).Idle? && s'.db == s.db && s'.hist == s.hist
  {
  }

  lemma {:induction false} PageRunKeepsCursors<S>(apply: Handler<S>, init: S, s: Sys<S>, run: Run)
    requires forall i :: 0 <= i < |run| ==> !run[i].1.SaveCursor? && !run[i].1.Reset?
    ensures ExecFrom(apply, init, s, run).db.cursors == s.db.cursors
  {
    if run != [] {
      var n := |run| - 1;
      assert !run[n].1.SaveCursor? && !run[n].1.Reset?;
      PageRunKeepsCursors(apply, init, s, run[..n]);
      hide Step;
      StepFrame(apply, init, ExecFrom(apply, init, s, run[..n]), run[n].0, run[n].1, 0);
    }
  }

  lemma PageRunSavesNothing(w: WorkerId)
    ensures forall i :: 0 <= i < |PageRun(w, 1)| ==> !PageRun(w, 1)[i].1.SaveCursor? && !PageRun(w, 1)[i].1.Reset?
  {
    assert FoldSteps(w, 1) == FoldSteps(w, 0) + [(w, FoldInPage)];
  }

  lemma OnePageFolds<S>(apply: Handler<S>, init: S, s: Sys<S>, w: WorkerId, c: ContractId, ev: Event, b: Books<S>)
    requires At(s, w).Idle? && s.db.lock == None && s.db.cursors == map[] && Matches(s, b)
    requires ev.id !in b.txn.log && apply(b.txn.derived, ev).Ok?
    ensures var s' := ExecFrom(apply, init, s, OnePage(w, c, ev));
            && At(s', w).Idle? && s'.db.lock == None && s'.db.cursors == map[]
            && Matches(s', b.(txn := Txn(b.txn.log[ev.id := Row(ev, true)], apply(b.txn.derived, ev).value,
                                         b.txn.folds + [ev])))
  {
    hide ExecFrom, PageRun, Step, PageModes.IngestPage, Marks;
    var r1: Run := [(w, LoadCursor(c, 0)), (w, Fetch([ev]))];
    var s1 := ExecFrom(apply, init, s, r1);
    FetchedAgain(apply, init, s, w, c, ev);
    ExecAppend(apply, init, s, r1, PageRun(w, 1));
    PageModeIsARun(apply, init, s1, w, Poll(c, 0, 0, [ev]), b);
    IngestOne(apply, b.txn, ev);
    assert MarkFolded(InsertRaw(b.txn.log, ev), ev.id) == b.txn.log[ev.id := Row(ev, true)];
    PageRunSavesNothing(w);
    PageRunKeepsCursors(apply, init, s1, PageRun(w, 1));
    var s2 := ExecFrom(apply, init, s1, PageRun(w, 1));
    ExecSnoc(apply, init, s, r1 + PageRun(w, 1), w, Crash);
    CrashStops(apply, init, s2, w);
  }

  /** With two contracts it need not be: the page of one may be folded after a later page of the other. Then
      the tables hold the fold in one order and a rebuild gives the fold in the other. */
  lemma RebuildReordersContracts<S>(apply: Handler<S>, init: S, w: WorkerId, c: ContractId, d: ContractId,
                                    early: Event, late: Event)
    requires Before(early, late) && early.id != late.id && Fold(apply, init, [late, early]).Ok?
    ensures var s := Exec(apply, init, OnePage(w, c, late) + OnePage(w, d, early));
            && s.hist.applied == [late, early] && FoldedIds(s.db.log) == s.db.log.Keys
            && Ok(s.db.derived) == Fold(apply, init, [late, early])
            && Sorted(s.db.log) == [early, late]
  {
    FoldOfTwo(apply, init, late, early);
    hide Fold, ExecFrom, OnePage;
    var b0 := Books(Txn(map[], init, []), map[]);
    assert Marks(b0.failed) == map[];
    OnePageFolds(apply, init, Start(init), w, c, late, b0);
    var s1 := Exec(apply, init, OnePage(w, c, late));
    var b1 := b0.(txn := Txn(map[late.id := Row(late, true)], apply(init, late).value, [late]));
    OnePageFolds(apply, init, s1, w, d, early, b1);
    ExecAppend(apply, init, Start(init), OnePage(w, c, late), OnePage(w, d, early));
    assert [late] + [early] == [late, early];
    var log := map[late.id := Row(late, true), early.id := Row(early, true)];
    AscendingListingIsSorted([early, late], log);
  }
}
