/**
 * The page loop, the per-event pass and the replay, as the sequential code computes them, are runs of the
 * fold protocol by one worker. What is proved of every run therefore holds of them.
 */
module Refinement {
  import opened Outcomes
  import opened Events
  import opened EventLog
  import opened PageModes
  import opened LogOrder
  import opened FoldProtocol
  import opened Replaying
  import ExactlyOnce
  import Indexer

  function Marks(failed: map<EventId, FailedRow>): map<EventId, bool> {
    map id | id in failed :: failed[id].resolved
  }

  /** The protocol's database holds what the sequential books hold. */
  ghost predicate Matches<S>(s: Sys<S>, b: Books<S>) {
    && s.db.log == b.txn.log && s.db.derived == b.txn.derived && s.hist.applied == b.txn.folds
    && s.db.failed == Marks(b.failed)
  }

  // The whole-page transaction

  function FoldSteps(w: WorkerId, n: nat): Run {
    if n == 0 then [] else FoldSteps(w, n - 1) + [(w, FoldInPage)]
  }

  function PageRun(w: WorkerId, n: nat): Run {
    [(w, LockPage)] + FoldSteps(w, n) + [(w, CommitPage)] + [(w, Release)]
  }

  /** The transaction of the sequential loop, which carries the whole history of folds. */
  function WithHistory<S>(txn: Txn<S>, before: seq<Event>): Txn<S> {
    txn.(folds := before + txn.folds)
  }

  lemma FoldOneWithHistory<S>(apply: Handler<S>, txn: Txn<S>, before: seq<Event>, ev: Event)
    ensures FoldOne(apply, WithHistory(txn, before), ev) ==
            match FoldOne(apply, txn, ev) { case Ok(t) => Ok(WithHistory(t, before)) case Err(m) => Err(m) }
  {
    assert before + txn.folds + [ev] == before + (txn.folds + [ev]);
    hide InsertRaw, MarkFolded;
  }

  /** How far the page transaction has got: `done` events, and stuck there if fewer than it tried. */
  ghost predicate Folding<S>(apply: Handler<S>, s: Sys<S>, w: WorkerId, poll: Poll, t: Txn<S>, tried: nat) {
    && At(s, w).Paging? && At(s, w).poll == poll && At(s, w).done <= tried <= |poll.page|
    && PageModes.IngestPage(apply, t, poll.page[..At(s, w).done], poll.last) == Done(WithHistory(At(s, w).txn, t.folds))
    && (At(s, w).done < tried ==>
        Below(poll.last, poll.page[At(s, w).done]) || FoldOne(apply, At(s, w).txn, poll.page[At(s, w).done]).Err?)
  }

  lemma FoldStepAdvances<S>(apply: Handler<S>, init: S, s: Sys<S>, w: WorkerId, poll: Poll, t: Txn<S>, tried: nat)
    requires Folding(apply, s, w, poll, t, tried) && tried < |poll.page|
    ensures var s' := Step(apply, init, s, w, FoldInPage);
            Folding(apply, s', w, poll, t, tried + 1) && s'.db == s.db && s'.hist == s.hist
  {
    hide FoldOne;
    var k := At(s, w).done;
    assert poll.page[..k + 1][..k] == poll.page[..k];
    FoldOneWithHistory(apply, At(s, w).txn, t.folds, poll.page[k]);
  }

  lemma {:induction false} FoldStepsFold<S>(apply: Handler<S>, init: S, s: Sys<S>, w: WorkerId, poll: Poll, t: Txn<S>,
                                            n: nat)
    requires Folding(apply, s, w, poll, t, 0) && n <= |poll.page|
    ensures var s' := ExecFrom(apply, init, s, FoldSteps(w, n));
            Folding(apply, s', w, poll, t, n) && s'.db == s.db && s'.hist == s.hist
  {
    hide Folding, Step;
    if n == 0 {
      assert FoldSteps(w, n) == [];
    } else {
      assert FoldSteps(w, n) == FoldSteps(w, n - 1) + [(w, FoldInPage)];
      hide *;
      FoldStepsFold(apply, init, s, w, poll, t, n - 1);
      ExecSnoc(apply, init, s, FoldSteps(w, n - 1), w, FoldInPage);
      FoldStepAdvances(apply, init, ExecFrom(apply, init, s, FoldSteps(w, n - 1)), w, poll, t, n - 1);
    }
  }

  /** After every event has been tried, the transaction can be committed exactly when the sequential loop
      would have got through. */
  lemma FullyTried<S>(apply: Handler<S>, s: Sys<S>, w: WorkerId, poll: Poll, t: Txn<S>)
    requires Folding(apply, s, w, poll, t, |poll.page|)
    ensures PageModes.IngestPage(apply, t, poll.page, poll.last).Done? <==> At(s, w).done == |poll.page|
    ensures At(s, w).done == |poll.page| ==>
              PageModes.IngestPage(apply, t, poll.page, poll.last) == Done(WithHistory(At(s, w).txn, t.folds))
  {
    var k := At(s, w).done;
    assert poll.page[..|poll.page|] == poll.page;
    if k < |poll.page| {
      FoldOneWithHistory(apply, At(s, w).txn, t.folds, poll.page[k]);
      Indexer.StopsAt(apply, t, poll.page, k, poll.last);
    }
  }

  lemma PageRunSteps<S>(apply: Handler<S>, init: S, s: Sys<S>, w: WorkerId, n: nat)
    ensures var s2 := ExecFrom(apply, init, Step(apply, init, s, w, LockPage), FoldSteps(w, n));
            ExecFrom(apply, init, s, PageRun(w, n))
              == Step(apply, init, Step(apply, init, s2, w, CommitPage), w, Release)
  {
    hide Step;
    ExecCons(apply, init, s, w, LockPage, FoldSteps(w, n));
    ExecSnoc(apply, init, s, [(w, LockPage)] + FoldSteps(w, n), w, CommitPage);
    ExecSnoc(apply, init, s, [(w, LockPage)] + FoldSteps(w, n) + [(w, CommitPage)], w, Release);
  }

  /** Taking the lock on a page, folding its events in turn and committing is exactly the sequential page
      loop: the database ends as the loop leaves it, or as it was when the loop does not get through. */
  lemma PageModeIsARun<S>(apply: Handler<S>, init: S, s: Sys<S>, w: WorkerId, poll: Poll, b: Books<S>)
    requires At(s, w) == Fetched(poll) && poll.page != [] && s.db.lock == None && Matches(s, b)
    ensures var s' := ExecFrom(apply, init, s, PageRun(w, |poll.page|));
            match PageModes.IngestPage(apply, b.txn, poll.page, poll.last)
            case Done(t) => At(s', w) == Handled(poll) && s'.db.lock == None && Matches(s', b.(txn := t))
            case _ => At(s', w).Paging? && Matches(s', b)
  {
    var n := |poll.page|;
    PageRunSteps(apply, init, s, w, n);
    var s1 := Step(apply, init, s, w, LockPage);
    LockOpens(apply, init, s, w, poll, b.txn);
    FoldStepsFold(apply, init, s1, w, poll, b.txn, n);
    var s2 := ExecFrom(apply, init, s1, FoldSteps(w, n));
    FullyTried(apply, s2, w, poll, b.txn);
    hide ExecFrom, PageModes.IngestPage, FoldOne;
    CommitAndRelease(apply, init, s2, w);
  }

  lemma LockOpens<S>(apply: Handler<S>, init: S, s: Sys<S>, w: WorkerId, poll: Poll, t: Txn<S>)
    requires At(s, w) == Fetched(poll) && poll.page != [] && s.db.lock == None
    requires s.db.log == t.log && s.db.derived == t.derived
    ensures var s1 := Step(apply, init, s, w, LockPage);
            Folding(apply, s1, w, poll, t, 0) && s1.hist == s.hist && s1.db == s.db.(lock := Some(w))
  {
    hide FoldOne;
    assert poll.page[..0] == [] && t.folds + [] == t.folds;
  }

  lemma CommitAndRelease<S>(apply: Handler<S>, init: S, s: Sys<S>, w: WorkerId)
    requires At(s, w).Paging?
    ensures var s' := Step(apply, init, Step(apply, init, s, w, CommitPage), w, Release);
            if At(s, w).done != |At(s, w).poll.page| then s' == s
            else
              && At(s', w) == Handled(At(s, w).poll) && s'.db.failed == s.db.failed && s'.db.lock == None
              && s'.db.log == At(s, w).txn.log && s'.db.derived == At(s, w).txn.derived
              && s'.hist.applied == s.hist.applied + At(s, w).txn.folds
  {
    hide FoldOne;
  }

  // One event per transaction

  /** An error other than the handler's comes in place of the fold. */
  function FoldAction(luck: Luck): Action {
    if luck.sqlError.None? then FoldEvent else ThrowEvent
  }

  /** What happens around one event of the pass of `w`. If the lock is not free, that is because another worker
      `v` has taken it; then, or if an SQL error comes before the fold, the poll ends. Steps that do not apply
      change nothing, so one list of them covers every other outcome. */
  function EventRun(w: WorkerId, v: WorkerId, luck: Luck): Run {
    if !luck.lockFree then [(v, LockReplay("")), (w, LockEvent), (w, Crash)]
    else if luck.rawError.Some? then [(w, LockEvent), (w, Crash)]
    else FoldRun(w, luck)
  }

  function FoldRun(w: WorkerId, luck: Luck): Run {
    [(w, LockEvent)] + [(w, InsertEvent)] + [(w, FoldAction(luck))] + [(w, ThrowEvent)]
    + [(w, RecordFailure(luck.recorded))] + [(w, Release)]
  }

  lemma FoldRunSteps<S>(apply: Handler<S>, init: S, s: Sys<S>, w: WorkerId, luck: Luck)
    ensures var s2 := Step(apply, init, Step(apply, init, s, w, LockEvent), w, InsertEvent);
            var s4 := Step(apply, init, Step(apply, init, s2, w, FoldAction(luck)), w, ThrowEvent);
            ExecFrom(apply, init, s, FoldRun(w, luck))
            == Step(apply, init, Step(apply, init, s4, w, RecordFailure(luck.recorded)), w, Release)
  {
    hide Step;
    var r1: Run := [(w, LockEvent)];
    var r2 := r1 + [(w, InsertEvent)];
    var r3 := r2 + [(w, FoldAction(luck))];
    var r4 := r3 + [(w, ThrowEvent)];
    var r5 := r4 + [(w, RecordFailure(luck.recorded))];
    assert [] + r1 == r1;
    ExecSnoc(apply, init, s, [], w, LockEvent);
    ExecSnoc(apply, init, s, r1, w, InsertEvent);
    ExecSnoc(apply, init, s, r2, w, FoldAction(luck));
    ExecSnoc(apply, init, s, r3, w, ThrowEvent);
    ExecSnoc(apply, init, s, r4, w, RecordFailure(luck.recorded));
    ExecSnoc(apply, init, s, r5, w, Release);
  }

  /** Where a worker stands once `i` events of its page are dealt with. */
  ghost predicate Dealt<S>(s: Sys<S>, w: WorkerId, poll: Poll, i: nat) {
    s.db.lock == None && At(s, w) == if i >= |poll.page| then Handled(poll) else NextEvent(poll, i)
  }

  lemma LockAndInsert<S>(apply: Handler<S>, init: S, s: Sys<S>, w: WorkerId, poll: Poll, i: nat)
    requires At(s, w) == NextEvent(poll, i) && i < |poll.page| && s.db.lock == None && !Below(poll.last, poll.page[i])
    ensures var s2 := Step(apply, init, Step(apply, init, s, w, LockEvent), w, InsertEvent);
            && At(s2, w) == (if NeedsFold(s.db.log, poll.page[i]) then Inserted(poll, i) else EventDone(poll, i))
            && s2.db == s.db.(lock := Some(w), log := InsertRaw(s.db.log, poll.page[i])) && s2.hist == s.hist
  {
    hide FoldOne, InsertRaw, NeedsFold;
  }

  lemma FoldOrThrow<S>(apply: Handler<S>, init: S, s: Sys<S>, w: WorkerId, poll: Poll, i: nat, luck: Luck)
    requires At(s, w) == Inserted(poll, i) && i < |poll.page|
    ensures var ev := poll.page[i];
            var s4 := Step(apply, init, Step(apply, init, s, w, FoldAction(luck)), w, ThrowEvent);
            var s' := Step(apply, init, s4, w, RecordFailure(luck.recorded));
            && At(s', w) == EventDone(poll, i)
            && match Tried(apply, s.db.derived, ev, luck)
               case Ok(d) =>
                 && s'.db == s.db.(log := MarkFolded(s.db.log, ev.id), derived := d)
                 && s'.hist.applied == s.hist.applied + [ev]
               case Err(_) =>
                 && s'.db == (if luck.recorded then s.db.(failed := s.db.failed[ev.id := false]) else s.db)
                 && s'.hist.applied == s.hist.applied
  {
    hide FoldOne, MarkFolded;
    var s3 := Step(apply, init, s, w, FoldAction(luck));
    var s4 := Step(apply, init, s3, w, ThrowEvent);
    if Tried(apply, s.db.derived, poll.page[i], luck).Ok? {
      assert s4 == s3 && At(s3, w) == EventDone(poll, i);
      assert Step(apply, init, s4, w, RecordFailure(luck.recorded)) == s4;
    } else {
      assert At(s4, w) == Proc.Threw(poll, i) && s4.db == s.db && s4.hist.applied == s.hist.applied;
    }
  }

  lemma AlreadyDone<S>(apply: Handler<S>, init: S, s: Sys<S>, w: WorkerId, luck: Luck)
    requires At(s, w).EventDone? || At(s, w).NextEvent? || At(s, w).Idle?
    ensures var s4 := Step(apply, init, Step(apply, init, s, w, FoldAction(luck)), w, ThrowEvent);
            Step(apply, init, s4, w, RecordFailure(luck.recorded)) == s
  {
    hide FoldOne;
  }

  lemma MarksUpdate(failed: map<EventId, FailedRow>, id: EventId, row: FailedRow)
    ensures Marks(failed[id := row]) == Marks(failed)[id := row.resolved]
  {
  }

  lemma MarksAt(failed: map<EventId, FailedRow>, id: EventId)
    ensures id in Marks(failed) <==> id in failed
    ensures id in failed ==> Marks(failed)[id] == failed[id].resolved
  {
  }

  lemma ErrorIsNoMark(failed: map<EventId, FailedRow>, id: EventId)
    requires id in failed
    ensures forall m :: Marks(failed[id := failed[id].(error := m)]) == Marks(failed)
  {
  }

  lemma Released<S>(apply: Handler<S>, init: S, s: Sys<S>, w: WorkerId, poll: Poll, i: nat)
    requires At(s, w) == EventDone(poll, i)
    ensures var s' := Step(apply, init, s, w, Release);
            Dealt(s', w, poll, i + 1) && s'.hist == s.hist && s'.db == s.db.(lock := None)
  {
    hide FoldOne;
  }

  lemma FoldIsARun<S>(apply: Handler<S>, init: S, s: Sys<S>, w: WorkerId, poll: Poll, i: nat, b: Books<S>, luck: Luck)
    requires At(s, w) == NextEvent(poll, i) && i < |poll.page| && s.db.lock == None && Matches(s, b)
    requires !Stops(poll.last, poll.page[i], luck)
    ensures var s' := ExecFrom(apply, init, s, FoldRun(w, luck));
            var r := IngestEvent(apply, b, poll.page[i], poll.last, luck);
            r.Done? && Dealt(s', w, poll, i + 1) && Matches(s', r.value)
  {
    FoldRunSteps(apply, init, s, w, luck);
    hide ExecFrom, FoldRun;
    var ev := poll.page[i];
    LockAndInsert(apply, init, s, w, poll, i);
    var s2 := Step(apply, init, Step(apply, init, s, w, LockEvent), w, InsertEvent);
    if NeedsFold(s.db.log, ev) {
      FoldOrThrow(apply, init, s2, w, poll, i, luck);
    } else {
      AlreadyDone(apply, init, s2, w, luck);
    }
    hide Step, InsertRaw, MarkFolded, NeedsFold, Tried, Marks;
    var s4 := Step(apply, init, Step(apply, init, s2, w, FoldAction(luck)), w, ThrowEvent);
    Released(apply, init, Step(apply, init, s4, w, RecordFailure(luck.recorded)), w, poll, i);
    match Tried(apply, s.db.derived, ev, luck) {
      case Ok(_) =>
      case Err(m) => MarksUpdate(b.failed, ev.id, FailedRow(m, false));
    }
  }

  /** The worker is done with its page without having dealt with all of it: its poll has ended, or it stands at
      an event from below the ledger folded to. */
  ghost predicate Out<S>(s: Sys<S>, w: WorkerId, poll: Poll) {
    && s.db.lock != Some(w)
    && (|| At(s, w).Idle?
        || (&& At(s, w).NextEvent? && At(s, w).poll == poll && At(s, w).i < |poll.page|
            && Below(poll.last, poll.page[At(s, w).i])))
  }

  /** Apart from who has the lock, the database is as it was. */
  ghost predicate OnlyTheLock<S>(s: Sys<S>, s': Sys<S>) {
    s'.db == s.db.(lock := s'.db.lock) && s'.hist == s.hist
  }

  lemma FoldRunStaysOut<S>(apply: Handler<S>, init: S, s: Sys<S>, w: WorkerId, luck: Luck, poll: Poll)
    requires Out(s, w, poll)
    ensures ExecFrom(apply, init, s, FoldRun(w, luck)) == s
  {
    FoldRunSteps(apply, init, s, w, luck);
    hide ExecFrom, FoldRun, FoldOne;
    assert Step(apply, init, Step(apply, init, s, w, LockEvent), w, InsertEvent) == s;
    AlreadyDone(apply, init, s, w, luck);
  }

  lemma HeldLockEndsThePoll<S>(apply: Handler<S>, init: S, s: Sys<S>, w: WorkerId, v: WorkerId, poll: Poll)
    requires v != w && s.db.lock != Some(w) && (s.db.lock.Some? || At(s, v).Idle?)
    requires At(s, w).Idle? || At(s, w).NextEvent?
    ensures var s' := ExecFrom(apply, init, s, [(v, LockReplay("")), (w, LockEvent), (w, Crash)]);
            OnlyTheLock(s, s') && s'.db.lock.Some? && Out(s', w, poll)
  {
    hide FoldOne, ExecFrom;
    ExecThree(apply, init, s, v, LockReplay(""), w, LockEvent, Crash);
    var s1 := Step(apply, init, s, v, LockReplay(""));
    assert OnlyTheLock(s, s1) && s1.db.lock.Some? && s1.db.lock != Some(w) && At(s1, w) == At(s, w);
    assert Step(apply, init, s1, w, LockEvent) == s1;
  }

  lemma ErrorEndsThePoll<S>(apply: Handler<S>, init: S, s: Sys<S>, w: WorkerId, poll: Poll)
    requires At(s, w).Idle? || At(s, w).NextEvent?
    requires s.db.lock != Some(w) && (s.db.lock == None || Out(s, w, poll))
    ensures var s' := ExecFrom(apply, init, s, [(w, LockEvent), (w, Crash)]);
            s'.db == s.db && s'.hist == s.hist && Out(s', w, poll)
  {
    hide FoldOne, ExecFrom;
    ExecTwo(apply, init, s, w, LockEvent, w, Crash);
    var s1 := Step(apply, init, s, w, LockEvent);
    assert s1.hist == s.hist && (s1 == s || s1.db == s.db.(lock := Some(w)));
  }

  /** Another worker can take the lock, or some worker already has. */
  ghost predicate Contended<S>(s: Sys<S>, v: WorkerId) {
    s.db.lock.Some? || At(s, v).Idle?
  }

  /** Locking, inserting, folding or failing, recording and releasing is exactly what per-event mode does
      with one event. When it diverges, finds the lock held or fails before the fold, nothing has changed. */
  lemma EventIsARun<S>(apply: Handler<S>, init: S, s: Sys<S>, w: WorkerId, v: WorkerId, poll: Poll, i: nat,
                       b: Books<S>, luck: Luck)
    requires At(s, w) == NextEvent(poll, i) && i < |poll.page| && v != w && Matches(s, b)
    requires s.db.lock != Some(w) && (if luck.lockFree then s.db.lock == None else Contended(s, v))
    ensures var s' := ExecFrom(apply, init, s, EventRun(w, v, luck));
            match IngestEvent(apply, b, poll.page[i], poll.last, luck)
            case Done(b') => Dealt(s', w, poll, i + 1) && Matches(s', b')
            case _ => Out(s', w, poll) && Matches(s', b) && (!luck.lockFree ==> s'.db.lock.Some?)
  {
    hide Step, ExecFrom, FoldRun;
    if !luck.lockFree {
      HeldLockEndsThePoll(apply, init, s, w, v, poll);
    } else if luck.rawError.Some? {
      ErrorEndsThePoll(apply, init, s, w, poll);
    } else if Below(poll.last, poll.page[i]) {
      FoldRunStaysOut(apply, init, s, w, luck, poll);
    } else {
      FoldIsARun(apply, init, s, w, poll, i, b, luck);
    }
  }

  lemma OutStaysOut<S>(apply: Handler<S>, init: S, s: Sys<S>, w: WorkerId, v: WorkerId, luck: Luck, poll: Poll)
    requires Out(s, w, poll) && v != w && Contended(s, v)
    ensures var s' := ExecFrom(apply, init, s, EventRun(w, v, luck));
            OnlyTheLock(s, s') && Out(s', w, poll)
              && (if luck.lockFree then s'.db.lock == s.db.lock else s'.db.lock.Some?)
  {
    hide Step, ExecFrom, FoldRun;
    if !luck.lockFree {
      HeldLockEndsThePoll(apply, init, s, w, v, poll);
    } else if luck.rawError.Some? {
      ErrorEndsThePoll(apply, init, s, w, poll);
    } else {
      FoldRunStaysOut(apply, init, s, w, luck, poll);
    }
  }

  /** A step of one worker does not move another. */
  lemma {:induction false} OthersDoNotMove<S>(apply: Handler<S>, init: S, s: Sys<S>, run: Run, v: WorkerId)
    requires forall i :: 0 <= i < |run| ==> run[i].0 != v
    ensures At(ExecFrom(apply, init, s, run), v) == At(s, v)
  {
    if run != [] {
      hide Step, At;
      var n := |run| - 1;
      assert run[n].0 != v;
      OthersDoNotMove(apply, init, s, run[..n], v);
      StepFrame(apply, init, ExecFrom(apply, init, s, run[..n]), run[n].0, run[n].1, v);
    }
  }

  function EventsRun(w: WorkerId, v: WorkerId, n: nat, lucks: seq<Luck>): Run {
    if n == 0 then [] else EventsRun(w, v, n - 1, lucks) + EventRun(w, v, LuckAt(lucks, n - 1))
  }

  ghost predicate Passed<S>(apply: Handler<S>, s: Sys<S>, w: WorkerId, v: WorkerId, poll: Poll, b: Books<S>,
                            lucks: seq<Luck>, n: nat) {
    && n <= |poll.page|
    && var p := IngestEvents(apply, b, poll.page[..n], poll.last, lucks);
       && Matches(s, p.books) && Contended(s, v)
       && (if p.verdict.Done? then Dealt(s, w, poll, n) else Out(s, w, poll))
  }

  lemma PassGoesOn<S>(apply: Handler<S>, init: S, s: Sys<S>, w: WorkerId, v: WorkerId, poll: Poll, b: Books<S>,
                      lucks: seq<Luck>, n: nat)
    requires Passed(apply, s, w, v, poll, b, lucks, n) && n < |poll.page| && v != w
    ensures Passed(apply, ExecFrom(apply, init, s, EventRun(w, v, LuckAt(lucks, n))), w, v, poll, b, lucks, n + 1)
  {
    hide ExecFrom, Below;
    var luck := LuckAt(lucks, n);
    assert poll.page[..n + 1][..n] == poll.page[..n];
    var p := IngestEvents(apply, b, poll.page[..n], poll.last, lucks);
    assert IngestEvent(apply, p.books, poll.page[n], poll.last, luck).Done? ==> luck.lockFree;
    hide IngestEvent;
    if luck.lockFree {
      OthersDoNotMove(apply, init, s, EventRun(w, v, luck), v);
    }
    hide EventRun;
    if p.verdict.Done? {
      EventIsARun(apply, init, s, w, v, poll, n, p.books, luck);
    } else {
      OutStaysOut(apply, init, s, w, v, luck, poll);
    }
  }

  lemma PassStarts<S>(apply: Handler<S>, s: Sys<S>, w: WorkerId, v: WorkerId, poll: Poll, b: Books<S>, lucks: seq<Luck>)
    requires At(s, w) == NextEvent(poll, 0) && poll.page != [] && s.db.lock == None && Matches(s, b) && At(s, v).Idle?
    ensures Passed(apply, s, w, v, poll, b, lucks, 0)
  {
    hide IngestEvent;
    assert poll.page[..0] == [];
  }

  lemma {:induction false} EventsRunPasses<S>(apply: Handler<S>, init: S, s: Sys<S>, w: WorkerId, v: WorkerId,
                                              poll: Poll,
                                              b: Books<S>, lucks: seq<Luck>, n: nat)
    requires At(s, w) == NextEvent(poll, 0) && poll.page != [] && s.db.lock == None && Matches(s, b)
    requires v != w && At(s, v).Idle? && n <= |poll.page|
    ensures Passed(apply, ExecFrom(apply, init, s, EventsRun(w, v, n, lucks)), w, v, poll, b, lucks, n)
  {
    hide EventRun, Step, Passed, Matches;
    if n == 0 {
      PassStarts(apply, s, w, v, poll, b, lucks);
    } else {
      assert EventsRun(w, v, n, lucks) == EventsRun(w, v, n - 1, lucks) + EventRun(w, v, LuckAt(lucks, n - 1));
      hide ExecFrom, EventsRun;
      EventsRunPasses(apply, init, s, w, v, poll, b, lucks, n - 1);
      ExecAppend(apply, init, s, EventsRun(w, v, n - 1, lucks), EventRun(w, v, LuckAt(lucks, n - 1)));
      PassGoesOn(apply, init, ExecFrom(apply, init, s, EventsRun(w, v, n - 1, lucks)), w, v, poll, b, lucks, n - 1);
    }
  }

  /** The per-event pass over a whole page is a run of the protocol: the database ends exactly as the sequential
      pass leaves it, whichever events throw, go unrecorded, diverge, fail before their fold or find that
      another worker has the lock. */
  lemma EventModeIsARun<S>(apply: Handler<S>, init: S, s: Sys<S>, w: WorkerId, v: WorkerId, poll: Poll, b: Books<S>,
                           lucks: seq<Luck>)
    requires At(s, w) == NextEvent(poll, 0) && poll.page != [] && s.db.lock == None && Matches(s, b)
    requires v != w && At(s, v).Idle?
    ensures var s' := ExecFrom(apply, init, s, EventsRun(w, v, |poll.page|, lucks));
            var p := IngestEvents(apply, b, poll.page, poll.last, lucks);
            && Matches(s', p.books)
            && (At(s', w) == Handled(poll) <==> p.verdict.Done?)
  {
    hide Step;
    EventsRunPasses(apply, init, s, w, v, poll, b, lucks, |poll.page|);
    assert poll.page[..|poll.page|] == poll.page;
  }

  // Replay

  /** If an SQL error comes before the fold, the replay ends there. */
  function ReplayRun(w: WorkerId, id: EventId, luck: Luck): Run {
    if luck.rawError.Some? then [(w, LockReplay(id)), (w, Crash)] else RefoldRun(w, id, luck)
  }

  function RefoldRun(w: WorkerId, id: EventId, luck: Luck): Run {
    [(w, LockReplay(id))] + [(w, ReadReplay)] + [(w, if luck.sqlError.None? then FoldReplay else ThrowReplay)]
    + [(w, ThrowReplay)] + [(w, Release)]
  }

  lemma RefoldRunSteps<S>(apply: Handler<S>, init: S, s: Sys<S>, w: WorkerId, id: EventId, luck: Luck)
    ensures var s2 := Step(apply, init, Step(apply, init, s, w, LockReplay(id)), w, ReadReplay);
            var s3 := Step(apply, init, s2, w, if luck.sqlError.None? then FoldReplay else ThrowReplay);
            ExecFrom(apply, init, s, RefoldRun(w, id, luck))
            == Step(apply, init, Step(apply, init, s3, w, ThrowReplay), w, Release)
  {
    hide Step;
    var r1: Run := [(w, LockReplay(id))];
    var r2 := r1 + [(w, ReadReplay)];
    var r3 := r2 + [(w, if luck.sqlError.None? then FoldReplay else ThrowReplay)];
    var r4 := r3 + [(w, ThrowReplay)];
    assert [] + r1 == r1;
    ExecSnoc(apply, init, s, [], w, LockReplay(id));
    ExecSnoc(apply, init, s, r1, w, ReadReplay);
    ExecSnoc(apply, init, s, r2, w, if luck.sqlError.None? then FoldReplay else ThrowReplay);
    ExecSnoc(apply, init, s, r3, w, ThrowReplay);
    ExecSnoc(apply, init, s, r4, w, Release);
  }

  lemma ReplayReads<S>(apply: Handler<S>, init: S, s: Sys<S>, w: WorkerId, id: EventId)
    requires At(s, w).Idle? && s.db.lock == None
    ensures var s2 := Step(apply, init, Step(apply, init, s, w, LockReplay(id)), w, ReadReplay);
            var open := id in s.db.failed && !s.db.failed[id] && id in s.db.log;
            && s2.hist == s.hist
            && At(s2, w) == (if open && !s.db.log[id].folded then Found(s.db.log[id].ev) else Finished)
            && s2.db == s.db.(lock := Some(w), failed := if open && s.db.log[id].folded then s.db.failed[id := true]
                              else s.db.failed)
  {
    hide FoldOne;
  }

  lemma ReplayFinishes<S>(apply: Handler<S>, init: S, s: Sys<S>, w: WorkerId, luck: Luck)
    requires At(s, w).Finished? || At(s, w).Found?
    ensures var s3 := Step(apply, init, s, w, if luck.sqlError.None? then FoldReplay else ThrowReplay);
            var s' := Step(apply, init, Step(apply, init, s3, w, ThrowReplay), w, Release);
            && At(s', w).Idle?
            && (At(s, w).Finished? ==> s'.db == s.db.(lock := None) && s'.hist == s.hist)
            && (At(s, w).Found? ==>
                var ev := At(s, w).ev;
                match Tried(apply, s.db.derived, ev, luck)
                case Ok(d) =>
                  && s'.db == s.db.(lock := None, log := MarkFolded(s.db.log, ev.id), derived := d,
                                    failed := if ev.id in s.db.failed then s.db.failed[ev.id := true] else s.db.failed)
                  && s'.hist.applied == s.hist.applied + [ev]
                case Err(_) => s'.db == s.db.(lock := None) && s'.hist.applied == s.hist.applied)
  {
    hide FoldOne, MarkFolded;
    var s3 := Step(apply, init, s, w, if luck.sqlError.None? then FoldReplay else ThrowReplay);
    var s4 := Step(apply, init, s3, w, ThrowReplay);
    assert At(s4, w).Finished?;
    if At(s, w).Finished? {
      assert s4 == s;
    } else if Tried(apply, s.db.derived, At(s, w).ev, luck).Ok? {
      assert s4 == s3;
    } else {
      assert s4.db == s.db && s4.hist.applied == s.hist.applied;
    }
  }

  lemma RefoldIsARun<S>(apply: Handler<S>, init: S, s: Sys<S>, w: WorkerId, b: Books<S>, id: EventId, luck: Luck)
    requires At(s, w).Idle? && s.db.lock == None && luck.lockFree && luck.rawError.None? && Matches(s, b)
    ensures var s' := ExecFrom(apply, init, s, RefoldRun(w, id, luck));
            Matches(s', Replay(apply, b, id, luck).0) && At(s', w).Idle?
  {
    hide Step, ExecFrom, RefoldRun, MarkFolded, Tried, Marks;
    RefoldRunSteps(apply, init, s, w, id, luck);
    ReplayReads(apply, init, s, w, id);
    ReplayFinishes(apply, init, Step(apply, init, Step(apply, init, s, w, LockReplay(id)), w, ReadReplay), w, luck);
    MarksAt(b.failed, id);
    if id in b.failed {
      MarksUpdate(b.failed, id, b.failed[id].(resolved := true));
      ErrorIsNoMark(b.failed, id);
    }
  }

  lemma HeldLockStopsReplay<S>(apply: Handler<S>, init: S, s: Sys<S>, w: WorkerId, id: EventId, luck: Luck)
    requires At(s, w).Idle? && s.db.lock.Some?
    ensures ExecFrom(apply, init, s, RefoldRun(w, id, luck)) == s
  {
    RefoldRunSteps(apply, init, s, w, id, luck);
    hide ExecFrom, RefoldRun, FoldOne, Fold;
    assert Step(apply, init, Step(apply, init, s, w, LockReplay(id)), w, ReadReplay) == s;
  }

  lemma ErrorEndsTheReplay<S>(apply: Handler<S>, init: S, s: Sys<S>, w: WorkerId, id: EventId)
    requires At(s, w).Idle? && s.db.lock != Some(w)
    ensures var s' := ExecFrom(apply, init, s, [(w, LockReplay(id)), (w, Crash)]);
            s'.db == s.db && s'.hist == s.hist && At(s', w).Idle?
  {
    hide ExecFrom, FoldOne;
    ExecTwo(apply, init, s, w, LockReplay(id), w, Crash);
  }

  /** A replay is a run of the protocol too, for each of its outcomes. */
  lemma ReplayIsARun<S>(apply: Handler<S>, init: S, s: Sys<S>, w: WorkerId, b: Books<S>, id: EventId, luck: Luck)
    requires At(s, w).Idle? && s.db.lock != Some(w) && (luck.lockFree <==> s.db.lock == None) && Matches(s, b)
    ensures var s' := ExecFrom(apply, init, s, ReplayRun(w, id, luck));
            Matches(s', Replay(apply, b, id, luck).0) && At(s', w).Idle?
  {
    hide Step, ExecFrom, RefoldRun;
    if luck.rawError.Some? {
      ErrorEndsTheReplay(apply, init, s, w, id);
    } else if !luck.lockFree {
      HeldLockStopsReplay(apply, init, s, w, id, luck);
    } else {
      RefoldIsARun(apply, init, s, w, b, id, luck);
    }
  }

  // Rebuild

  /** The rebuild of any tables: the fold of all rows in reading order, with every failure resolved. */
  function Rebuild<S>(apply: Handler<S>, init: S, b: Books<S>): Outcome<Books<S>> {
    var d :- Fold(apply, init, Sorted(b.txn.log));
    Ok(Books(b.txn.(derived := d), map id | id in b.failed :: b.failed[id].(resolved := true)))
  }

  lemma CommitRebuildStep<S>(apply: Handler<S>, init: S, s: Sys<S>, w: WorkerId, d: S)
    requires At(s, w) == Rebuilding(s.db.log) && Fold(apply, init, Sorted(s.db.log)) == Ok(d)
    ensures var s' := Step(apply, init, s, w, CommitRebuild);
            && At(s', w).Finished? && s'.db == s.db.(derived := d, failed := AllResolved(s.db.failed))
            && s'.hist.applied == s.hist.applied && s'.hist.stale == s.db.log.Keys - FoldedIds(s.db.log)
  {
    hide Sorted, Fold, FoldedIds, AllResolved;
  }

  lemma LockRebuildStep<S>(apply: Handler<S>, init: S, s: Sys<S>, w: WorkerId)
    requires At(s, w).Idle? && s.db.lock == None
    ensures var s' := Step(apply, init, s, w, LockRebuild);
            At(s', w) == Rebuilding(s.db.log) && s'.db == s.db.(lock := Some(w)) && s'.hist == s.hist
  {
  }

  lemma FinishStep<S>(apply: Handler<S>, init: S, s: Sys<S>, w: WorkerId)
    requires At(s, w).Finished?
    ensures var s' := Step(apply, init, s, w, Release);
            At(s', w).Idle? && s'.db == s.db.(lock := None) && s'.hist == s.hist
  {
  }

  lemma RebuildSteps<S>(apply: Handler<S>, init: S, s: Sys<S>, w: WorkerId, d: S)
    requires At(s, w).Idle? && s.db.lock == None && Fold(apply, init, Sorted(s.db.log)) == Ok(d)
    ensures var s' := ExecFrom(apply, init, s, [(w, LockRebuild), (w, CommitRebuild), (w, Release)]);
            && At(s', w).Idle? && s'.db == s.db.(derived := d, failed := AllResolved(s.db.failed))
            && s'.hist.applied == s.hist.applied && s'.hist.stale == s.db.log.Keys - FoldedIds(s.db.log)
  {
    hide *;
    ExecThree(apply, init, s, w, LockRebuild, w, CommitRebuild, Release);
    LockRebuildStep(apply, init, s, w);
    var s1 := Step(apply, init, s, w, LockRebuild);
    CommitRebuildStep(apply, init, s1, w, d);
    FinishStep(apply, init, Step(apply, init, s1, w, CommitRebuild), w);
  }

  lemma RefusedRebuildSteps<S>(apply: Handler<S>, init: S, s: Sys<S>, w: WorkerId)
    requires At(s, w).Idle? && (s.db.lock.Some? || Fold(apply, init, Sorted(s.db.log)).Err?)
    ensures var s' := ExecFrom(apply, init, s, [(w, LockRebuild), (w, CommitRebuild), (w, Release)]);
            At(s', w).Idle? && s'.db == s.db && s'.hist == s.hist
  {
    hide ExecFrom, FoldOne, Fold, Sorted;
    ExecThree(apply, init, s, w, LockRebuild, w, CommitRebuild, Release);
    if s.db.lock == None {
      LockRebuildStep(apply, init, s, w);
    } else {
      assert Step(apply, init, s, w, LockRebuild) == s;
    }
  }

  /** Taking the lock, committing the rebuild and releasing is exactly the rebuild of the books; when a handler
      throws, or another worker has the lock, nothing has changed. */
  lemma RebuildIsARun<S>(apply: Handler<S>, init: S, s: Sys<S>, w: WorkerId, b: Books<S>)
    requires At(s, w).Idle? && Matches(s, b)
    ensures var s' := ExecFrom(apply, init, s, [(w, LockRebuild), (w, CommitRebuild), (w, Release)]);
            && At(s', w).Idle?
            && match Rebuild(apply, init, b)
               case Ok(b') => Matches(s', if s.db.lock == None then b' else b)
               case Err(_) => Matches(s', b)
  {
    hide ExecFrom, Fold, Sorted;
    var r := Fold(apply, init, Sorted(s.db.log));
    if s.db.lock.Some? || r.Err? {
      RefusedRebuildSteps(apply, init, s, w);
    } else {
      RebuildSteps(apply, init, s, w, r.value);
      assert AllResolved(Marks(b.failed)) == Marks(map id | id in b.failed :: b.failed[id].(resolved := true));
    }
  }

  /** So from any reachable state the sequential code folds nothing twice, whatever else ran before: for
      the per-event pass, the books it leaves list every folded row once. */
  lemma SequentialPassFoldsOnce<S>(apply: Handler<S>, init: S, run: Run, w: WorkerId, v: WorkerId, poll: Poll,
                                   b: Books<S>,
                                   lucks: seq<Luck>)
    requires var s := Exec(apply, init, run);
             && At(s, w) == NextEvent(poll, 0) && poll.page != [] && s.db.lock == None && Matches(s, b)
             && v != w && At(s, v).Idle?
    ensures var t := IngestEvents(apply, b, poll.page, poll.last, lucks).books.txn;
            Distinct(t.folds) && Ids(t.folds) == FoldedIds(t.log)
  {
    hide Step;
    EventModeIsARun(apply, init, Exec(apply, init, run), w, v, poll, b, lucks);
    ExecAppend(apply, init, Start(init), run, EventsRun(w, v, |poll.page|, lucks));
    ExactlyOnce.FoldedExactlyOnce(apply, init, run + EventsRun(w, v, |poll.page|, lucks));
  }
}
