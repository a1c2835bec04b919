/**
 * No event is lost: whatever crashes, races and overwrites happen, every feed event up to a saved
 * cursor is in the log and is folded, or threw and is accounted for.
 */
module NoLoss {
  import opened Outcomes
  import opened Events
  import opened EventLog
  import opened LogOrder
  import opened FoldProtocol
  import EO = ExactlyOnce

  /** What the RPC serves per contract, and the position a cold start resolves to. */
  datatype Source = Source(feed: ContractId -> seq<Event>, start: ContractId -> nat)

  predicate Slice(src: Source, poll: Poll) {
    && poll.pos + |poll.page| <= |src.feed(poll.contract)|
    && poll.page == src.feed(poll.contract)[poll.pos..poll.pos + |poll.page|]
  }

  /** The environment answers a fetch with some slice of the feed from the token on. */
  predicate Served<S>(src: Source, s: Sys<S>, w: WorkerId, a: Action) {
    match a
    case LoadCursor(c, start) => start == src.start(c) && start <= |src.feed(c)|
    case Fetch(page) => (
      match At(s, w)
      case Ready(c, pos, last) => Slice(src, Poll(c, pos, last, page))
      case _ => true)
    case _ => true
  }

  predicate ServedRun<S>(apply: Handler<S>, init: S, src: Source, run: Run) {
    run == [] ||
    (var n := |run| - 1;
     ServedRun(apply, init, src, run[..n]) && Served(src, Exec(apply, init, run[..n]), run[n].0, run[n].1))
  }

  /** Logged, and folded or else its latest attempt threw and left an unresolved failed_events row,
      unless that insert failed or an operator or a rebuild resolved it. */
  predicate Accounted<S>(s: Sys<S>, id: EventId) {
    && id in s.db.log
    && (|| s.db.log[id].folded
        || (id in s.hist.threw && (Unresolved(s, id) || id in s.hist.unrecorded || id in s.hist.cleared)))
  }

  predicate Unresolved<S>(s: Sys<S>, id: EventId) {
    id in s.db.failed && !s.db.failed[id]
  }

  ghost predicate Covered<S>(src: Source, s: Sys<S>, c: ContractId, n: nat) {
    && n <= |src.feed(c)|
    && forall j :: src.start(c) <= j < n ==> Accounted(s, src.feed(c)[j].id)
  }

  /** Rows and marks are only ever added. */
  predicate Grows(log: Log, log': Log) {
    forall id :: id in log ==> id in log' && (log[id].folded ==> log'[id].folded)
  }

  ghost predicate ProcCovered<S>(src: Source, s: Sys<S>, w: WorkerId) {
    match At(s, w)
    case Idle => true
    case Ready(c, pos, _) => Covered(src, s, c, pos)
    case Fetched(poll) => Slice(src, poll) && Covered(src, s, poll.contract, poll.pos)
    case Paging(poll, txn, k) =>
      && Slice(src, poll) && Covered(src, s, poll.contract, poll.pos)
      && k <= |poll.page| && Grows(s.db.log, txn.log)
      && forall j :: 0 <= j < k ==> poll.page[j].id in FoldedIds(txn.log)
    case Committed(poll) => Slice(src, poll) && Covered(src, s, poll.contract, poll.pos + |poll.page|)
    case Handled(poll) => Slice(src, poll) && Covered(src, s, poll.contract, poll.pos + |poll.page|)
    case NextEvent(poll, i) => Slice(src, poll) && i <= |poll.page| && Covered(src, s, poll.contract, poll.pos + i)
    case Locked(poll, i) => Slice(src, poll) && i < |poll.page| && Covered(src, s, poll.contract, poll.pos + i)
    case Inserted(poll, i) => Slice(src, poll) && i < |poll.page| && Covered(src, s, poll.contract, poll.pos + i)
    case Threw(poll, i) =>
      && Slice(src, poll) && i < |poll.page| && Covered(src, s, poll.contract, poll.pos + i)
      && poll.page[i].id in s.hist.threw && poll.page[i].id in s.hist.everThrew
    case EventDone(poll, i) => Slice(src, poll) && i < |poll.page| && Covered(src, s, poll.contract, poll.pos + i + 1)
    case _ => true
  }

  /** A failed_events row is never written without a fold attempt of that very event having thrown. */
  ghost predicate FailuresAreReal<S>(s: Sys<S>) {
    s.db.failed.Keys <= s.hist.everThrew
  }

  ghost predicate Inv<S>(src: Source, s: Sys<S>) {
    && FailuresAreReal(s)
    && (forall c :: c in s.db.cursors ==> Covered(src, s, c, s.db.cursors[c].pos))
    && (forall w :: ProcCovered(src, s, w))
  }

  ghost predicate Keeps<S>(s: Sys<S>, s': Sys<S>) {
    forall id :: Accounted(s, id) ==> Accounted(s', id)
  }

  lemma CommitKeeps<S>(apply: Handler<S>, init: S, src: Source, s: Sys<S>, w: WorkerId)
    requires EO.ProcSound(apply, init, s, w) && ProcCovered(src, s, w)
    ensures Keeps(s, StepCommitPage(s, w))
  {
    match At(s, w) {
      case Paging(poll, txn, k) =>
        assert Ids(txn.folds) <= Ids(s.hist.applied + txn.folds);
        assert Ids(txn.folds) <= FoldedIds(txn.log);
      case _ =>
    }
  }

  predicate PageAction(a: Action) {
    a.LoadCursor? || a.Fetch? || a.LockPage? || a.FoldInPage? || a.CommitPage? || a.FailPage?
  }

  predicate EventAction(a: Action) {
    a.LockEvent? || a.InsertEvent? || a.FoldEvent? || a.ThrowEvent? || a.RecordFailure?
  }

  lemma PageStepKeeps<S>(apply: Handler<S>, init: S, src: Source, s: Sys<S>, w: WorkerId, a: Action)
    requires EO.ProcSound(apply, init, s, w) && ProcCovered(src, s, w) && PageAction(a)
    ensures Keeps(s, Step(apply, init, s, w, a))
  {
    if a.CommitPage? {
      CommitKeeps(apply, init, src, s, w);
    }
    hide EO.ProcSound, ProcCovered, Accounted, FoldOne, Fold, Sorted, InsertRaw, MarkFolded;
  }

  lemma EventStepKeeps<S>(apply: Handler<S>, init: S, src: Source, s: Sys<S>, w: WorkerId, a: Action)
    requires EO.ProcSound(apply, init, s, w) && ProcCovered(src, s, w) && EventAction(a)
    ensures Keeps(s, Step(apply, init, s, w, a))
  {
    hide EO.Sound, Covered, Slice, FoldOne, Fold, Sorted;
  }

  lemma ReplayStepKeeps<S>(apply: Handler<S>, init: S, s: Sys<S>, w: WorkerId, a: Action)
    requires a.LockReplay? || a.ReadReplay? || a.FoldReplay? || a.ThrowReplay?
    ensures Keeps(s, Step(apply, init, s, w, a))
  {
    hide FoldOne, InsertRaw, FoldedIds;
  }

  lemma OtherStepKeeps<S>(apply: Handler<S>, init: S, s: Sys<S>, w: WorkerId, a: Action)
    requires !PageAction(a) && !EventAction(a) && !a.LockReplay? && !a.ReadReplay? && !a.FoldReplay? && !a.ThrowReplay?
    ensures Keeps(s, Step(apply, init, s, w, a))
  {
    hide MarkFolded, FoldedIds, LastLedger, Fold, Sorted;
  }

  lemma OtherwiseKeeps<S>(apply: Handler<S>, init: S, s: Sys<S>, w: WorkerId, a: Action)
    requires !PageAction(a) && !EventAction(a)
    ensures Keeps(s, Step(apply, init, s, w, a))
  {
    hide Keeps, Step;
    if a.LockReplay? || a.ReadReplay? || a.FoldReplay? || a.ThrowReplay? {
      ReplayStepKeeps(apply, init, s, w, a);
    } else {
      OtherStepKeeps(apply, init, s, w, a);
    }
  }

  /** Once accounted for, always accounted for. */
  lemma StepKeeps<S>(apply: Handler<S>, init: S, src: Source, s: Sys<S>, w: WorkerId, a: Action)
    requires EO.ProcSound(apply, init, s, w) && ProcCovered(src, s, w)
    ensures Keeps(s, Step(apply, init, s, w, a))
  {
    hide *;
    if PageAction(a) {
      PageStepKeeps(apply, init, src, s, w, a);
    } else if EventAction(a) {
      EventStepKeeps(apply, init, src, s, w, a);
    } else {
      OtherwiseKeeps(apply, init, s, w, a);
    }
  }

  lemma CoveredStays<S>(src: Source, s: Sys<S>, s': Sys<S>, c: ContractId, n: nat)
    requires Covered(src, s, c, n) && Keeps(s, s')
    ensures Covered(src, s', c, n)
  {
  }

  /** The step of `w` had the lock, or it was free, or the step left the log alone and forgot no failure. */
  ghost predicate Framed<S>(s: Sys<S>, s': Sys<S>, w: WorkerId) {
    && (forall v :: v != w ==> At(s', v) == At(s, v)) && s.hist.everThrew <= s'.hist.everThrew
    && (|| s.db.lock == None
        || s.db.lock == Some(w)
        || (s'.db.log == s.db.log && s.hist.threw <= s'.hist.threw))
  }

  lemma OthersStayCovered<S>(apply: Handler<S>, init: S, src: Source, s: Sys<S>, s': Sys<S>, w: WorkerId)
    requires (forall v :: EO.ProcSound(apply, init, s, v)) && (forall v :: ProcCovered(src, s, v))
    requires Framed(s, s', w) && Keeps(s, s')
    ensures forall v :: v != w ==> ProcCovered(src, s', v)
  {
    hide EO.Sound;
    forall v | v != w
      ensures ProcCovered(src, s', v)
    {
      assert EO.ProcSound(apply, init, s, v);
      assert ProcCovered(src, s, v);
      assert At(s', v) == At(s, v);
    }
  }

  /** The next event of a slice extends the covered stretch. */
  lemma CoverNext<S>(src: Source, s: Sys<S>, poll: Poll, i: nat)
    requires Slice(src, poll) && i < |poll.page|
    requires Covered(src, s, poll.contract, poll.pos + i) && Accounted(s, poll.page[i].id)
    ensures Covered(src, s, poll.contract, poll.pos + i + 1)
  {
    assert poll.page[i] == src.feed(poll.contract)[poll.pos + i];
  }

  lemma CoverPage<S>(src: Source, s: Sys<S>, poll: Poll)
    requires Slice(src, poll) && Covered(src, s, poll.contract, poll.pos)
    requires forall j :: 0 <= j < |poll.page| ==> Accounted(s, poll.page[j].id)
    ensures Covered(src, s, poll.contract, poll.pos + |poll.page|)
  {
    forall j | src.start(poll.contract) <= j < poll.pos + |poll.page|
      ensures Accounted(s, src.feed(poll.contract)[j].id)
    {
      if j >= poll.pos {
        assert poll.page[j - poll.pos] == src.feed(poll.contract)[j];
      }
    }
  }

  lemma FetchStepCovers<S>(apply: Handler<S>, init: S, src: Source, s: Sys<S>, w: WorkerId, a: Action)
    requires Inv(src, s) && Served(src, s, w, a)
    requires a.LoadCursor? || a.Fetch? || a.LockPage? || a.FailPage?
    requires Keeps(s, Step(apply, init, s, w, a))
    ensures ProcCovered(src, Step(apply, init, s, w, a), w)
  {
    hide Accounted;
    assert ProcCovered(src, s, w);
  }

  lemma FoldStepCovers<S>(apply: Handler<S>, src: Source, s: Sys<S>, w: WorkerId)
    requires ProcCovered(src, s, w)
    ensures ProcCovered(src, StepFoldInPage(apply, s, w), w)
  {
    hide Slice;
    match At(s, w) {
      case Paging(poll, txn, k) =>
        if k < |poll.page| {
          MarkedIds(txn.log, poll.page[k]);
        }
      case _ =>
    }
  }

  lemma CommitStepCovers<S>(src: Source, s: Sys<S>, w: WorkerId)
    requires ProcCovered(src, s, w) && Keeps(s, StepCommitPage(s, w))
    ensures ProcCovered(src, StepCommitPage(s, w), w)
  {
    var s' := StepCommitPage(s, w);
    if At(s, w).Paging? && s' != s {
      CoveredStays(src, s, s', At(s, w).poll.contract, At(s, w).poll.pos);
      CoverPage(src, s', At(s, w).poll);
    }
  }

  /** Nothing a worker relies on here changes when its place, the log and the failures so far do not. */
  lemma StayingCovers<S>(src: Source, s: Sys<S>, s': Sys<S>, w: WorkerId)
    requires ProcCovered(src, s, w) && Keeps(s, s')
    requires At(s', w) == At(s, w) && s'.db.log == s.db.log
    requires s'.hist.threw == s.hist.threw && s'.hist.everThrew == s.hist.everThrew
    ensures ProcCovered(src, s', w)
  {
    hide Accounted, Slice;
  }

  lemma DoneIsAccounted<S>(apply: Handler<S>, init: S, src: Source, s: Sys<S>, w: WorkerId, a: Action)
    requires EO.ProcSound(apply, init, s, w) && ProcCovered(src, s, w) && EventAction(a)
    requires At(Step(apply, init, s, w, a), w).EventDone? && !At(s, w).EventDone?
    ensures var s' := Step(apply, init, s, w, a);
            Accounted(s', At(s', w).poll.page[At(s', w).i].id)
  {
    hide EO.Sound, Covered, Slice, FoldOne, Fold, Sorted, Grows;
  }

  /** An event dealt with extends what is covered by one. */
  lemma DoneCovers<S>(src: Source, s: Sys<S>, s': Sys<S>, poll: Poll, i: nat)
    requires Slice(src, poll) && i < |poll.page| && Covered(src, s, poll.contract, poll.pos + i) && Keeps(s, s')
    requires Accounted(s', poll.page[i].id)
    ensures Covered(src, s', poll.contract, poll.pos + i + 1)
  {
    hide Accounted;
    CoveredStays(src, s, s', poll.contract, poll.pos + i);
    CoverNext(src, s', poll, i);
  }

  lemma InsertAndFoldStepsCover<S>(apply: Handler<S>, init: S, src: Source, s: Sys<S>, w: WorkerId, a: Action)
    requires EO.ProcSound(apply, init, s, w) && ProcCovered(src, s, w)
    requires a.InsertEvent? || a.FoldEvent? || a.RecordFailure?
    requires Keeps(s, Step(apply, init, s, w, a))
    ensures ProcCovered(src, Step(apply, init, s, w, a), w)
  {
    hide EO.Sound, Slice, FoldOne, InsertRaw, MarkFolded, Accounted, Covered, Keeps;
    var s' := Step(apply, init, s, w, a);
    if At(s', w) == At(s, w) && s'.db.log == s.db.log && s'.hist.threw == s.hist.threw
       && s'.hist.everThrew == s.hist.everThrew {
      hide Step;
      StayingCovers(src, s, s', w);
    } else if At(s', w).EventDone? {
      DoneIsAccounted(apply, init, src, s, w, a);
      DoneCovers(src, s, s', At(s, w).poll, At(s, w).i);
    } else {
      CoveredStays(src, s, s', At(s, w).poll.contract, At(s, w).poll.pos + At(s, w).i);
    }
  }

  lemma EventStepCovers<S>(apply: Handler<S>, init: S, src: Source, s: Sys<S>, w: WorkerId, a: Action)
    requires EO.ProcSound(apply, init, s, w) && ProcCovered(src, s, w) && EventAction(a)
    requires Keeps(s, Step(apply, init, s, w, a))
    ensures ProcCovered(src, Step(apply, init, s, w, a), w)
  {
    hide EO.Sound, Slice, FoldOne, Accounted;
    if !a.LockEvent? && !a.ThrowEvent? {
      InsertAndFoldStepsCover(apply, init, src, s, w, a);
      hide ProcCovered;
    }
  }

  lemma ReleaseStepCovers<S>(apply: Handler<S>, init: S, src: Source, s: Sys<S>, w: WorkerId, a: Action)
    requires ProcCovered(src, s, w) && (a.Release? || a.SaveCursor?)
    requires Keeps(s, Step(apply, init, s, w, a))
    ensures ProcCovered(src, Step(apply, init, s, w, a), w)
  {
    hide Accounted, Slice;
  }

  lemma OtherStepCovers<S>(apply: Handler<S>, init: S, src: Source, s: Sys<S>, w: WorkerId, a: Action)
    requires ProcCovered(src, s, w) && !PageAction(a) && !EventAction(a) && !a.Release? && !a.SaveCursor?
    requires Keeps(s, Step(apply, init, s, w, a))
    ensures ProcCovered(src, Step(apply, init, s, w, a), w)
  {
    hide Covered, Keeps, Slice, Fold, Sorted;
    var s' := Step(apply, init, s, w, a);
    if At(s', w) == At(s, w) && s'.db.log == s.db.log && s'.hist.threw == s.hist.threw
      && s'.hist.everThrew == s.hist.everThrew {
      StayingCovers(src, s, s', w);
      hide Step;
    }
  }

  lemma CursorsStayCovered<S>(apply: Handler<S>, init: S, src: Source, s: Sys<S>, w: WorkerId, a: Action)
    requires Inv(src, s) && Keeps(s, Step(apply, init, s, w, a))
    ensures var s' := Step(apply, init, s, w, a);
            forall c :: c in s'.db.cursors ==> Covered(src, s', c, s'.db.cursors[c].pos)
  {
    assert ProcCovered(src, s, w);
  }

  lemma PollerStepFramed<S>(apply: Handler<S>, init: S, s: Sys<S>, w: WorkerId, a: Action)
    requires EO.ProcSound(apply, init, s, w) && (PageAction(a) || EventAction(a))
    ensures Framed(s, Step(apply, init, s, w, a), w)
  {
    hide EO.Sound, FoldOne, InsertRaw, MarkFolded, NeedsFold;
  }

  lemma OtherStepFramed<S>(apply: Handler<S>, init: S, s: Sys<S>, w: WorkerId, a: Action)
    requires EO.ProcSound(apply, init, s, w) && !PageAction(a) && !EventAction(a)
    ensures Framed(s, Step(apply, init, s, w, a), w)
  {
    hide EO.Sound, Fold, Sorted, MarkFolded, AllResolved, FoldedIds;
  }

  lemma StepFramed<S>(apply: Handler<S>, init: S, s: Sys<S>, w: WorkerId, a: Action)
    requires EO.ProcSound(apply, init, s, w)
    ensures Framed(s, Step(apply, init, s, w, a), w)
  {
    hide *;
    if PageAction(a) || EventAction(a) {
      PollerStepFramed(apply, init, s, w, a);
    } else {
      OtherStepFramed(apply, init, s, w, a);
    }
  }

  lemma FailuresStayReal<S>(apply: Handler<S>, init: S, src: Source, s: Sys<S>, w: WorkerId, a: Action)
    requires ProcCovered(src, s, w) && FailuresAreReal(s)
    ensures FailuresAreReal(Step(apply, init, s, w, a))
  {
    hide Covered, Slice, FoldOne, Fold, Sorted, InsertRaw, MarkFolded;
  }

  lemma WorkersOf<S>(apply: Handler<S>, init: S, src: Source, s: Sys<S>, w: WorkerId)
    requires EO.Inv(apply, init, s) && Inv(src, s)
    ensures EO.ProcSound(apply, init, s, w) && ProcCovered(src, s, w) && FailuresAreReal(s)
    ensures (forall v :: EO.ProcSound(apply, init, s, v)) && (forall v :: ProcCovered(src, s, v))
  {
  }

  lemma Gather<S>(src: Source, s: Sys<S>, w: WorkerId)
    requires FailuresAreReal(s)
    requires forall c :: c in s.db.cursors ==> Covered(src, s, c, s.db.cursors[c].pos)
    requires (forall v :: v != w ==> ProcCovered(src, s, v)) && ProcCovered(src, s, w)
    ensures Inv(src, s)
  {
  }

  lemma WorkerStaysCovered<S>(apply: Handler<S>, init: S, src: Source, s: Sys<S>, w: WorkerId, a: Action)
    requires EO.ProcSound(apply, init, s, w) && Inv(src, s) && ProcCovered(src, s, w) && Served(src, s, w, a)
    requires Keeps(s, Step(apply, init, s, w, a))
    ensures ProcCovered(src, Step(apply, init, s, w, a), w)
  {
    hide EO.Sound, Slice, Covered, ProcCovered, Inv;
    if a.FoldInPage? {
      FoldStepCovers(apply, src, s, w);
    } else if a.CommitPage? {
      CommitStepCovers(src, s, w);
    } else if PageAction(a) {
      FetchStepCovers(apply, init, src, s, w, a);
    } else if EventAction(a) {
      EventStepCovers(apply, init, src, s, w, a);
    } else if a.Release? || a.SaveCursor? {
      ReleaseStepCovers(apply, init, src, s, w, a);
    } else {
      OtherStepCovers(apply, init, src, s, w, a);
    }
  }

  lemma StepKeepsInv<S>(apply: Handler<S>, init: S, src: Source, s: Sys<S>, w: WorkerId, a: Action)
    requires EO.Inv(apply, init, s) && Inv(src, s) && Served(src, s, w, a)
    ensures Inv(src, Step(apply, init, s, w, a))
  {
    hide *;
    WorkersOf(apply, init, src, s, w);
    var s' := Step(apply, init, s, w, a);
    StepKeeps(apply, init, src, s, w, a);
    FailuresStayReal(apply, init, src, s, w, a);
    StepFramed(apply, init, s, w, a);
    OthersStayCovered(apply, init, src, s, s', w);
    CursorsStayCovered(apply, init, src, s, w, a);
    WorkerStaysCovered(apply, init, src, s, w, a);
    Gather(src, s', w);
  }

  lemma {:induction false} InvHolds<S>(apply: Handler<S>, init: S, src: Source, run: Run)
    requires ServedRun(apply, init, src, run)
    ensures Inv(src, Exec(apply, init, run))
  {
    if run != [] {
      var n := |run| - 1;
      InvHolds(apply, init, src, run[..n]);
      EO.InvHolds(apply, init, run[..n]);
      StepKeepsInv(apply, init, src, Exec(apply, init, run[..n]), run[n].0, run[n].1);
    }
  }

  /** In every run, at every point: each feed event from the start position up to any saved cursor is
      accounted for; and every failed_events row is for an event of which some fold attempt threw, inside
      the lock, so lock contention alone never writes one. */
  lemma NoEventIsLost<S>(apply: Handler<S>, init: S, src: Source, run: Run, c: ContractId, j: nat)
    requires ServedRun(apply, init, src, run)
    requires c in Exec(apply, init, run).db.cursors
    requires src.start(c) <= j < Exec(apply, init, run).db.cursors[c].pos
    ensures j < |src.feed(c)| && Accounted(Exec(apply, init, run), src.feed(c)[j].id)
    ensures FailuresAreReal(Exec(apply, init, run))
  {
    InvHolds(apply, init, src, run);
  }

  /** A fold attempt throws only in the hands of the worker that has the lock. */
  lemma OnlyTheLockHolderThrows<S>(apply: Handler<S>, init: S, run: Run, w: WorkerId, a: Action)
    requires Step(apply, init, Exec(apply, init, run), w, a).hist.everThrew != Exec(apply, init, run).hist.everThrew
    ensures Exec(apply, init, run).db.lock == Some(w)
  {
    hide FoldOne, Fold, Sorted;
    EO.InvHolds(apply, init, run);
    assert EO.ProcSound(apply, init, Exec(apply, init, run), w);
  }
}
