/**
 * However many workers race and overwrite each other's cursor, none of them ever sees an event from below the
 * ledger it has folded to, as long as every feed ascends in its ledgers: the continuity check raises no false
 * alarm (src/indexer/poller.ts:353-357, 494-498).
 */
module Continuity {
  import opened Outcomes
  import opened Events
  import opened EventLog
  import opened LogOrder
  import opened FoldProtocol
  import opened NoLoss

  ghost predicate Ascends(evs: seq<Event>) {
    forall i, j :: 0 <= i <= j < |evs| ==> evs[i].ledger <= evs[j].ledger
  }

  /** Everything from the position on is at or above the ledger. */
  ghost predicate Ahead(src: Source, c: ContractId, pos: nat, last: nat) {
    pos <= |src.feed(c)| && forall j :: pos <= j < |src.feed(c)| ==> src.feed(c)[j].ledger >= last
  }

  /** The page a worker has in hand. */
  function InHand<S>(p: Proc<S>): Option<Poll> {
    match p
    case Fetched(poll) => Some(poll)
    case Paging(poll, _, _) => Some(poll)
    case Committed(poll) => Some(poll)
    case Handled(poll) => Some(poll)
    case NextEvent(poll, _) => Some(poll)
    case Locked(poll, _) => Some(poll)
    case Inserted(poll, _) => Some(poll)
    case Threw(poll, _) => Some(poll)
    case EventDone(poll, _) => Some(poll)
    case _ => None
  }

  ghost predicate PollAhead(src: Source, poll: Poll) {
    Slice(src, poll) && Ahead(src, poll.contract, poll.pos, poll.last)
  }

  ghost predicate ProcAhead<S>(src: Source, p: Proc<S>) {
    && (p.Ready? ==> Ahead(src, p.contract, p.pos, p.last))
    && (InHand(p).Some? ==> PollAhead(src, InHand(p).value))
  }

  ghost predicate Inv<S>(src: Source, s: Sys<S>) {
    && (forall c :: c in s.db.cursors ==> Ahead(src, c, s.db.cursors[c].pos, s.db.cursors[c].last))
    && (forall w :: ProcAhead(src, At(s, w)))
  }

  /** The cursor saved after a page is ahead again. */
  lemma SavedIsAhead(src: Source, poll: Poll)
    requires PollAhead(src, poll) && Ascends(src.feed(poll.contract))
    ensures Ahead(src, poll.contract, poll.pos + |poll.page|, LastLedger(poll))
  {
    var n := |poll.page|;
    if n > 0 {
      assert poll.page[n - 1] == src.feed(poll.contract)[poll.pos + n - 1];
    }
  }

  lemma PollerStaysAhead<S>(apply: Handler<S>, init: S, src: Source, s: Sys<S>, w: WorkerId, a: Action)
    requires Inv(src, s) && Served(src, s, w, a) && PollerStep(a)
    ensures ProcAhead(src, At(Step(apply, init, s, w, a), w))
  {
    hide FoldOne, Slice, Ahead, InsertRaw, MarkFolded, Recorded, Thrown, NeedsFold;
    assert ProcAhead(src, At(s, w));
    if a.LoadCursor? {
      ColdStartIsAhead(src, a.contract, a.start);
    }
  }

  lemma OtherStaysAhead<S>(apply: Handler<S>, init: S, src: Source, s: Sys<S>, w: WorkerId, a: Action)
    requires Inv(src, s) && !PollerStep(a) && forall c :: Ascends(src.feed(c))
    ensures ProcAhead(src, At(Step(apply, init, s, w, a), w))
  {
    hide Fold, Sorted, Slice, Ascends, MarkFolded, FoldedIds, AllResolved, Recorded, Thrown;
    assert ProcAhead(src, At(s, w));
    if a.SaveCursor? && At(s, w).Handled? {
      SavedIsAhead(src, At(s, w).poll);
    }
    hide Ahead, LastLedger;
  }

  /** A worker keeps its page, fetches a slice from where it stands, or stands where a cursor was saved. */
  lemma WorkerStaysAhead<S>(apply: Handler<S>, init: S, src: Source, s: Sys<S>, w: WorkerId, a: Action)
    requires Inv(src, s) && Served(src, s, w, a) && forall c :: Ascends(src.feed(c))
    ensures ProcAhead(src, At(Step(apply, init, s, w, a), w))
  {
    hide *;
    if PollerStep(a) {
      PollerStaysAhead(apply, init, src, s, w, a);
    } else {
      OtherStaysAhead(apply, init, src, s, w, a);
    }
  }

  lemma ColdStartIsAhead(src: Source, c: ContractId, start: nat)
    ensures start <= |src.feed(c)| ==> Ahead(src, c, start, 0)
  {
  }

  lemma SavedCursorsStayAhead<S>(src: Source, s: Sys<S>, w: WorkerId)
    requires Inv(src, s) && forall c :: Ascends(src.feed(c))
    ensures var s' := StepSaveCursor(s, w);
            forall c :: c in s'.db.cursors ==> Ahead(src, c, s'.db.cursors[c].pos, s'.db.cursors[c].last)
  {
    hide Slice, Ascends;
    assert ProcAhead(src, At(s, w));
    if At(s, w).Handled? {
      SavedIsAhead(src, At(s, w).poll);
    }
    hide Ahead, LastLedger;
  }

  lemma CursorsStayAhead<S>(apply: Handler<S>, init: S, src: Source, s: Sys<S>, w: WorkerId, a: Action)
    requires Inv(src, s) && forall c :: Ascends(src.feed(c))
    ensures var s' := Step(apply, init, s, w, a);
            forall c :: c in s'.db.cursors ==> Ahead(src, c, s'.db.cursors[c].pos, s'.db.cursors[c].last)
  {
    hide Ascends, Ahead, ProcAhead;
    if a.SaveCursor? {
      SavedCursorsStayAhead(src, s, w);
    } else if !a.Reset? {
      hide Step;
      StepFrame(apply, init, s, w, a, w);
    }
  }

  lemma {:induction false} InvHolds<S>(apply: Handler<S>, init: S, src: Source, run: Run)
    requires ServedRun(apply, init, src, run) && forall c :: Ascends(src.feed(c))
    ensures Inv(src, Exec(apply, init, run))
  {
    if run != [] {
      hide Step, ProcAhead, Served, Ascends, Ahead;
      var n := |run| - 1;
      var s, w, a := Exec(apply, init, run[..n]), run[n].0, run[n].1;
      InvHolds(apply, init, src, run[..n]);
      CursorsStayAhead(apply, init, src, s, w, a);
      WorkerStaysAhead(apply, init, src, s, w, a);
      forall v
        ensures ProcAhead(src, At(Exec(apply, init, run), v))
      {
        assert ProcAhead(src, At(s, v));
        StepFrame(apply, init, s, w, a, v);
      }
    }
  }

  lemma PageIsContinuous(src: Source, poll: Poll, ev: Event)
    requires PollAhead(src, poll) && ev in poll.page
    ensures !Below(poll.last, ev)
  {
    var k :| 0 <= k < |poll.page| && poll.page[k] == ev;
    assert ev == src.feed(poll.contract)[poll.pos + k];
  }

  /** In every run of any number of workers, with crashes, resets, rebuilds and cursors overwritten in any order,
      no page in hand holds an event from below the ledger its worker has folded to. */
  lemma NoWorkerDiverges<S>(apply: Handler<S>, init: S, src: Source, run: Run, w: WorkerId, ev: Event)
    requires ServedRun(apply, init, src, run) && forall c :: Ascends(src.feed(c))
    requires var p := InHand(At(Exec(apply, init, run), w)); p.Some? && ev in p.value.page
    ensures !Below(InHand(At(Exec(apply, init, run), w)).value.last, ev)
  {
    hide Exec, ServedRun, Ascends, PollAhead, InHand;
    InvHolds(apply, init, src, run);
    var s := Exec(apply, init, run);
    assert ProcAhead(src, At(s, w));
    PageIsContinuous(src, InHand(At(s, w)).value, ev);
  }
}
