/**
 * Every event is folded once, in every interleaving of any number of pollers, replays and rebuilds
 * with crashes anywhere and pages redelivered in any way.
 */
module ExactlyOnce {
  import opened Outcomes
  import opened Events
  import opened EventLog
  import opened LogOrder
  import opened FoldProtocol

  /** The events applied are exactly the rows marked folded, each once, and the derived tables are
      the left fold of the contributing events. */
  ghost predicate Sound<S>(apply: Handler<S>, init: S, log: Log, derived: S, applied: seq<Event>,
                           contributed: seq<Event>, stale: set<EventId>, wiped: set<EventId>) {
    && Distinct(applied)
    && Ids(applied) == FoldedIds(log)
    && Fold(apply, init, contributed) == Ok(derived)
    && stale <= log.Keys && wiped <= FoldedIds(log) && stale !! wiped
    && forall id :: Occurrences(contributed, id) == Times(log, stale, wiped, id)
  }

  /** How often an event contributes to the tables: once for its fold unless a reset wiped it since, and once
      more for the last rebuild if that found its row logged but not folded. */
  function Times(log: Log, stale: set<EventId>, wiped: set<EventId>, id: EventId): nat {
    (if id in FoldedIds(log) - wiped then 1 else 0) + (if id in stale then 1 else 0)
  }

  ghost predicate DbSound<S>(apply: Handler<S>, init: S, s: Sys<S>) {
    Sound(apply, init, s.db.log, s.db.derived, s.hist.applied, s.hist.contributed, s.hist.stale, s.hist.wiped)
  }

  predicate HoldsLock<S>(p: Proc<S>) {
    p.Paging? || p.Committed? || p.Locked? || p.Inserted? || p.Threw? || p.EventDone?
    || p.Replaying? || p.Found? || p.Rebuilding? || p.Finished?
  }

  predicate Unfolded(log: Log, ev: Event) {
    ev.id in log && !log[ev.id].folded
  }

  ghost predicate TxnSound<S>(apply: Handler<S>, init: S, s: Sys<S>, txn: Txn<S>) {
    Sound(apply, init, txn.log, txn.derived, s.hist.applied + txn.folds, s.hist.contributed + txn.folds, s.hist.stale,
          s.hist.wiped)
  }

  /** What a worker in the middle of something relies on. */
  ghost predicate ProcSound<S>(apply: Handler<S>, init: S, s: Sys<S>, w: WorkerId) {
    && (HoldsLock(At(s, w)) ==> s.db.lock == Some(w))
    && match At(s, w)
       case Paging(poll, txn, k) => k <= |poll.page| && TxnSound(apply, init, s, txn)
       case Locked(poll, i) => i < |poll.page|
       case Inserted(poll, i) => i < |poll.page| && Unfolded(s.db.log, poll.page[i])
       case Threw(poll, i) => i < |poll.page| && poll.page[i].id in s.db.log
       case EventDone(poll, i) => i < |poll.page|
       case Found(ev) => Unfolded(s.db.log, ev)
       case Rebuilding(snapshot) => snapshot == s.db.log
       case _ => true
  }

  ghost predicate Inv<S>(apply: Handler<S>, init: S, s: Sys<S>) {
    DbSound(apply, init, s) && forall w :: ProcSound(apply, init, s, w)
  }

  lemma FoldKeepsSound<S>(apply: Handler<S>, init: S, log: Log, d: S, applied: seq<Event>, contributed: seq<Event>,
                               stale: set<EventId>, wiped: set<EventId>, ev: Event)
    requires Sound(apply, init, log, d, applied, contributed, stale, wiped)
    requires Unfolded(log, ev) && apply(d, ev).Ok?
    ensures Sound(apply, init, MarkFolded(log, ev.id), apply(d, ev).value, applied + [ev], contributed + [ev], stale,
                  wiped)
  {
    DistinctSnoc(applied, ev);
    FoldSnoc(apply, init, contributed, ev);
    assert FoldedIds(MarkFolded(log, ev.id)) == FoldedIds(log) + {ev.id};
    forall id
      ensures Occurrences(contributed + [ev], id) == Times(MarkFolded(log, ev.id), stale, wiped, id)
    {
      OccurrencesSnoc(contributed, ev, id);
      assert Occurrences(contributed, id) == Times(log, stale, wiped, id);
    }
  }

  lemma InsertKeepsSound<S>(apply: Handler<S>, init: S, log: Log, d: S, applied: seq<Event>, contributed: seq<Event>,
                               stale: set<EventId>, wiped: set<EventId>, ev: Event)
    requires Sound(apply, init, log, d, applied, contributed, stale, wiped)
    ensures Sound(apply, init, InsertRaw(log, ev), d, applied, contributed, stale, wiped)
  {
    MarkedIds(log, ev);
  }

  lemma FoldOneKeepsSound<S>(apply: Handler<S>, init: S, s: Sys<S>, txn: Txn<S>, ev: Event)
    requires TxnSound(apply, init, s, txn)
    requires FoldOne(apply, txn, ev).Ok?
    ensures TxnSound(apply, init, s, FoldOne(apply, txn, ev).value)
  {
    hide Sound;
    var applied, contributed := s.hist.applied + txn.folds, s.hist.contributed + txn.folds;
    InsertKeepsSound(apply, init, txn.log, txn.derived, applied, contributed, s.hist.stale, s.hist.wiped, ev);
    if NeedsFold(txn.log, ev) {
      FoldKeepsSound(apply, init, InsertRaw(txn.log, ev), txn.derived, applied, contributed, s.hist.stale,
                     s.hist.wiped, ev);
      assert s.hist.applied + (txn.folds + [ev]) == applied + [ev];
      assert s.hist.contributed + (txn.folds + [ev]) == contributed + [ev];
    }
  }

  /** The step of `w` left everything another worker relies on as it was, or had the lock. */
  ghost predicate Framed<S>(s: Sys<S>, s': Sys<S>, w: WorkerId) {
    && (forall v :: v != w ==> At(s', v) == At(s, v))
    && (|| (&& s'.db.lock == s.db.lock && s'.db.log == s.db.log && s'.db.derived == s.db.derived
            && s'.hist.applied == s.hist.applied && s'.hist.contributed == s.hist.contributed
               && s'.hist.stale == s.hist.stale && s'.hist.wiped == s.hist.wiped)
        || s.db.lock == None
        || s.db.lock == Some(w))
  }

  lemma OthersStaySound<S>(apply: Handler<S>, init: S, s: Sys<S>, s': Sys<S>, w: WorkerId)
    requires Inv(apply, init, s) && Framed(s, s', w)
    ensures forall v :: v != w ==> ProcSound(apply, init, s', v)
  {
    forall v | v != w
      ensures ProcSound(apply, init, s', v)
    {
      assert ProcSound(apply, init, s, v);
      assert At(s', v) == At(s, v);
    }
  }

  lemma PageStepKeepsInv<S>(apply: Handler<S>, init: S, s: Sys<S>, w: WorkerId, a: Action)
    requires Inv(apply, init, s)
    requires a.LoadCursor? || a.Fetch? || a.LockPage? || a.FoldInPage? || a.CommitPage? || a.FailPage?
    ensures Inv(apply, init, Step(apply, init, s, w, a))
  {
    hide Sound;
    var s' := Step(apply, init, s, w, a);
    assert ProcSound(apply, init, s, w);
    assert Framed(s, s', w);
    OthersStaySound(apply, init, s, s', w);
    if a.LockPage? && At(s', w).Paging? {
      assert s.hist.applied + [] == s.hist.applied && s.hist.contributed + [] == s.hist.contributed;
    }
    if a.FoldInPage? && At(s, w).Paging? && s' != s {
      FoldOneKeepsSound(apply, init, s, At(s, w).txn, At(s, w).poll.page[At(s, w).done]);
    }
    assert ProcSound(apply, init, s', w);
  }

  lemma InsertStepKeepsInv<S>(apply: Handler<S>, init: S, s: Sys<S>, w: WorkerId)
    requires Inv(apply, init, s)
    ensures Inv(apply, init, StepInsertEvent(s, w))
  {
    hide Sound, InsertRaw;
    var s', h := StepInsertEvent(s, w), s.hist;
    assert ProcSound(apply, init, s, w);
    assert Framed(s, s', w);
    OthersStaySound(apply, init, s, s', w);
    if At(s, w).Locked? {
      var ev := At(s, w).poll.page[At(s, w).i];
      InsertKeepsSound(apply, init, s.db.log, s.db.derived, h.applied, h.contributed, h.stale, h.wiped, ev);
      assert NeedsFold(s.db.log, ev) ==> Unfolded(InsertRaw(s.db.log, ev), ev) by {
        InsertedIsUnfolded(s.db.log, ev);
      }
    }
    assert ProcSound(apply, init, s', w);
  }

  lemma InsertedIsUnfolded(log: Log, ev: Event)
    ensures NeedsFold(log, ev) ==> Unfolded(InsertRaw(log, ev), ev)
  {
  }

  lemma FoldStepKeepsInv<S>(apply: Handler<S>, init: S, s: Sys<S>, w: WorkerId)
    requires Inv(apply, init, s)
    ensures Inv(apply, init, StepFoldEvent(apply, s, w))
  {
    hide Sound, MarkFolded;
    var s', h := StepFoldEvent(apply, s, w), s.hist;
    assert ProcSound(apply, init, s, w);
    assert Framed(s, s', w);
    OthersStaySound(apply, init, s, s', w);
    if At(s, w).Inserted? && s' != s {
      FoldKeepsSound(apply, init, s.db.log, s.db.derived, h.applied, h.contributed, h.stale, h.wiped,
                     At(s, w).poll.page[At(s, w).i]);
    }
    assert ProcSound(apply, init, s', w);
  }

  /** Steps of per-event mode that leave the log, the tables and what they fold as they were. */
  lemma QuietStepKeepsInv<S>(apply: Handler<S>, init: S, s: Sys<S>, w: WorkerId, a: Action)
    requires Inv(apply, init, s)
    requires a.LockEvent? || a.ThrowEvent? || a.RecordFailure?
    ensures Inv(apply, init, Step(apply, init, s, w, a))
  {
    hide Sound, FoldOne, InsertRaw, MarkFolded;
    var s' := Step(apply, init, s, w, a);
    assert ProcSound(apply, init, s, w);
    assert Framed(s, s', w);
    OthersStaySound(apply, init, s, s', w);
    assert ProcSound(apply, init, s', w);
  }

  lemma EndStepKeepsInv<S>(apply: Handler<S>, init: S, s: Sys<S>, w: WorkerId, a: Action)
    requires Inv(apply, init, s)
    requires a.Release? || a.SaveCursor?
    ensures Inv(apply, init, Step(apply, init, s, w, a))
  {
    hide Sound, FoldOne, InsertRaw, MarkFolded;
    var s' := Step(apply, init, s, w, a);
    assert ProcSound(apply, init, s, w);
    assert Framed(s, s', w);
    OthersStaySound(apply, init, s, s', w);
    assert ProcSound(apply, init, s', w);
  }

  lemma ReplayStepKeepsInv<S>(apply: Handler<S>, init: S, s: Sys<S>, w: WorkerId, a: Action)
    requires Inv(apply, init, s)
    requires a.LockReplay? || a.ReadReplay? || a.FoldReplay? || a.ThrowReplay?
    ensures Inv(apply, init, Step(apply, init, s, w, a))
  {
    hide Sound;
    var s' := Step(apply, init, s, w, a);
    assert ProcSound(apply, init, s, w);
    assert Framed(s, s', w);
    OthersStaySound(apply, init, s, s', w);
    var h := s.hist;
    if a.FoldReplay? && At(s, w).Found? && s' != s {
      FoldKeepsSound(apply, init, s.db.log, s.db.derived, h.applied, h.contributed, h.stale, h.wiped, At(s, w).ev);
    }
    assert ProcSound(apply, init, s', w);
  }

  lemma CrashKeepsInv<S>(apply: Handler<S>, init: S, s: Sys<S>, w: WorkerId)
    requires Inv(apply, init, s)
    ensures Inv(apply, init, StepCrash(s, w))
  {
    hide Sound;
    var s' := StepCrash(s, w);
    assert ProcSound(apply, init, s, w);
    assert Framed(s, s', w);
    OthersStaySound(apply, init, s, s', w);
    assert ProcSound(apply, init, s', w);
  }

  lemma ResetKeepsSound<S>(apply: Handler<S>, init: S, log: Log, d: S, applied: seq<Event>, contributed: seq<Event>,
                               stale: set<EventId>, wiped: set<EventId>)
    requires Sound(apply, init, log, d, applied, contributed, stale, wiped)
    ensures Sound(apply, init, log, init, applied, [], {}, FoldedIds(log))
  {
  }

  lemma RebuildKeepsSound<S>(apply: Handler<S>, init: S, log: Log, d0: S, d: S, applied: seq<Event>,
                             contributed: seq<Event>,
                               stale: set<EventId>, wiped: set<EventId>)
    requires Sound(apply, init, log, d0, applied, contributed, stale, wiped)
    requires Fold(apply, init, Sorted(log)) == Ok(d)
    ensures Sound(apply, init, log, d, applied, Sorted(log), log.Keys - FoldedIds(log), {})
  {
    SortedListsLog(log);
    forall id
      ensures Occurrences(Sorted(log), id) == Times(log, log.Keys - FoldedIds(log), {}, id)
    {
      DistinctOccurOnce(Sorted(log), id);
      OccursIffListed(Sorted(log), id);
    }
  }

  lemma AdminStepKeepsInv<S>(apply: Handler<S>, init: S, s: Sys<S>, w: WorkerId, a: Action)
    requires Inv(apply, init, s)
    requires a.LockRebuild? || a.CommitRebuild? || a.Reset? || a.Resolve? || a.Expire?
    ensures Inv(apply, init, Step(apply, init, s, w, a))
  {
    hide Sound;
    var s' := Step(apply, init, s, w, a);
    assert ProcSound(apply, init, s, w);
    assert Framed(s, s', w);
    OthersStaySound(apply, init, s, s', w);
    if a.CommitRebuild? && At(s, w).Rebuilding? {
      var rebuilt := Fold(apply, init, Sorted(s.db.log));
      if rebuilt.Ok? {
        RebuildKeepsSound(apply, init, s.db.log, s.db.derived, rebuilt.value, s.hist.applied, s.hist.contributed,
                          s.hist.stale, s.hist.wiped);
      }
    }
    if a.Reset? {
      ResetKeepsSound(apply, init, s.db.log, s.db.derived, s.hist.applied, s.hist.contributed, s.hist.stale,
                      s.hist.wiped);
    }
    assert ProcSound(apply, init, s', w);
  }

  lemma StepKeepsInv<S>(apply: Handler<S>, init: S, s: Sys<S>, w: WorkerId, a: Action)
    requires Inv(apply, init, s)
    ensures Inv(apply, init, Step(apply, init, s, w, a))
  {
    hide Inv;
    match a {
      case LoadCursor(_, _) => PageStepKeepsInv(apply, init, s, w, a);
      case Fetch(_) => PageStepKeepsInv(apply, init, s, w, a);
      case LockPage => PageStepKeepsInv(apply, init, s, w, a);
      case FoldInPage => PageStepKeepsInv(apply, init, s, w, a);
      case CommitPage => PageStepKeepsInv(apply, init, s, w, a);
      case FailPage => PageStepKeepsInv(apply, init, s, w, a);
      case LockEvent => QuietStepKeepsInv(apply, init, s, w, a);
      case InsertEvent => InsertStepKeepsInv(apply, init, s, w);
      case FoldEvent => FoldStepKeepsInv(apply, init, s, w);
      case ThrowEvent => QuietStepKeepsInv(apply, init, s, w, a);
      case RecordFailure(_) => QuietStepKeepsInv(apply, init, s, w, a);
      case Release => EndStepKeepsInv(apply, init, s, w, a);
      case SaveCursor => EndStepKeepsInv(apply, init, s, w, a);
      case LockReplay(_) => ReplayStepKeepsInv(apply, init, s, w, a);
      case ReadReplay => ReplayStepKeepsInv(apply, init, s, w, a);
      case FoldReplay => ReplayStepKeepsInv(apply, init, s, w, a);
      case ThrowReplay => ReplayStepKeepsInv(apply, init, s, w, a);
      case Crash => CrashKeepsInv(apply, init, s, w);
      case LockRebuild => AdminStepKeepsInv(apply, init, s, w, a);
      case CommitRebuild => AdminStepKeepsInv(apply, init, s, w, a);
      case Reset => AdminStepKeepsInv(apply, init, s, w, a);
      case Resolve(_) => AdminStepKeepsInv(apply, init, s, w, a);
      case Expire(_) => AdminStepKeepsInv(apply, init, s, w, a);
    }
  }

  lemma {:induction false} RunKeepsInv<S>(apply: Handler<S>, init: S, s: Sys<S>, run: Run)
    requires Inv(apply, init, s)
    ensures Inv(apply, init, ExecFrom(apply, init, s, run))
  {
    if run != [] {
      RunKeepsInv(apply, init, s, run[..|run| - 1]);
      var (w, a) := run[|run| - 1];
      StepKeepsInv(apply, init, ExecFrom(apply, init, s, run[..|run| - 1]), w, a);
    }
  }

  lemma InvHolds<S>(apply: Handler<S>, init: S, run: Run)
    ensures Inv(apply, init, Exec(apply, init, run))
  {
    RunKeepsInv(apply, init, Start(init), run);
  }

  /** No run folds an event twice; the applied events are exactly the rows marked folded; the derived tables
      are the left fold of the handler over the contributing events. Of these, an event is one exactly if it
      was folded and no reset has wiped it since, or it was logged but not folded at the last rebuild; it is
      one twice, never more, exactly if it was so at the last rebuild and has been folded since. */
  lemma FoldedExactlyOnce<S>(apply: Handler<S>, init: S, run: Run)
    ensures var s := Exec(apply, init, run);
            && Distinct(s.hist.applied)
            && Ids(s.hist.applied) == FoldedIds(s.db.log)
            && Fold(apply, init, s.hist.contributed) == Ok(s.db.derived)
            && Ids(s.hist.contributed) == FoldedIds(s.db.log) - s.hist.wiped + s.hist.stale
    ensures var s := Exec(apply, init, run);
            forall id ::
              && Occurrences(s.hist.contributed, id) <= 2
              && (Occurrences(s.hist.contributed, id) == 2 <==> id in s.hist.stale && id in FoldedIds(s.db.log))
  {
    InvHolds(apply, init, run);
    var s := Exec(apply, init, run);
    forall id
      ensures Occurrences(s.hist.contributed, id) == Times(s.db.log, s.hist.stale, s.hist.wiped, id)
      ensures id in Ids(s.hist.contributed) <==> id in FoldedIds(s.db.log) - s.hist.wiped + s.hist.stale
    {
      OccursIffListed(s.hist.contributed, id);
    }
  }

  predicate NoRebuild(run: Run) {
    forall i :: 0 <= i < |run| ==> !run[i].1.CommitRebuild?
  }

  predicate NoReset(run: Run) {
    forall i :: 0 <= i < |run| ==> !run[i].1.Reset?
  }

  /** Apart from rebuilds and resets, a step appends the same events to both histories. */
  lemma StepAppends<S>(apply: Handler<S>, init: S, s: Sys<S>, w: WorkerId, a: Action) returns (folds: seq<Event>)
    requires !a.CommitRebuild? && !a.Reset?
    ensures var h := Step(apply, init, s, w, a).hist;
            h.applied == s.hist.applied + folds && h.contributed == s.hist.contributed + folds
  {
    hide FoldOne;
    var h := Step(apply, init, s, w, a).hist;
    folds := match At(s, w) {
      case Paging(poll, txn, k) => if a.CommitPage? && k == |poll.page| then txn.folds else []
      case Inserted(poll, i) =>
        if a.FoldEvent? && i < |poll.page| && apply(s.db.derived, poll.page[i]).Ok? then [poll.page[i]] else []
      case Found(ev) => if a.FoldReplay? && apply(s.db.derived, ev).Ok? then [ev] else []
      case _ => []
    };
    assert s.hist.applied + [] == s.hist.applied && s.hist.contributed + [] == s.hist.contributed;
  }

  lemma {:induction false} ContributedIsApplied<S>(apply: Handler<S>, init: S, run: Run)
    requires NoRebuild(run) && NoReset(run)
    ensures Exec(apply, init, run).hist.contributed == Exec(apply, init, run).hist.applied
  {
    if run != [] {
      var n := |run| - 1;
      ContributedIsApplied(apply, init, run[..n]);
      assert !run[n].1.CommitRebuild? && !run[n].1.Reset?;
      hide Step;
      var _ := StepAppends(apply, init, Exec(apply, init, run[..n]), run[n].0, run[n].1);
    }
  }

  /** In every run of pollers and replays, with crashes anywhere, pages redelivered in any way, and events
      quarantined, replayed, resolved and expired: the derived tables are the left fold of the handler over
      the applied events, each of them once, and these are exactly the rows marked folded. */
  lemma TablesAreTheFoldOfApplied<S>(apply: Handler<S>, init: S, run: Run)
    requires NoRebuild(run) && NoReset(run)
    ensures var s := Exec(apply, init, run);
            && Fold(apply, init, s.hist.applied) == Ok(s.db.derived)
            && Distinct(s.hist.applied) && Ids(s.hist.applied) == FoldedIds(s.db.log)
  {
    hide Exec;
    ContributedIsApplied(apply, init, run);
    FoldedExactlyOnce(apply, init, run);
  }

  /** Two workers are never inside the lock together. */
  lemma MutualExclusion<S>(apply: Handler<S>, init: S, run: Run, v: WorkerId, w: WorkerId)
    requires HoldsLock(At(Exec(apply, init, run), v)) && HoldsLock(At(Exec(apply, init, run), w))
    ensures v == w
  {
    InvHolds(apply, init, run);
    assert ProcSound(apply, init, Exec(apply, init, run), v);
    assert ProcSound(apply, init, Exec(apply, init, run), w);
  }
}
