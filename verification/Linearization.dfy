/**
 * Without per-event mode, replay or reset, the events applied are at all times a prefix of the feed,
 * however many workers race and overwrite each other's cursor; and a rebuild at any moment changes nothing.
 */
module Linearization {
  import opened Outcomes
  import opened Events
  import opened EventLog
  import opened TextOrder
  import opened LogOrder
  import opened FoldProtocol
  import opened NoLoss
  import EO = ExactlyOnce

  predicate PollerAction(c: ContractId, a: Action) {
    match a
    case LoadCursor(c', _) => c' == c
    case Fetch(_) => true
    case LockPage => true
    case FoldInPage => true
    case CommitPage => true
    case Release => true
    case SaveCursor => true
    case Crash => true
    case LockRebuild => true
    case CommitRebuild => true
    case Resolve(_) => true
    case Expire(_) => true
    case _ => false
  }

  /** Pollers of one contract, served from its feed, with rebuilds and operators beside them. */
  predicate PollerRun<S>(apply: Handler<S>, init: S, src: Source, c: ContractId, run: Run) {
    ServedRun(apply, init, src, run) && forall i :: 0 <= i < |run| ==> PollerAction(c, run[i].1)
  }

  ghost predicate ValidFeed(src: Source, c: ContractId) {
    src.start(c) <= |src.feed(c)| && Ascending(src.feed(c)) && Distinct(src.feed(c))
  }

  /** The stretch of the feed from the start position up to position `n`. */
  function Stretch(src: Source, c: ContractId, n: nat): seq<Event>
    requires src.start(c) <= n <= |src.feed(c)|
  {
    src.feed(c)[src.start(c)..n]
  }

  /** `n` feed positions are done: exactly those rows are in the log, all folded. */
  ghost predicate UpTo(src: Source, c: ContractId, n: nat, log: Log, applied: seq<Event>) {
    && src.start(c) <= n <= |src.feed(c)|
    && applied == Stretch(src, c, n)
    && log.Keys == Ids(applied)
    && forall e :: e in applied ==> log[e.id] == Row(e, true)
  }

  function End<S>(src: Source, c: ContractId, s: Sys<S>): nat {
    src.start(c) + |s.hist.applied|
  }

  predicate Within<S>(src: Source, c: ContractId, s: Sys<S>, pos: nat) {
    src.start(c) <= pos <= End(src, c, s)
  }

  function Max(a: nat, b: nat): nat {
    if a < b then b else a
  }

  ghost predicate ProcLinear<S>(src: Source, c: ContractId, s: Sys<S>, w: WorkerId) {
    match At(s, w)
    case Idle => true
    case Ready(c', pos, _) => c' == c && Within(src, c, s, pos)
    case Fetched(poll) => poll.contract == c && Slice(src, poll) && Within(src, c, s, poll.pos)
    case Paging(poll, txn, k) =>
      && poll.contract == c && Slice(src, poll) && Within(src, c, s, poll.pos) && k <= |poll.page|
      && UpTo(src, c, Max(End(src, c, s), poll.pos + k), txn.log, s.hist.applied + txn.folds)
    case Committed(poll) => poll.contract == c && Slice(src, poll) && Within(src, c, s, poll.pos + |poll.page|)
    case Handled(poll) => poll.contract == c && Slice(src, poll) && Within(src, c, s, poll.pos + |poll.page|)
    case Rebuilding(_) => true
    case Finished => true
    case _ => false
  }

  ghost predicate Inv<S>(src: Source, c: ContractId, s: Sys<S>) {
    && UpTo(src, c, End(src, c, s), s.db.log, s.hist.applied)
    && s.hist.contributed == s.hist.applied
    && (forall c' :: c' in s.db.cursors ==> c' == c && Within(src, c, s, s.db.cursors[c'].pos))
    && (forall w :: ProcLinear(src, c, s, w))
  }

  /** An event at a position already done is found folded. */
  lemma DoneIsFolded(src: Source, c: ContractId, n: nat, log: Log, applied: seq<Event>, pos: nat)
    requires UpTo(src, c, n, log, applied) && src.start(c) <= pos < n
    ensures InsertRaw(log, src.feed(c)[pos]) == log && !NeedsFold(log, src.feed(c)[pos])
  {
    var ev := src.feed(c)[pos];
    assert applied[pos - src.start(c)] == ev;
    assert ev in applied;
  }

  lemma NextIsNew(src: Source, c: ContractId, n: nat, log: Log, applied: seq<Event>)
    requires ValidFeed(src, c) && UpTo(src, c, n, log, applied) && n < |src.feed(c)|
    ensures src.feed(c)[n].id !in log
  {
    var ev := src.feed(c)[n];
    forall e | e in applied
      ensures e.id != ev.id
    {
      var k :| 0 <= k < |applied| && applied[k] == e;
      assert src.feed(c)[src.start(c) + k] == e;
    }
  }

  lemma NextExtends(src: Source, c: ContractId, n: nat, log: Log, applied: seq<Event>)
    requires UpTo(src, c, n, log, applied) && n < |src.feed(c)| && src.feed(c)[n].id !in log
    ensures var ev := src.feed(c)[n];
            UpTo(src, c, n + 1, MarkFolded(InsertRaw(log, ev), ev.id), applied + [ev])
  {
    var ev := src.feed(c)[n];
    assert Stretch(src, c, n + 1) == Stretch(src, c, n) + [ev];
    assert Ids(applied + [ev]) == Ids(applied) + {ev.id} by {
      DistinctSnoc(applied, ev);
    }
    forall e | e in applied + [ev]
      ensures MarkFolded(InsertRaw(log, ev), ev.id)[e.id] == Row(e, true)
    {
      if e in applied {
        assert e.id in Ids(applied);
      }
    }
  }

  /** Folding the feed event at a position not past the end: skipped if it is already there, appended if it is next. */
  lemma FoldExtends<S>(apply: Handler<S>, src: Source, c: ContractId, n: nat, txn: Txn<S>, before: seq<Event>, pos: nat)
    requires ValidFeed(src, c)
    requires UpTo(src, c, n, txn.log, before + txn.folds)
    requires src.start(c) <= pos <= n && pos < |src.feed(c)|
    requires FoldOne(apply, txn, src.feed(c)[pos]).Ok?
    ensures var txn' := FoldOne(apply, txn, src.feed(c)[pos]).value;
            UpTo(src, c, Max(n, pos + 1), txn'.log, before + txn'.folds)
  {
    hide UpTo, ValidFeed;
    if pos < n {
      DoneIsFolded(src, c, n, txn.log, before + txn.folds, pos);
    } else {
      var ev := src.feed(c)[n];
      NextIsNew(src, c, n, txn.log, before + txn.folds);
      NextExtends(src, c, n, txn.log, before + txn.folds);
      assert before + (txn.folds + [ev]) == before + txn.folds + [ev];
    }
  }

  lemma PagingStaysLinear<S>(apply: Handler<S>, src: Source, c: ContractId, s: Sys<S>, w: WorkerId)
    requires ValidFeed(src, c) && ProcLinear(src, c, s, w)
    ensures ProcLinear(src, c, StepFoldInPage(apply, s, w), w)
  {
    hide UpTo, ValidFeed, FoldOne;
    match At(s, w) {
      case Paging(poll, txn, k) =>
        if k < |poll.page| && FoldOne(apply, txn, poll.page[k]).Ok? {
          assert poll.page[k] == src.feed(c)[poll.pos + k];
          FoldExtends(apply, src, c, Max(End(src, c, s), poll.pos + k), txn, s.hist.applied, poll.pos + k);
        }
      case _ =>
    }
  }

  /** The rows in reading order are the applied events. */
  lemma LogListsApplied(src: Source, c: ContractId, n: nat, log: Log, applied: seq<Event>)
    requires ValidFeed(src, c) && UpTo(src, c, n, log, applied)
    ensures Sorted(log) == applied
  {
    forall id | id in log
      ensures log[id].ev in applied
    {
      var e :| e in applied && e.id == id;
      assert log[id] == Row(e, true);
    }
    forall i, j | 0 <= i < j < |applied|
      ensures Before(applied[i], applied[j])
    {
      assert applied[i] == src.feed(c)[src.start(c) + i] && applied[j] == src.feed(c)[src.start(c) + j];
    }
    AscendingListingIsSorted(applied, log);
  }

  /** A rebuild leaves the tables and what contributes to them as they were. */
  lemma RebuildStaysLinear<S>(apply: Handler<S>, init: S, src: Source, c: ContractId, s: Sys<S>, w: WorkerId)
    requires ValidFeed(src, c) && Inv(src, c, s)
    requires EO.ProcSound(apply, init, s, w) && Fold(apply, init, s.hist.contributed) == Ok(s.db.derived)
    ensures var s' := StepCommitRebuild(apply, init, s, w);
            && s'.db.log == s.db.log && s'.db.derived == s.db.derived && s'.db.cursors == s.db.cursors
            && s'.hist.applied == s.hist.applied && s'.hist.contributed == s.hist.contributed
            && (forall v :: v != w ==> At(s', v) == At(s, v)) && ProcLinear(src, c, s', w)
  {
    LogListsApplied(src, c, End(src, c, s), s.db.log, s.hist.applied);
    assert ProcLinear(src, c, s, w);
    hide EO.Sound, UpTo, ValidFeed, Sorted, Fold;
  }

  /** Only the lock holder appends, and nothing is ever taken back. */
  ghost predicate Advances<S>(s: Sys<S>, s': Sys<S>, w: WorkerId) {
    && (forall v :: v != w ==> At(s', v) == At(s, v))
    && |s.hist.applied| <= |s'.hist.applied|
    && (s'.hist.applied == s.hist.applied || s.db.lock == Some(w))
  }

  lemma OthersStayLinear<S>(apply: Handler<S>, init: S, src: Source, c: ContractId, s: Sys<S>, s': Sys<S>, w: WorkerId)
    requires (forall v :: EO.ProcSound(apply, init, s, v)) && (forall v :: ProcLinear(src, c, s, v))
    requires Advances(s, s', w)
    ensures forall v :: v != w ==> ProcLinear(src, c, s', v)
  {
    hide EO.Sound, UpTo, Slice;
    forall v | v != w
      ensures ProcLinear(src, c, s', v)
    {
      assert EO.ProcSound(apply, init, s, v) && ProcLinear(src, c, s, v);
      assert At(s', v) == At(s, v);
    }
  }

  lemma FetchingStaysLinear<S>(apply: Handler<S>, init: S, src: Source, c: ContractId, s: Sys<S>, w: WorkerId,
                               a: Action)
    requires ValidFeed(src, c) && Inv(src, c, s) && Served(src, s, w, a) && PollerAction(c, a)
    requires a.LoadCursor? || a.Fetch? || a.Release? || a.SaveCursor? || a.Crash?
    ensures ProcLinear(src, c, Step(apply, init, s, w, a), w)
  {
    hide UpTo, FoldOne, Fold, Sorted;
    assert ProcLinear(src, c, s, w);
  }

  lemma LockingStaysLinear<S>(apply: Handler<S>, init: S, src: Source, c: ContractId, s: Sys<S>, w: WorkerId)
    requires ValidFeed(src, c) && Inv(src, c, s)
    ensures ProcLinear(src, c, StepLockPage(s, w), w)
  {
    assert ProcLinear(src, c, s, w);
    assert s.hist.applied + [] == s.hist.applied;
  }

  lemma BesideStaysLinear<S>(apply: Handler<S>, init: S, src: Source, c: ContractId, s: Sys<S>, w: WorkerId, a: Action)
    requires Inv(src, c, s) && (a.LockRebuild? || a.Resolve? || a.Expire?)
    ensures ProcLinear(src, c, Step(apply, init, s, w, a), w)
  {
    hide UpTo, FoldOne, Fold, Sorted, Slice;
    assert ProcLinear(src, c, s, w);
  }

  lemma WorkerStaysLinear<S>(apply: Handler<S>, init: S, src: Source, c: ContractId, s: Sys<S>, w: WorkerId, a: Action)
    requires ValidFeed(src, c) && EO.Inv(apply, init, s) && Inv(src, c, s)
    requires Served(src, s, w, a) && PollerAction(c, a)
    ensures ProcLinear(src, c, Step(apply, init, s, w, a), w)
  {
    hide ProcLinear, UpTo, EO.Sound;
    assert ProcLinear(src, c, s, w) && EO.ProcSound(apply, init, s, w);
    hide Inv, EO.Inv, EO.ProcSound, Served;
    match a {
      case FoldInPage => PagingStaysLinear(apply, src, c, s, w);
      case LockPage => LockingStaysLinear(apply, init, src, c, s, w);
      case CommitPage => CommitStaysLinear(src, c, s, w);
      case CommitRebuild =>
        TablesFoldContributed(apply, init, s);
        RebuildStaysLinear(apply, init, src, c, s, w);
      case LockRebuild => BesideStaysLinear(apply, init, src, c, s, w, a);
      case Resolve(_) => BesideStaysLinear(apply, init, src, c, s, w, a);
      case Expire(_) => BesideStaysLinear(apply, init, src, c, s, w, a);
      case _ => FetchingStaysLinear(apply, init, src, c, s, w, a);
    }
  }

  lemma CommitStaysLinear<S>(src: Source, c: ContractId, s: Sys<S>, w: WorkerId)
    requires Inv(src, c, s)
    ensures var s' := StepCommitPage(s, w);
            && ProcLinear(src, c, s', w)
            && UpTo(src, c, End(src, c, s'), s'.db.log, s'.hist.applied)
            && s'.hist.contributed == s'.hist.applied
            && |s.hist.applied| <= |s'.hist.applied|
  {
    assert ProcLinear(src, c, s, w);
    match At(s, w) {
      case Paging(poll, txn, k) =>
        assert |s.hist.applied + txn.folds| == Max(End(src, c, s), poll.pos + k) - src.start(c);
      case _ =>
    }
  }

  lemma TablesFoldContributed<S>(apply: Handler<S>, init: S, s: Sys<S>)
    requires EO.Inv(apply, init, s)
    ensures Fold(apply, init, s.hist.contributed) == Ok(s.db.derived)
  {
  }

  ghost predicate DbLinear<S>(src: Source, c: ContractId, s: Sys<S>) {
    && UpTo(src, c, End(src, c, s), s.db.log, s.hist.applied)
    && s.hist.contributed == s.hist.applied
    && (forall c' :: c' in s.db.cursors ==> c' == c && Within(src, c, s, s.db.cursors[c'].pos))
  }

  lemma CommitDbStaysLinear<S>(apply: Handler<S>, init: S, src: Source, c: ContractId, s: Sys<S>, w: WorkerId)
    requires EO.ProcSound(apply, init, s, w) && Inv(src, c, s)
    ensures DbLinear(src, c, StepCommitPage(s, w)) && Advances(s, StepCommitPage(s, w), w)
  {
    hide EO.Sound;
    CommitStaysLinear(src, c, s, w);
    hide UpTo, Slice;
  }

  lemma RebuildDbStaysLinear<S>(apply: Handler<S>, init: S, src: Source, c: ContractId, s: Sys<S>, w: WorkerId)
    requires ValidFeed(src, c) && EO.Inv(apply, init, s) && Inv(src, c, s)
    ensures var s' := StepCommitRebuild(apply, init, s, w); DbLinear(src, c, s') && Advances(s, s', w)
  {
    hide EO.Sound, UpTo;
    assert EO.ProcSound(apply, init, s, w);
    TablesFoldContributed(apply, init, s);
    RebuildStaysLinear(apply, init, src, c, s, w);
    hide StepCommitRebuild;
  }

  lemma SaveDbStaysLinear<S>(src: Source, c: ContractId, s: Sys<S>, w: WorkerId)
    requires ProcLinear(src, c, s, w) && DbLinear(src, c, s)
    ensures DbLinear(src, c, StepSaveCursor(s, w)) && Advances(s, StepSaveCursor(s, w), w)
  {
    hide UpTo, Slice;
  }

  /** The other steps leave the log, the histories and the cursors as they were. */
  lemma OtherDbStays<S>(apply: Handler<S>, init: S, c: ContractId, s: Sys<S>, w: WorkerId, a: Action)
    requires PollerAction(c, a) && !a.CommitPage? && !a.CommitRebuild? && !a.SaveCursor?
    ensures var s' := Step(apply, init, s, w, a);
            && s'.db.log == s.db.log && s'.db.cursors == s.db.cursors
            && s'.hist.applied == s.hist.applied && s'.hist.contributed == s.hist.contributed
            && (forall v :: v != w ==> At(s', v) == At(s, v))
  {
    hide Step, At;
    var s' := Step(apply, init, s, w, a);
    StepFrame(apply, init, s, w, a, w);
    forall v | v != w
      ensures At(s', v) == At(s, v)
    {
      StepFrame(apply, init, s, w, a, v);
    }
    OtherLogStays(apply, init, c, s, w, a);
  }

  lemma OtherLogStays<S>(apply: Handler<S>, init: S, c: ContractId, s: Sys<S>, w: WorkerId, a: Action)
    requires PollerAction(c, a) && !a.CommitPage? && !a.CommitRebuild?
    ensures var s' := Step(apply, init, s, w, a);
            && s'.db.log == s.db.log
            && s'.hist.applied == s.hist.applied && s'.hist.contributed == s.hist.contributed
  {
    hide FoldOne, At, LastLedger;
  }

  lemma OtherDbStaysLinear<S>(apply: Handler<S>, init: S, src: Source, c: ContractId, s: Sys<S>, w: WorkerId, a: Action)
    requires ProcLinear(src, c, s, w) && DbLinear(src, c, s)
    requires PollerAction(c, a) && !a.CommitPage? && !a.CommitRebuild?
    ensures DbLinear(src, c, Step(apply, init, s, w, a)) && Advances(s, Step(apply, init, s, w, a), w)
  {
    if a.SaveCursor? {
      SaveDbStaysLinear(src, c, s, w);
      hide DbLinear, Advances;
    } else {
      hide Step, UpTo;
      OtherDbStays(apply, init, c, s, w, a);
    }
  }

  /** The database stays linear, and only the lock holder appends. */
  lemma DbStaysLinear<S>(apply: Handler<S>, init: S, src: Source, c: ContractId, s: Sys<S>, w: WorkerId, a: Action)
    requires ValidFeed(src, c) && EO.Inv(apply, init, s) && Inv(src, c, s) && PollerAction(c, a)
    ensures DbLinear(src, c, Step(apply, init, s, w, a)) && Advances(s, Step(apply, init, s, w, a), w)
  {
    hide EO.Sound, UpTo;
    assert EO.ProcSound(apply, init, s, w) && ProcLinear(src, c, s, w) && DbLinear(src, c, s);
    hide EO.ProcSound, ProcLinear, DbLinear, Advances;
    match a {
      case CommitPage => CommitDbStaysLinear(apply, init, src, c, s, w);
      case CommitRebuild => RebuildDbStaysLinear(apply, init, src, c, s, w);
      case _ => OtherDbStaysLinear(apply, init, src, c, s, w, a);
    }
  }

  lemma WorkersOf<S>(apply: Handler<S>, init: S, src: Source, c: ContractId, s: Sys<S>)
    requires EO.Inv(apply, init, s) && Inv(src, c, s)
    ensures (forall v :: EO.ProcSound(apply, init, s, v)) && (forall v :: ProcLinear(src, c, s, v))
  {
  }

  lemma StepKeepsInv<S>(apply: Handler<S>, init: S, src: Source, c: ContractId, s: Sys<S>, w: WorkerId, a: Action)
    requires ValidFeed(src, c) && EO.Inv(apply, init, s) && Inv(src, c, s)
    requires Served(src, s, w, a) && PollerAction(c, a)
    ensures Inv(src, c, Step(apply, init, s, w, a))
  {
    hide EO.Inv, ProcLinear, UpTo, Advances, Step;
    WorkersOf(apply, init, src, c, s);
    DbStaysLinear(apply, init, src, c, s, w, a);
    OthersStayLinear(apply, init, src, c, s, Step(apply, init, s, w, a), w);
    WorkerStaysLinear(apply, init, src, c, s, w, a);
  }

  lemma {:induction false} InvHolds<S>(apply: Handler<S>, init: S, src: Source, c: ContractId, run: Run)
    requires ValidFeed(src, c) && PollerRun(apply, init, src, c, run)
    ensures Inv(src, c, Exec(apply, init, run))
  {
    if run != [] {
      var n := |run| - 1;
      InvHolds(apply, init, src, c, run[..n]);
      EO.InvHolds(apply, init, run[..n]);
      StepKeepsInv(apply, init, src, c, Exec(apply, init, run[..n]), run[n].0, run[n].1);
    }
  }

  /** The applied events are a prefix of the feed, every saved cursor points at or before its end, and the
      derived tables are the fold of that prefix. */
  lemma AppliedIsPrefixOfFeed<S>(apply: Handler<S>, init: S, src: Source, c: ContractId, run: Run)
    requires ValidFeed(src, c) && PollerRun(apply, init, src, c, run)
    ensures var s := Exec(apply, init, run);
            && s.hist.applied <= src.feed(c)[src.start(c)..]
            && Fold(apply, init, s.hist.applied) == Ok(s.db.derived)
            && forall c' :: c' in s.db.cursors ==> s.db.cursors[c'].pos <= src.start(c) + |s.hist.applied|
  {
    InvHolds(apply, init, src, c, run);
    EO.InvHolds(apply, init, run);
  }

  /** The rows are then exactly the applied events in reading order, so a rebuild from the log gives the
      very tables that incremental folding built. */
  lemma RebuildEqualsIncrementalFold<S>(apply: Handler<S>, init: S, src: Source, c: ContractId, run: Run)
    requires ValidFeed(src, c) && PollerRun(apply, init, src, c, run)
    ensures var s := Exec(apply, init, run);
            && Sorted(s.db.log) == s.hist.applied
            && Fold(apply, init, Sorted(s.db.log)) == Ok(s.db.derived)
  {
    AppliedIsPrefixOfFeed(apply, init, src, c, run);
    InvHolds(apply, init, src, c, run);
    var s := Exec(apply, init, run);
    LogListsApplied(src, c, End(src, c, s), s.db.log, s.hist.applied);
  }

  /** Any two runs that got equally far have the same log and the same tables, whatever the schedule. */
  lemma ScheduleDoesNotMatter<S>(apply: Handler<S>, init: S, src: Source, c: ContractId, run: Run, run': Run)
    requires ValidFeed(src, c)
    requires PollerRun(apply, init, src, c, run) && PollerRun(apply, init, src, c, run')
    requires |Exec(apply, init, run).hist.applied| == |Exec(apply, init, run').hist.applied|
    ensures Exec(apply, init, run).db.log == Exec(apply, init, run').db.log
    ensures Exec(apply, init, run).db.derived == Exec(apply, init, run').db.derived
  {
    hide Exec, UpTo;
    AppliedIsPrefixOfFeed(apply, init, src, c, run);
    AppliedIsPrefixOfFeed(apply, init, src, c, run');
    InvHolds(apply, init, src, c, run);
    InvHolds(apply, init, src, c, run');
    var s, s' := Exec(apply, init, run), Exec(apply, init, run');
    assert s.hist.applied == s'.hist.applied;
    OneLogUpTo(src, c, End(src, c, s), s.db.log, s'.db.log, s.hist.applied);
  }

  lemma OneLogUpTo(src: Source, c: ContractId, n: nat, log: Log, log': Log, applied: seq<Event>)
    requires UpTo(src, c, n, log, applied) && UpTo(src, c, n, log', applied)
    ensures log == log'
  {
    forall id | id in log
      ensures log[id] == log'[id]
    {
      var e :| e in applied && e.id == id;
      assert log[id] == Row(e, true);
    }
  }
}
