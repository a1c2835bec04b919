/**
 * The fold protocol as a transition system: any number of pollers, replays and rebuilds over one
 * database, with crashes anywhere (src/indexer/poller.ts, replay.ts, reindex.ts).
 *
 * A transaction works on a private copy taken at BEGIN and publishes it at COMMIT; nothing but the
 * advisory lock keeps two of them apart. Statements that commit on their own (the raw insert of
 * per-event mode, reading `folded_at`, recording a failure, saving a cursor) are steps of their own.
 * Every `Step` is total: an action that is not possible in a state leaves it unchanged, so every
 * sequence of actions is a run. Sql errors and lost connections are `Crash`, `FailPage` or `ThrowEvent`,
 * all of which are possible whatever the handler would have answered.
 */
module FoldProtocol {
  import opened Outcomes
  import opened Events
  import opened EventLog
  import opened LogOrder

  type WorkerId = nat

  /** A saved cursor: the paging token, as the number of feed events before it, and the last folded ledger. */
  datatype Cursor = Cursor(pos: nat, last: nat)

  datatype Db<+S> = Db(
    log: Log,
    derived: S,
    failed: map<EventId, bool>, // failed_events: event id -> resolved
    cursors: map<ContractId, Cursor>,
    lock: Option<WorkerId>)

  /** What has happened so far. Nothing in a step depends on it. */
  datatype History = History(
    applied: seq<Event>,     // events folded by pollers and replays, in commit order
    contributed: seq<Event>, // events whose effect is in the derived tables, in order
    stale: set<EventId>,     // rows that were logged but not folded when the last rebuild ran
    wiped: set<EventId>,     // rows that were folded when the last reset ran, unless a rebuild ran since
    threw: set<EventId>,     // events whose latest fold attempt, in a transaction of their own, threw
    everThrew: set<EventId>, // events of which some such attempt threw
    unrecorded: set<EventId>, // events whose latest failed_events insert failed
    cleared: set<EventId>)   // events whose row was resolved by an operator or a rebuild, and not reopened since

  /** A page in hand: where it was fetched, the ledger folded up to, and its events. */
  datatype Poll = Poll(contract: ContractId, pos: nat, last: nat, page: seq<Event>)

  datatype Proc<+S> =
    | Idle
    | Ready(contract: ContractId, pos: nat, last: nat)
    | Fetched(poll: Poll)
    | Paging(poll: Poll, txn: Txn<S>, done: nat)  // lock held, transaction open
    | Committed(poll: Poll)                       // lock held, page committed
    | Handled(poll: Poll)                         // lock released, cursor not saved
    | NextEvent(poll: Poll, i: nat)               // per-event mode, before event i
    | Locked(poll: Poll, i: nat)                  // lock held for event i
    | Inserted(poll: Poll, i: nat)                // raw row committed, found not folded
    | Threw(poll: Poll, i: nat)                   // fold of event i rolled back
    | EventDone(poll: Poll, i: nat)               // event i dealt with, lock still held
    | Replaying(id: EventId)                      // lock held for a replay
    | Found(ev: Event)                            // replay read the row and found it not folded
    | Rebuilding(snapshot: Log)                   // lock held, rebuild transaction open
    | Finished                                    // replay or rebuild over, lock still held

  datatype Sys<+S> = Sys(db: Db<S>, procs: map<WorkerId, Proc<S>>, hist: History)

  datatype Action =
    | LoadCursor(contract: ContractId, start: nat)
    | Fetch(page: seq<Event>)
    | LockPage
    | FoldInPage
    | CommitPage
    | FailPage
    | LockEvent
    | InsertEvent
    | FoldEvent
    | ThrowEvent
    | RecordFailure(recorded: bool)
    | Release
    | SaveCursor
    | LockReplay(eventId: EventId)
    | ReadReplay
    | FoldReplay
    | ThrowReplay
    | LockRebuild
    | CommitRebuild
    | Reset
    | Resolve(resolved: EventId)
    | Expire(expired: EventId)
    | Crash

  function At<S>(s: Sys<S>, w: WorkerId): Proc<S> {
    if w in s.procs then s.procs[w] else Idle
  }

  function Move<S>(s: Sys<S>, w: WorkerId, p: Proc<S>): Sys<S> {
    s.(procs := s.procs[w := p])
  }

  function Take<S>(s: Sys<S>, w: WorkerId, p: Proc<S>): Sys<S> {
    Move(s, w, p).(db := s.db.(lock := Some(w)))
  }

  function Drop<S>(s: Sys<S>, w: WorkerId, p: Proc<S>): Sys<S> {
    Move(s, w, p).(db := s.db.(lock := None))
  }

  function Recorded(h: History, folds: seq<Event>): History {
    h.(applied := h.applied + folds, contributed := h.contributed + folds, threw := h.threw - Ids(folds))
  }

  function Thrown(h: History, id: EventId): History {
    h.(threw := h.threw + {id}, everThrew := h.everThrew + {id})
  }

  function LastLedger(poll: Poll): nat {
    if poll.page == [] then poll.last else poll.page[|poll.page| - 1].ledger
  }

  // Whole-page transaction (ingestPage)

  function StepLoadCursor<S>(s: Sys<S>, w: WorkerId, c: ContractId, start: nat): Sys<S> {
    if !At(s, w).Idle? then s
    else if c in s.db.cursors then Move(s, w, Ready(c, s.db.cursors[c].pos, s.db.cursors[c].last))
    else Move(s, w, Ready(c, start, 0))
  }

  function StepFetch<S>(s: Sys<S>, w: WorkerId, page: seq<Event>): Sys<S> {
    match At(s, w)
    case Ready(c, pos, last) => Move(s, w, Fetched(Poll(c, pos, last, page)))
    case _ => s
  }

  function StepLockPage<S>(s: Sys<S>, w: WorkerId): Sys<S> {
    match At(s, w)
    case Fetched(poll) =>
      if poll.page == [] then Move(s, w, Handled(poll))
      else if s.db.lock.Some? then s
      else Take(s, w, Paging(poll, Txn(s.db.log, s.db.derived, []), 0))
    case _ => s
  }

  function StepFoldInPage<S>(apply: Handler<S>, s: Sys<S>, w: WorkerId): Sys<S> {
    match At(s, w)
    case Paging(poll, txn, k) =>
      if k >= |poll.page| || Below(poll.last, poll.page[k]) then s
      else (match FoldOne(apply, txn, poll.page[k])
            case Ok(txn') => Move(s, w, Paging(poll, txn', k + 1))
            case Err(_) => s)
    case _ => s
  }

  function StepCommitPage<S>(s: Sys<S>, w: WorkerId): Sys<S> {
    match At(s, w)
    case Paging(poll, txn, k) =>
      if k != |poll.page| then s
      else Sys(s.db.(log := txn.log, derived := txn.derived),
               s.procs[w := Committed(poll)],
               Recorded(s.hist, txn.folds))
    case _ => s
  }

  /** The page could not be folded, by a throwing handler, a lost connection or a held lock, and the
      worker goes on one event at a time. Giving up instead is `Crash`. */
  function StepFailPage<S>(s: Sys<S>, w: WorkerId): Sys<S> {
    match At(s, w)
    case Paging(poll, _, _) => Drop(s, w, NextEvent(poll, 0))
    case Fetched(poll) => if poll.page == [] then s else Move(s, w, NextEvent(poll, 0))
    case _ => s
  }

  // One event per transaction (ingestEventQuarantined)

  function StepLockEvent<S>(s: Sys<S>, w: WorkerId): Sys<S> {
    match At(s, w)
    case NextEvent(poll, i) =>
      if s.db.lock.Some? || i >= |poll.page| || Below(poll.last, poll.page[i]) then s
      else Take(s, w, Locked(poll, i))
    case _ => s
  }

  function StepInsertEvent<S>(s: Sys<S>, w: WorkerId): Sys<S> {
    match At(s, w)
    case Locked(poll, i) =>
      if i >= |poll.page| then s
      else
        var ev := poll.page[i];
        Move(s, w, if NeedsFold(s.db.log, ev) then Inserted(poll, i) else EventDone(poll, i))
        .(db := s.db.(log := InsertRaw(s.db.log, ev)))
    case _ => s
  }

  function StepFoldEvent<S>(apply: Handler<S>, s: Sys<S>, w: WorkerId): Sys<S> {
    match At(s, w)
    case Inserted(poll, i) =>
      if i >= |poll.page| then s
      else (match apply(s.db.derived, poll.page[i])
            case Ok(d) => Sys(s.db.(log := MarkFolded(s.db.log, poll.page[i].id), derived := d),
                              s.procs[w := EventDone(poll, i)],
                              Recorded(s.hist, [poll.page[i]]))
            case Err(_) => s)
    case _ => s
  }

  function StepThrowEvent<S>(s: Sys<S>, w: WorkerId): Sys<S> {
    match At(s, w)
    case Inserted(poll, i) =>
      if i >= |poll.page| then s
      else Move(s, w, Threw(poll, i)).(hist := Thrown(s.hist, poll.page[i].id))
    case _ => s
  }

  function StepRecordFailure<S>(s: Sys<S>, w: WorkerId, recorded: bool): Sys<S> {
    match At(s, w)
    case Threw(poll, i) =>
      if i >= |poll.page| then s
      else
        var id := poll.page[i].id;
        if recorded then
          Move(s, w, EventDone(poll, i))
          .(db := s.db.(failed := s.db.failed[id := false]),
            hist := s.hist.(unrecorded := s.hist.unrecorded - {id}, cleared := s.hist.cleared - {id}))
        else Move(s, w, EventDone(poll, i)).(hist := s.hist.(unrecorded := s.hist.unrecorded + {id}))
    case _ => s
  }

  function StepRelease<S>(s: Sys<S>, w: WorkerId): Sys<S> {
    match At(s, w)
    case Committed(poll) => Drop(s, w, Handled(poll))
    case EventDone(poll, i) =>
      Drop(s, w, if i + 1 >= |poll.page| then Handled(poll) else NextEvent(poll, i + 1))
    case Finished => Drop(s, w, Idle)
    case _ => s
  }

  /** An unconditional overwrite, whatever another worker saved meanwhile. */
  function StepSaveCursor<S>(s: Sys<S>, w: WorkerId): Sys<S> {
    match At(s, w)
    case Handled(poll) =>
      var cur := Cursor(poll.pos + |poll.page|, LastLedger(poll));
      Move(s, w, Ready(poll.contract, cur.pos, cur.last))
      .(db := s.db.(cursors := s.db.cursors[poll.contract := cur]))
    case _ => s
  }

  // Replay of one quarantined event (replayFailedEvent)

  function StepLockReplay<S>(s: Sys<S>, w: WorkerId, id: EventId): Sys<S> {
    if !At(s, w).Idle? || s.db.lock.Some? then s else Take(s, w, Replaying(id))
  }

  function StepReadReplay<S>(s: Sys<S>, w: WorkerId): Sys<S> {
    match At(s, w)
    case Replaying(id) =>
      if id !in s.db.failed || s.db.failed[id] || id !in s.db.log then Move(s, w, Finished)
      else if s.db.log[id].folded then
        Move(s, w, Finished).(db := s.db.(failed := s.db.failed[id := true]))
      else Move(s, w, Found(s.db.log[id].ev))
    case _ => s
  }

  function StepFoldReplay<S>(apply: Handler<S>, s: Sys<S>, w: WorkerId): Sys<S> {
    match At(s, w)
    case Found(ev) => (
      match apply(s.db.derived, ev)
      case Ok(d) =>
        Sys(s.db.(log := MarkFolded(s.db.log, ev.id), derived := d,
                  failed := if ev.id in s.db.failed then s.db.failed[ev.id := true] else s.db.failed),
            s.procs[w := Finished],
            Recorded(s.hist, [ev]))
      case Err(_) => s)
    case _ => s
  }

  /** The failed_events row is kept, with the new error. */
  function StepThrowReplay<S>(s: Sys<S>, w: WorkerId): Sys<S> {
    match At(s, w)
    case Found(ev) => Move(s, w, Finished).(hist := Thrown(s.hist, ev.id))
    case _ => s
  }

  // Rebuild (reindexFromEventLog), contract change (resetForContractChange), operators

  function StepLockRebuild<S>(s: Sys<S>, w: WorkerId): Sys<S> {
    if !At(s, w).Idle? || s.db.lock.Some? then s else Take(s, w, Rebuilding(s.db.log))
  }

  function AllResolved(failed: map<EventId, bool>): map<EventId, bool> {
    map id | id in failed :: true
  }

  function StepCommitRebuild<S>(apply: Handler<S>, init: S, s: Sys<S>, w: WorkerId): Sys<S> {
    match At(s, w)
    case Rebuilding(snapshot) => (
      match Fold(apply, init, Sorted(snapshot))
      case Ok(d) =>
        Sys(s.db.(derived := d, failed := AllResolved(s.db.failed)),
            s.procs[w := Finished],
            s.hist.(contributed := Sorted(snapshot),
                    stale := snapshot.Keys - FoldedIds(snapshot),
                    wiped := {},
                    cleared := s.hist.cleared + s.db.failed.Keys))
      case Err(_) => Move(s, w, Finished))
    case _ => s
  }

  /** The derived tables and every cursor are wiped; `folded_at` stays as it is. */
  function StepReset<S>(init: S, s: Sys<S>): Sys<S> {
    if s.db.lock.Some? then s
    else s.(db := s.db.(derived := init, cursors := map[]),
            hist := s.hist.(contributed := [], stale := {}, wiped := FoldedIds(s.db.log)))
  }

  function StepResolve<S>(s: Sys<S>, id: EventId): Sys<S> {
    if id !in s.db.failed then s
    else s.(db := s.db.(failed := s.db.failed[id := true]), hist := s.hist.(cleared := s.hist.cleared + {id}))
  }

  /** Retention removes resolved rows only. */
  function StepExpire<S>(s: Sys<S>, id: EventId): Sys<S> {
    if id in s.db.failed && s.db.failed[id] then s.(db := s.db.(failed := s.db.failed - {id})) else s
  }

  /** The process dies: its open transaction rolls back and its session lock is released. */
  function StepCrash<S>(s: Sys<S>, w: WorkerId): Sys<S> {
    if s.db.lock == Some(w) then Drop(s, w, Idle) else Move(s, w, Idle)
  }

  function Step<S>(apply: Handler<S>, init: S, s: Sys<S>, w: WorkerId, a: Action): Sys<S> {
    match a
    case LoadCursor(c, start) => StepLoadCursor(s, w, c, start)
    case Fetch(page) => StepFetch(s, w, page)
    case LockPage => StepLockPage(s, w)
    case FoldInPage => StepFoldInPage(apply, s, w)
    case CommitPage => StepCommitPage(s, w)
    case FailPage => StepFailPage(s, w)
    case LockEvent => StepLockEvent(s, w)
    case InsertEvent => StepInsertEvent(s, w)
    case FoldEvent => StepFoldEvent(apply, s, w)
    case ThrowEvent => StepThrowEvent(s, w)
    case RecordFailure(recorded) => StepRecordFailure(s, w, recorded)
    case Release => StepRelease(s, w)
    case SaveCursor => StepSaveCursor(s, w)
    case LockReplay(id) => StepLockReplay(s, w, id)
    case ReadReplay => StepReadReplay(s, w)
    case FoldReplay => StepFoldReplay(apply, s, w)
    case ThrowReplay => StepThrowReplay(s, w)
    case LockRebuild => StepLockRebuild(s, w)
    case CommitRebuild => StepCommitRebuild(apply, init, s, w)
    case Reset => StepReset(init, s)
    case Resolve(id) => StepResolve(s, id)
    case Expire(id) => StepExpire(s, id)
    case Crash => StepCrash(s, w)
  }

  function Start<S>(init: S): Sys<S> {
    Sys(Db(map[], init, map[], map[], None), map[], History([], [], {}, {}, {}, {}, {}, {}))
  }

  type Run = seq<(WorkerId, Action)>

  /** The state after a run from `s`: who acts, and what it does, in order. */
  function ExecFrom<S>(apply: Handler<S>, init: S, s: Sys<S>, run: Run): Sys<S> {
    if run == [] then s
    else
      var (w, a) := run[|run| - 1];
      Step(apply, init, ExecFrom(apply, init, s, run[..|run| - 1]), w, a)
  }

  function Exec<S>(apply: Handler<S>, init: S, run: Run): Sys<S> {
    ExecFrom(apply, init, Start(init), run)
  }

  lemma {:induction false} ExecAppend<S>(apply: Handler<S>, init: S, s: Sys<S>, run: Run, more: Run)
    ensures ExecFrom(apply, init, s, run + more) == ExecFrom(apply, init, ExecFrom(apply, init, s, run), more)
  {
    if more == [] {
      assert run + more == run;
    } else {
      ExecAppend(apply, init, s, run, more[..|more| - 1]);
      assert (run + more)[..|run + more| - 1] == run + more[..|more| - 1];
    }
  }

  lemma ExecCons<S>(apply: Handler<S>, init: S, s: Sys<S>, w: WorkerId, a: Action, rest: Run)
    ensures ExecFrom(apply, init, s, [(w, a)] + rest) == ExecFrom(apply, init, Step(apply, init, s, w, a), rest)
  {
    hide Step;
    ExecAppend(apply, init, s, [(w, a)], rest);
    assert [(w, a)][..0] == [];
  }

  lemma ExecSnoc<S>(apply: Handler<S>, init: S, s: Sys<S>, run: Run, w: WorkerId, a: Action)
    ensures ExecFrom(apply, init, s, run + [(w, a)]) == Step(apply, init, ExecFrom(apply, init, s, run), w, a)
  {
    hide Step;
    assert (run + [(w, a)])[..|run|] == run;
  }

  lemma ExecTwo<S>(apply: Handler<S>, init: S, s: Sys<S>, v: WorkerId, a: Action, w: WorkerId, b: Action)
    ensures ExecFrom(apply, init, s, [(v, a), (w, b)]) == Step(apply, init, Step(apply, init, s, v, a), w, b)
  {
    hide Step;
    ExecSnoc(apply, init, s, [], v, a);
    ExecSnoc(apply, init, s, [(v, a)], w, b);
    assert [] + [(v, a)] == [(v, a)] && [(v, a)] + [(w, b)] == [(v, a), (w, b)];
  }

  lemma ExecThree<S>(apply: Handler<S>, init: S, s: Sys<S>, v: WorkerId, a: Action, w: WorkerId, b: Action, c: Action)
    ensures ExecFrom(apply, init, s, [(v, a), (w, b), (w, c)])
            == Step(apply, init, Step(apply, init, Step(apply, init, s, v, a), w, b), w, c)
  {
    hide Step;
    ExecTwo(apply, init, s, v, a, w, b);
    ExecSnoc(apply, init, s, [(v, a), (w, b)], w, c);
    assert [(v, a), (w, b)] + [(w, c)] == [(v, a), (w, b), (w, c)];
  }

  predicate PollerStep(a: Action) {
    a.LoadCursor? || a.Fetch? || a.LockPage? || a.FoldInPage? || a.CommitPage? || a.FailPage? || a.LockEvent?
    || a.InsertEvent? || a.FoldEvent? || a.ThrowEvent? || a.RecordFailure?
  }

  lemma PollerStepFrame<S>(apply: Handler<S>, init: S, s: Sys<S>, w: WorkerId, a: Action, v: WorkerId)
    requires PollerStep(a)
    ensures var s' := Step(apply, init, s, w, a);
            s'.db.cursors == s.db.cursors && (w != v ==> At(s', v) == At(s, v))
  {
    hide FoldOne, InsertRaw, MarkFolded, Recorded, Thrown, NeedsFold;
  }

  lemma OtherStepFrame<S>(apply: Handler<S>, init: S, s: Sys<S>, w: WorkerId, a: Action, v: WorkerId)
    requires !PollerStep(a)
    ensures var s' := Step(apply, init, s, w, a);
            (!a.SaveCursor? && !a.Reset? ==> s'.db.cursors == s.db.cursors) && (w != v ==> At(s', v) == At(s, v))
  {
    hide Fold, Sorted, MarkFolded, FoldedIds, AllResolved, Recorded, Thrown, LastLedger;
  }

  /** Only saving and resetting touch the cursors, and no step moves another worker. */
  lemma StepFrame<S>(apply: Handler<S>, init: S, s: Sys<S>, w: WorkerId, a: Action, v: WorkerId)
    ensures var s' := Step(apply, init, s, w, a);
            (!a.SaveCursor? && !a.Reset? ==> s'.db.cursors == s.db.cursors) && (w != v ==> At(s', v) == At(s, v))
  {
    hide Step, At;
    if PollerStep(a) {
      PollerStepFrame(apply, init, s, w, a, v);
    } else {
      OtherStepFrame(apply, init, s, w, a, v);
    }
  }
}
