/** Re-folding one quarantined event from its stored row (src/indexer/replay.ts). */
module Replaying {
  import opened Outcomes
  import opened Events
  import opened EventLog
  import opened PageModes

  datatype ReplayOutcome =
    | Replayed
    | AlreadyResolved
    | StillFailing(error: string)
    | LockHeld                    // the rest are errors that `replayFailedEvent` throws
    | SqlFailed(message: string)
    | Inconsistent

  predicate Outstanding(failed: map<EventId, FailedRow>, id: EventId) {
    id in failed && !failed[id].resolved
  }

  /** `replayFailedEvent`. */
  function Replay<S>(apply: Handler<S>, b: Books<S>, id: EventId, luck: Luck): (Books<S>, ReplayOutcome) {
    if !luck.lockFree then (b, LockHeld)
    else if luck.rawError.Some? then (b, SqlFailed(luck.rawError.value))
    else if !Outstanding(b.failed, id) then (b, AlreadyResolved)
    else if id !in b.txn.log then (b, Inconsistent)
    else
      var resolved := b.failed[id := b.failed[id].(resolved := true)];
      if b.txn.log[id].folded then (b.(failed := resolved), AlreadyResolved)
      else
        var ev := b.txn.log[id].ev;
        match Tried(apply, b.txn.derived, ev, luck)
        case Ok(d) => (Books(Txn(MarkFolded(b.txn.log, id), d, b.txn.folds + [ev]), resolved), Replayed)
        case Err(m) => (b.(failed := b.failed[id := b.failed[id].(error := m)]), StillFailing(m))
  }

  predicate Throws(outcome: ReplayOutcome) {
    outcome.LockHeld? || outcome.SqlFailed? || outcome.Inconsistent?
  }

  predicate Stopped(outcomes: seq<ReplayOutcome>) {
    outcomes != [] && Throws(outcomes[|outcomes| - 1])
  }

  /** `replayAllUnresolvedFailedEvents`, over the ids it selected: an error ends the loop, a handler that still
      fails does not. */
  function ReplayAll<S>(apply: Handler<S>, b: Books<S>, ids: seq<EventId>, lucks: seq<Luck>)
    : (Books<S>, seq<ReplayOutcome>) {
    if ids == [] then (b, [])
    else
      var n := |ids| - 1;
      var (b1, outcomes) := ReplayAll(apply, b, ids[..n], lucks);
      if Stopped(outcomes) then (b1, outcomes)
      else
        var (b2, outcome) := Replay(apply, b1, ids[n], LuckAt(lucks, n));
        (b2, outcomes + [outcome])
  }

  /** One replay concerns one event: no other row, failure or mark changes, no row is added or removed, and
      the handler runs only if the event was not folded. */
  lemma ReplayIsLocal<S>(apply: Handler<S>, b: Books<S>, id: EventId, luck: Luck, other: EventId)
    requires other != id
    ensures var (b', _) := Replay(apply, b, id, luck);
            && b'.txn.log.Keys == b.txn.log.Keys && b'.failed.Keys == b.failed.Keys
            && (other in b.txn.log ==> b'.txn.log[other] == b.txn.log[other])
            && (other in b.failed ==> b'.failed[other] == b.failed[other])
            && (id in FoldedIds(b.txn.log) ==> b'.txn == b.txn)
  {
  }

  /** What a replayed event is left as, by the outcome reported for it. */
  ghost predicate Reported<S>(b: Books<S>, id: EventId, outcome: ReplayOutcome) {
    match outcome
    case Replayed => id in b.failed && b.failed[id].resolved && id in FoldedIds(b.txn.log)
    case StillFailing(m) => id in b.failed && b.failed[id] == FailedRow(m, false) && id in b.txn.log
      && id !in FoldedIds(b.txn.log)
    case AlreadyResolved => !Outstanding(b.failed, id)
    case LockHeld => true
    case SqlFailed(_) => true
    case Inconsistent => Outstanding(b.failed, id) && id !in b.txn.log
  }

  lemma ReplayReports<S>(apply: Handler<S>, b: Books<S>, id: EventId, luck: Luck)
    ensures var (b', outcome) := Replay(apply, b, id, luck); Reported(b', id, outcome)
  {
  }

  lemma ReportStands<S>(apply: Handler<S>, b: Books<S>, id: EventId, luck: Luck, other: EventId, outcome: ReplayOutcome)
    requires other != id && Reported(b, other, outcome)
    ensures Reported(Replay(apply, b, id, luck).0, other, outcome)
  {
    ReplayIsLocal(apply, b, id, luck, other);
  }

  /** The replay of an event throws: the lock is held, an SQL error comes before the fold, or the event has an
      unresolved failure but no row. */
  predicate Blocked<S>(b: Books<S>, id: EventId, luck: Luck) {
    !luck.lockFree || luck.rawError.Some? || (Outstanding(b.failed, id) && id !in b.txn.log)
  }

  lemma ThrowsIffBlocked<S>(apply: Handler<S>, b: Books<S>, id: EventId, luck: Luck)
    ensures Throws(Replay(apply, b, id, luck).1) <==> Blocked(b, id, luck)
  {
  }

  lemma BlockedStays<S>(apply: Handler<S>, b: Books<S>, id: EventId, luck: Luck, other: EventId, luck': Luck)
    requires other != id
    ensures Blocked(Replay(apply, b, id, luck).0, other, luck') <==> Blocked(b, other, luck')
  {
    ReplayIsLocal(apply, b, id, luck, other);
  }

  /** Replays of other events do not change whether one is blocked. */
  lemma {:induction false} BlockedAtTheStart<S>(apply: Handler<S>, b: Books<S>, ids: seq<EventId>, lucks: seq<Luck>,
                                                id: EventId, luck: Luck)
    requires id !in ids
    ensures Blocked(ReplayAll(apply, b, ids, lucks).0, id, luck) <==> Blocked(b, id, luck)
  {
    if ids != [] {
      hide Replay, Blocked, Stopped;
      var n := |ids| - 1;
      BlockedAtTheStart(apply, b, ids[..n], lucks, id, luck);
      BlockedStays(apply, ReplayAll(apply, b, ids[..n], lucks).0, ids[n], LuckAt(lucks, n), id, luck);
    }
  }

  /** How many of the selected events are replayed before, and with, the first that is blocked. */
  ghost predicate StopsFirstAt<S>(b: Books<S>, ids: seq<EventId>, lucks: seq<Luck>, k: nat) {
    && k < |ids| && Blocked(b, ids[k], LuckAt(lucks, k))
    && forall i :: 0 <= i < k ==> !Blocked(b, ids[i], LuckAt(lucks, i))
  }

  /** The loop stops if and only if one of the selected events was blocked to begin with, and at the first such;
      a handler that still fails never stops it. */
  lemma {:induction false} LoopStopsIffBlocked<S>(apply: Handler<S>, b: Books<S>, ids: seq<EventId>, lucks: seq<Luck>)
    requires forall i, j :: 0 <= i < j < |ids| ==> ids[i] != ids[j]
    ensures var outcomes := ReplayAll(apply, b, ids, lucks).1;
            && (Stopped(outcomes) <==> exists i :: 0 <= i < |ids| && Blocked(b, ids[i], LuckAt(lucks, i)))
            && (if Stopped(outcomes) then StopsFirstAt(b, ids, lucks, |outcomes| - 1) else |outcomes| == |ids|)
  {
    if ids != [] {
      hide Replay, Blocked, Throws;
      var n := |ids| - 1;
      var before, luck := ids[..n], LuckAt(lucks, n);
      LoopStopsIffBlocked(apply, b, before, lucks);
      var (b1, outcomes) := ReplayAll(apply, b, before, lucks);
      if Stopped(outcomes) {
        assert Blocked(b, ids[|outcomes| - 1], LuckAt(lucks, |outcomes| - 1));
      } else {
        assert forall i :: 0 <= i < n ==> before[i] == ids[i];
        ThrowsIffBlocked(apply, b1, ids[n], luck);
        BlockedAtTheStart(apply, b, before, lucks, ids[n], luck);
      }
    }
  }

  /** The selected events get their outcomes in turn, and at the end each outcome still describes how its event
      was left. */
  lemma {:induction false} EveryEventGetsItsOutcome<S>(apply: Handler<S>, b: Books<S>, ids: seq<EventId>,
                                                       lucks: seq<Luck>)
    requires forall i, j :: 0 <= i < j < |ids| ==> ids[i] != ids[j]
    ensures var (b', outcomes) := ReplayAll(apply, b, ids, lucks);
            && |outcomes| <= |ids| && (|outcomes| == |ids| || Stopped(outcomes))
            && (forall i :: 0 <= i < |outcomes| ==> Reported(b', ids[i], outcomes[i]))
            && (forall i :: 0 <= i < |outcomes| - 1 ==> !Throws(outcomes[i]))
  {
    if ids != [] {
      hide Replay, Reported, Throws;
      var n := |ids| - 1;
      EveryEventGetsItsOutcome(apply, b, ids[..n], lucks);
      var (b1, outcomes) := ReplayAll(apply, b, ids[..n], lucks);
      if !Stopped(outcomes) {
        ReplayReports(apply, b1, ids[n], LuckAt(lucks, n));
        forall i | 0 <= i < n
          ensures Reported(Replay(apply, b1, ids[n], LuckAt(lucks, n)).0, ids[i], outcomes[i])
        {
          assert ids[..n][i] == ids[i];
          ReportStands(apply, b1, ids[n], LuckAt(lucks, n), ids[i], outcomes[i]);
        }
      }
    }
  }

  /** Replaying again after a success changes nothing. */
  lemma ReplayIsIdempotent<S>(apply: Handler<S>, b: Books<S>, id: EventId)
    requires Replay(apply, b, id, FAIR).1 == Replayed
    ensures var b1 := Replay(apply, b, id, FAIR).0;
            Replay(apply, b1, id, FAIR) == (b1, AlreadyResolved)
  {
  }
}
