/**
 * Two ways to ingest a page: the whole page in one transaction (`ingestPage`), and one event per
 * transaction once a page is taken to be stuck (`ingestEventQuarantined`). The second refines the first.
 */
module PageModes {
  import opened Outcomes
  import opened Events
  import opened EventLog

  /** How an ingestion ended: done, a ReorgDetectedError, or any other error. */
  datatype Verdict<+T> = Done(value: T) | Diverged | Threw(message: string)

  /** The loop of `ingestPage` between BEGIN and COMMIT. */
  function IngestPage<S>(apply: Handler<S>, t: Txn<S>, page: seq<Event>, last: nat): Verdict<Txn<S>> {
    if page == [] then Done(t)
    else
      match IngestPage(apply, t, page[..|page| - 1], last)
      case Done(t1) => (
        var ev := page[|page| - 1];
        if Below(last, ev) then Diverged
        else match FoldOne(apply, t1, ev)
             case Ok(t2) => Done(t2)
             case Err(m) => Threw(m))
      case other => other
  }

  datatype FailedRow = FailedRow(error: string, resolved: bool)

  /** What per-event mode reads and writes. */
  datatype Books<+S> = Books(txn: Txn<S>, failed: map<EventId, FailedRow>)

  /** What the database does around one event: whether the advisory lock is free, an SQL error before the fold
      transaction begins, an error in it other than the handler's, and whether the failed_events insert
      succeeds. */
  datatype Luck = Luck(lockFree: bool, rawError: Option<string>, sqlError: Option<string>, recorded: bool)

  const FAIR := Luck(true, None, None, true)

  const EVENT_LOCK_HELD := "Cannot fold quarantined event: reindex is currently in progress (advisory lock held)"

  function Tried<S>(apply: Handler<S>, d: S, ev: Event, luck: Luck): Outcome<S> {
    match luck.sqlError
    case Some(m) => Err(m)
    case None => apply(d, ev)
  }

  /** `ingestEventQuarantined`: the raw row is kept even when the fold throws. */
  function IngestEvent<S>(apply: Handler<S>, b: Books<S>, ev: Event, last: nat, luck: Luck): Verdict<Books<S>> {
    if Below(last, ev) then Diverged
    else if !luck.lockFree then Threw(EVENT_LOCK_HELD)
    else if luck.rawError.Some? then Threw(luck.rawError.value)
    else
      var log := InsertRaw(b.txn.log, ev);
      if !NeedsFold(b.txn.log, ev) then Done(b.(txn := b.txn.(log := log)))
      else
        match Tried(apply, b.txn.derived, ev, luck)
        case Ok(d) => Done(b.(txn := Txn(MarkFolded(log, ev.id), d, b.txn.folds + [ev])))
        case Err(m) =>
          Done(Books(b.txn.(log := log), if luck.recorded then b.failed[ev.id := FailedRow(m, false)] else b.failed))
  }

  /** Events already committed stay so when a later one stops the loop. */
  datatype Progress<+S> = Progress(books: Books<S>, verdict: Verdict<()>)

  function LuckAt(lucks: seq<Luck>, i: nat): Luck {
    if i < |lucks| then lucks[i] else FAIR
  }

  /** The per-event loop of `ingestPageWithQuarantine`. */
  function IngestEvents<S>(apply: Handler<S>, b: Books<S>, page: seq<Event>, last: nat, lucks: seq<Luck>): Progress<S> {
    if page == [] then Progress(b, Done(()))
    else
      var n := |page| - 1;
      var p := IngestEvents(apply, b, page[..n], last, lucks);
      if !p.verdict.Done? then p
      else
        match IngestEvent(apply, p.books, page[n], last, LuckAt(lucks, n))
        case Done(b') => Progress(b', Done(()))
        case Diverged => Progress(p.books, Diverged)
        case Threw(m) => Progress(p.books, Threw(m))
  }

  /** An event whose fold throws, in its handler or in the database: its row is kept as not folded, the tables and the
      other failures stay as they were, and the error is recorded as unresolved if the database takes that insert. */
  lemma ThrowingEventIsRecorded<S>(apply: Handler<S>, b: Books<S>, ev: Event, last: nat, luck: Luck, m: string)
    requires ev.ledger >= last && luck.lockFree && luck.rawError.None?
    requires ev.id in b.txn.log ==> !b.txn.log[ev.id].folded
    requires luck.sqlError == Some(m) || (luck.sqlError.None? && apply(b.txn.derived, ev) == Err(m))
    ensures IngestEvent(apply, b, ev, last, luck).Done?
    ensures var b' := IngestEvent(apply, b, ev, last, luck).value;
            && b'.txn.derived == b.txn.derived && b'.txn.folds == b.txn.folds
            && b'.txn.log.Keys == b.txn.log.Keys + {ev.id} && !b'.txn.log[ev.id].folded
            && b'.txn.log[ev.id] == (if ev.id in b.txn.log then b.txn.log[ev.id] else Row(ev, false))
            && b'.txn.log - {ev.id} == b.txn.log - {ev.id}
            && b'.failed - {ev.id} == b.failed - {ev.id}
            && (luck.recorded ==> ev.id in b'.failed && b'.failed[ev.id] == FailedRow(m, false))
            && (!luck.recorded ==> b'.failed == b.failed)
  {
  }

  /** Inside a page transaction an event whose row is marked changes nothing, and any other is applied once: its row,
      the stored one if there is one, is marked, and no other row changes. */
  lemma FoldedOnceAndMarked<S>(apply: Handler<S>, t: Txn<S>, ev: Event)
    ensures ev.id in t.log && t.log[ev.id].folded ==> FoldOne(apply, t, ev) == Ok(t)
    ensures !(ev.id in t.log && t.log[ev.id].folded) ==>
              match apply(t.derived, ev)
              case Err(m) => FoldOne(apply, t, ev) == Err(m)
              case Ok(d) =>
                var row := if ev.id in t.log then t.log[ev.id].ev else ev;
                FoldOne(apply, t, ev) == Ok(Txn(t.log[ev.id := Row(row, true)], d, t.folds + [ev]))
  {
    assert ev.id !in t.log ==> t.log[ev.id := Row(ev, false)][ev.id := Row(ev, true)] == t.log[ev.id := Row(ev, true)];
  }

  /** Folding one event inside a page transaction, as a handler on transactions. */
  function InPage<S>(apply: Handler<S>): Handler<Txn<S>> {
    (t, ev) => FoldOne(apply, t, ev)
  }

  /** Page mode is the left fold of that handler. */
  lemma {:induction false} PageModeIsFold<S>(apply: Handler<S>, t: Txn<S>, page: seq<Event>, last: nat)
    requires forall e :: e in page ==> !Below(last, e)
    ensures IngestPage(apply, t, page, last) ==
            match Fold(InPage(apply), t, page) { case Ok(t') => Done(t') case Err(m) => Threw(m) }
  {
    if page != [] {
      PageModeIsFold(apply, t, page[..|page| - 1], last);
    }
  }

  /** The same rows are marked folded; `e` may hold further rows that are not. */
  ghost predicate LogAgrees(e: Log, f: Log) {
    f.Keys <= e.Keys && FoldedIds(e) == FoldedIds(f)
  }

  ghost predicate Agrees<S>(e: Txn<S>, f: Txn<S>) {
    e.derived == f.derived && e.folds == f.folds && LogAgrees(e.log, f.log)
  }

  lemma LogStepsAgree(e: Log, f: Log, ev: Event)
    requires LogAgrees(e, f)
    ensures NeedsFold(e, ev) <==> NeedsFold(f, ev)
    ensures LogAgrees(MarkFolded(InsertRaw(e, ev), ev.id), MarkFolded(InsertRaw(f, ev), ev.id))
    ensures NeedsFold(e, ev) ==> LogAgrees(InsertRaw(e, ev), f)
    ensures !NeedsFold(e, ev) ==> LogAgrees(InsertRaw(e, ev), InsertRaw(f, ev))
  {
    MarkedIds(e, ev);
    MarkedIds(f, ev);
    InsertedKeys(e, ev);
    InsertedKeys(f, ev);
    assert NeedsFold(e, ev) <==> ev.id !in FoldedIds(e);
    assert NeedsFold(f, ev) <==> ev.id !in FoldedIds(f);
    hide FoldedIds, InsertRaw, MarkFolded;
  }

  lemma InsertedKeys(log: Log, ev: Event)
    ensures InsertRaw(log, ev).Keys == log.Keys + {ev.id}
    ensures MarkFolded(InsertRaw(log, ev), ev.id).Keys == log.Keys + {ev.id}
  {
  }

  /** One event of a page transaction, rolled back if it throws. */
  lemma AttemptInPage<S>(apply: Handler<S>, f: Txn<S>, ev: Event)
    ensures Attempt(InPage(apply), f, ev) ==
            if !NeedsFold(f.log, ev) then f.(log := InsertRaw(f.log, ev))
            else match apply(f.derived, ev) {
              case Ok(d) => Txn(MarkFolded(InsertRaw(f.log, ev), ev.id), d, f.folds + [ev])
              case Err(_) => f
            }
  {
    assert InPage(apply)(f, ev) == FoldOne(apply, f, ev);
    hide InsertRaw, MarkFolded;
  }

  /** The event stops the per-event pass: it diverges, or its transaction is never reached. */
  predicate Stops(last: nat, ev: Event, luck: Luck) {
    Below(last, ev) || !luck.lockFree || luck.rawError.Some?
  }

  /** How many events of a page the pass deals with. */
  function Reached(page: seq<Event>, last: nat, lucks: seq<Luck>): (k: nat)
    ensures k <= |page|
    ensures k < |page| ==> Stops(last, page[k], LuckAt(lucks, k))
    ensures forall i :: 0 <= i < k ==> !Stops(last, page[i], LuckAt(lucks, i))
  {
    if page == [] then 0
    else
      var n := |page| - 1;
      var k := Reached(page[..n], last, lucks);
      if k < n || Stops(last, page[n], LuckAt(lucks, n)) then k else n + 1
  }

  /** The events whose handler runs to its end: all but those that an SQL error rolls back. */
  function Attempted(page: seq<Event>, lucks: seq<Luck>): seq<Event> {
    if page == [] then []
    else
      var n := |page| - 1;
      Attempted(page[..n], lucks) + (if LuckAt(lucks, n).sqlError.None? then [page[n]] else [])
  }

  lemma StepAgrees<S>(apply: Handler<S>, b: Books<S>, f: Txn<S>, ev: Event, last: nat, luck: Luck)
    requires Agrees(b.txn, f) && !Stops(last, ev, luck)
    ensures var r := IngestEvent(apply, b, ev, last, luck);
            r.Done? && Agrees(r.value.txn, if luck.sqlError.None? then Attempt(InPage(apply), f, ev) else f)
  {
    AttemptInPage(apply, f, ev);
    LogStepsAgree(b.txn.log, f.log, ev);
    assert !NeedsFold(b.txn.log, ev) ==> InsertRaw(b.txn.log, ev) == b.txn.log;
    hide LogAgrees, Attempt, InsertRaw, MarkFolded, NeedsFold;
  }

  lemma StopVerdict<S>(apply: Handler<S>, b: Books<S>, ev: Event, last: nat, luck: Luck)
    requires Stops(last, ev, luck)
    ensures var r := IngestEvent(apply, b, ev, last, luck); !r.Done? && (r.Diverged? <==> Below(last, ev))
  {
  }

  /** For every page and state, and whatever the database does: per-event mode deals with the events up to the
      first that diverges or whose transaction is not reached, gets through if there is none and raises if
      that one diverges, and ends with the tables of the left fold in which a throwing event is rolled back
      and leaves everything derived as it was. */
  lemma {:induction false} EventModeIsSkippingFold<S>(apply: Handler<S>, b: Books<S>, page: seq<Event>, last: nat,
                                                      lucks: seq<Luck>)
    ensures var p := IngestEvents(apply, b, page, last, lucks);
            var k := Reached(page, last, lucks);
            && (p.verdict.Done? <==> k == |page|)
            && (p.verdict.Diverged? <==> k < |page| && Below(last, page[k]))
            && Agrees(p.books.txn, FoldSkipping(InPage(apply), b.txn, Attempted(page[..k], lucks)))
  {
    if page == [] {
      assert Agrees(b.txn, b.txn);
    } else {
      hide IngestEvent, Attempt, Agrees, Stops;
      var n := |page| - 1;
      EventModeIsSkippingFold(apply, b, page[..n], last, lucks);
      var p, k, luck := IngestEvents(apply, b, page[..n], last, lucks), Reached(page[..n], last, lucks),
        LuckAt(lucks, n);
      assert page[..n][..k] == page[..k];
      if k == n {
        if Stops(last, page[n], luck) {
          StopVerdict(apply, p.books, page[n], last, luck);
        } else {
          var evs := Attempted(page[..n], lucks);
          StepAgrees(apply, p.books, FoldSkipping(InPage(apply), b.txn, evs), page[n], last, luck);
          FoldSkippingSnoc(InPage(apply), b.txn, evs, page[n]);
          assert page[..n + 1] == page && page[..n][..n] == page[..n];
          assert evs + [] == evs;
        }
      }
    }
  }

  /** When nothing throws, per-event mode leaves exactly what the page transaction would have committed,
      and records no failure. */
  lemma {:induction false} ModesCoincideWhenNothingThrows<S>(apply: Handler<S>, b: Books<S>, page: seq<Event>,
                                                             last: nat)
    requires IngestPage(apply, b.txn, page, last).Done?
    ensures IngestEvents(apply, b, page, last, []) ==
            Progress(Books(IngestPage(apply, b.txn, page, last).value, b.failed), Done(()))
  {
    if page != [] {
      ModesCoincideWhenNothingThrows(apply, b, page[..|page| - 1], last);
    }
  }

  /** The events of a page that are not folded yet. */
  function Pending(log: Log, page: seq<Event>): seq<Event> {
    if page == [] then []
    else
      var rest := Pending(log, page[..|page| - 1]);
      var ev := page[|page| - 1];
      if NeedsFold(log, ev) then rest + [ev] else rest
  }

  /** Handling one event changes what is pending for that event only. */
  lemma AttemptIsLocal<S>(apply: Handler<S>, f: Txn<S>, ev: Event, e: Event)
    requires e.id != ev.id
    ensures NeedsFold(Attempt(InPage(apply), f, ev).log, e) <==> NeedsFold(f.log, e)
  {
    AttemptInPage(apply, f, ev);
    hide Attempt;
  }

  lemma {:induction false} PendingIsLocal<S>(apply: Handler<S>, t: Txn<S>, page: seq<Event>, e: Event)
    requires e.id !in Ids(page)
    ensures NeedsFold(FoldSkipping(InPage(apply), t, page).log, e) <==> NeedsFold(t.log, e)
  {
    if page != [] {
      hide Attempt, NeedsFold;
      var n := |page| - 1;
      assert page[n] in page && page[n].id in Ids(page);
      assert Ids(page[..n]) <= Ids(page);
      PendingIsLocal(apply, t, page[..n], e);
      AttemptIsLocal(apply, FoldSkipping(InPage(apply), t, page[..n]), page[n], e);
    }
  }

  lemma {:induction false} SkippingFoldOfPending<S>(apply: Handler<S>, t: Txn<S>, page: seq<Event>)
    requires Distinct(page)
    ensures FoldSkipping(InPage(apply), t, page).derived == FoldSkipping(apply, t.derived, Pending(t.log, page))
  {
    if page != [] {
      var n := |page| - 1;
      var ev := page[n];
      assert ev.id !in Ids(page[..n]) && Distinct(page[..n]) by {
        assert page == page[..n] + [ev];
        DistinctSnoc(page[..n], ev);
      }
      SkippingFoldOfPending(apply, t, page[..n]);
      PendingIsLocal(apply, t, page[..n], ev);
      FoldSkippingSnoc(apply, t.derived, Pending(t.log, page[..n]), ev);
      AttemptInPage(apply, FoldSkipping(InPage(apply), t, page[..n]), ev);
      hide NeedsFold;
    }
  }

  lemma {:induction false} AttemptedAreDistinct(page: seq<Event>, lucks: seq<Luck>)
    requires Distinct(page)
    ensures Distinct(Attempted(page, lucks)) && Ids(Attempted(page, lucks)) <= Ids(page)
  {
    if page != [] {
      var n := |page| - 1;
      assert page == page[..n] + [page[n]];
      DistinctSnoc(page[..n], page[n]);
      AttemptedAreDistinct(page[..n], lucks);
      DistinctSnoc(Attempted(page[..n], lucks), page[n]);
      assert Attempted(page[..n], lucks) + [] == Attempted(page[..n], lucks);
    }
  }

  /** On a page of distinct events, per-event mode folds exactly those it reaches and that were not folded yet,
      in order, each once, and a throwing one leaves the tables unchanged. */
  lemma EventModeFoldsPending<S>(apply: Handler<S>, b: Books<S>, page: seq<Event>, last: nat, lucks: seq<Luck>)
    requires Distinct(page)
    ensures IngestEvents(apply, b, page, last, lucks).books.txn.derived
            == FoldSkipping(apply, b.txn.derived,
                            Pending(b.txn.log, Attempted(page[..Reached(page, last, lucks)], lucks)))
  {
    var reached := page[..Reached(page, last, lucks)];
    assert Distinct(reached);
    EventModeIsSkippingFold(apply, b, page, last, lucks);
    AttemptedAreDistinct(reached, lucks);
    SkippingFoldOfPending(apply, b.txn, Attempted(reached, lucks));
  }
}
