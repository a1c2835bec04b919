/**
 * Halting on a diverged chain: what every poll keeps, that nothing is folded between a halt and its
 * clearing, and that an honest RPC never causes a halt (src/indexer/poller.ts).
 */
module Halts {
  import opened Outcomes
  import opened Events
  import opened EventLog
  import opened PageModes
  import opened Quarantine
  import opened Polling

  /** `after` extends `before` by events of the page that are not below the ledger folded to. */
  ghost predicate Extends(before: seq<Event>, after: seq<Event>, page: seq<Event>, last: nat) {
    && before <= after
    && forall i :: |before| <= i < |after| ==> after[i] in page && !Below(last, after[i])
  }

  ghost predicate Continuous(page: seq<Event>, last: nat) {
    forall e :: e in page ==> !Below(last, e)
  }

  lemma ExtendsByLast(before: seq<Event>, after: seq<Event>, page: seq<Event>, last: nat)
    requires page != [] && !Below(last, page[|page| - 1])
    requires Extends(before, after, page[..|page| - 1], last) && Continuous(page[..|page| - 1], last)
    ensures Extends(before, after, page, last) && Extends(before, after + [page[|page| - 1]], page, last)
    ensures Continuous(page, last)
  {
    hide Below;
    var n := |page| - 1;
    assert page == page[..n] + [page[n]];
  }

  lemma {:induction false} PageFoldsAboveLast<S>(apply: Handler<S>, t: Txn<S>, page: seq<Event>, last: nat)
    requires IngestPage(apply, t, page, last).Done?
    ensures Extends(t.folds, IngestPage(apply, t, page, last).value.folds, page, last) && Continuous(page, last)
  {
    if page != [] {
      hide InsertRaw, MarkFolded, NeedsFold;
      var n := |page| - 1;
      PageFoldsAboveLast(apply, t, page[..n], last);
      hide Extends, Continuous;
      ExtendsByLast(t.folds, IngestPage(apply, t, page[..n], last).value.folds, page, last);
    }
  }

  /** A page transaction raises only for an event below the ledger folded to. */
  lemma {:induction false} PageRaisesOnlyBelow<S>(apply: Handler<S>, t: Txn<S>, page: seq<Event>, last: nat)
    requires Continuous(page, last)
    ensures !IngestPage(apply, t, page, last).Diverged?
  {
    if page != [] {
      PageRaisesOnlyBelow(apply, t, page[..|page| - 1], last);
      assert page[|page| - 1] in page;
    }
  }

  lemma {:induction false} EventsFoldAboveLast<S>(apply: Handler<S>, b: Books<S>, page: seq<Event>, last: nat,
                                                  lucks: seq<Luck>)
    ensures var p := IngestEvents(apply, b, page, last, lucks);
            && Extends(b.txn.folds, p.books.txn.folds, page, last)
            && (p.verdict.Done? ==> Continuous(page, last))
            && (p.verdict.Diverged? ==> !Continuous(page, last))
  {
    if page != [] {
      hide InsertRaw, MarkFolded, NeedsFold, Tried;
      var n := |page| - 1;
      EventsFoldAboveLast(apply, b, page[..n], last, lucks);
      assert page == page[..n] + [page[n]];
    }
  }

  /** On both paths: only events of the page, and none below the ledger folded to, are ever folded. */
  lemma IngestionFoldsAboveLast<S>(apply: Handler<S>, threshold: nat, w: Work<S>, c: ContractId, page: seq<Event>,
                                   last: nat, luck: PageLuck)
    ensures var (w', verdict) := IngestWithQuarantine(apply, threshold, w, c, page, last, luck);
            && Extends(w.books.txn.folds, w'.books.txn.folds, page, last)
            && (verdict.Done? ==> Continuous(page, last))
            && (verdict.Diverged? ==> !Continuous(page, last))
  {
    hide Load, Put, Escalates, IngestPage, IngestEvents;
    if IngestPage(apply, w.books.txn, page, last).Done? {
      PageFoldsAboveLast(apply, w.books.txn, page, last);
    }
    if Continuous(page, last) {
      PageRaisesOnlyBelow(apply, w.books.txn, page, last);
    }
    EventsFoldAboveLast(apply, w.books, page, last, luck.events);
  }

  /** A stored hash is an answer the RPC gave for that very ledger. */
  ghost predicate HashIsHeard(last: nat, hash: Option<Hash>, heard: set<(nat, Hash)>) {
    hash.Some? ==> (last, hash.value) in heard
  }

  ghost predicate Genuine<S>(st: Station<S>) {
    st.cursor.Some? ==> HashIsHeard(st.cursor.value.last, st.cursor.value.hash, st.heard)
  }

  function Folds<S>(st: Station<S>): seq<Event> {
    st.work.books.txn.folds
  }

  /** Every event between `before` and `after` is from the ledger `last` or a later one. */
  ghost predicate FoldsFrom(before: seq<Event>, after: seq<Event>, last: nat) {
    before <= after && forall i :: |before| <= i < |after| ==> after[i].ledger >= last
  }

  ghost predicate Tracks<S>(d: Drain, st: Station<S>) {
    && HashIsHeard(d.last, d.hash, st.heard)
    && (st.cursor.Some? ==> d.last >= st.cursor.value.last)
  }

  lemma AdvanceIsSafe<S>(cfg: Config, initial: Option<Cursor>, d: Drain, st: Station<S>, a: Answer)
    requires Genuine(st) && Tracks(d, st) && Continuous(a.events, d.last)
    ensures var (st', ending) := Advance(cfg, initial, d, st, a);
            && Genuine(st') && Folds(st') == Folds(st)
            && Prior(st'.cursor) >= Prior(st.cursor)
            && !ending.Raised?
            && (ending.Going? ==> Tracks(ending.drain, st') && ending.drain.last >= d.last)
  {
    if |a.events| > 0 {
      assert a.events[|a.events| - 1] in a.events;
    }
  }

  lemma PageStepIsSafe<S>(apply: Handler<S>, cfg: Config, c: ContractId, initial: Option<Cursor>, d: Drain,
                          st: Station<S>, a: Answer)
    requires Genuine(st) && Tracks(d, st)
    ensures var (st', ending) := PageStep(apply, cfg, c, initial, d, st, a);
            && Genuine(st') && FoldsFrom(Folds(st), Folds(st'), d.last)
            && Prior(st'.cursor) >= Prior(st.cursor)
            && (ending.Raised? ==> !Continuous(a.events, d.last))
            && (ending.Going? ==> Tracks(ending.drain, st') && ending.drain.last >= d.last)
  {
    hide IngestWithQuarantine, Advance;
    IngestionFoldsAboveLast(apply, cfg.threshold, st.work, c, a.events, d.last, a.luck);
    var (work, verdict) := IngestWithQuarantine(apply, cfg.threshold, st.work, c, a.events, d.last, a.luck);
    if verdict.Done? {
      AdvanceIsSafe(cfg, initial, d, st.(work := work), a);
    }
  }

  lemma FoldsFromTransitive(a: seq<Event>, b: seq<Event>, c: seq<Event>, last: nat, last': nat)
    requires FoldsFrom(a, b, last) && FoldsFrom(b, c, last') && last <= last'
    ensures FoldsFrom(a, c, last)
  {
    assert forall i :: |a| <= i < |b| ==> c[i] == b[i];
  }

  lemma {:induction false} LoopIsSafe<S>(apply: Handler<S>, cfg: Config, c: ContractId, initial: Option<Cursor>,
                                         d: Drain, st: Station<S>, answers: seq<Answer>)
    requires Genuine(st) && Tracks(d, st)
    ensures var (st', ending) := Loop(apply, cfg, c, initial, d, st, answers);
            Genuine(st') && FoldsFrom(Folds(st), Folds(st'), d.last) && Prior(st'.cursor) >= Prior(st.cursor)
    decreases |answers|
  {
    if answers != [] {
      hide PageStep, Genuine, Tracks;
      PageStepIsSafe(apply, cfg, c, initial, d, st, answers[0]);
      var (st1, ending) := PageStep(apply, cfg, c, initial, d, st, answers[0]);
      if ending.Going? {
        LoopIsSafe(apply, cfg, c, initial, ending.drain, st1, answers[1..]);
        var (st2, _) := Loop(apply, cfg, c, initial, ending.drain, st1, answers[1..]);
        FoldsFromTransitive(Folds(st), Folds(st1), Folds(st2), d.last, ending.drain.last);
      }
    }
  }

  /** The RPC's tip is more than ten ledgers below the ledger folded to, or below it at all while no tip has been
      observed. */
  predicate TipIsBehind(k: Cursor, tip: nat) {
    k.last > 0 && tip < k.last && (k.last - tip > 10 || k.tip == 0)
  }

  /** The RPC answers with another hash for the ledger folded to than the one stored. */
  predicate HashDiffers(k: Cursor, answer: Option<Hash>) {
    k.last > 0 && match (k.hash, answer) { case (Some(h), Some(h')) => h' != h case _ => false }
  }

  predicate ChainChanged(cursor: Option<Cursor>, tip: nat, answer: Option<Hash>) {
    match cursor
    case Some(k) => TipIsBehind(k, tip) || HashDiffers(k, answer)
    case None => false
  }

  /** Whatever the RPC and the database answer, a poll folds no event below the saved `last_ledger`, never
      lowers it, and stores only a hash the RPC gave for it. A tip too far behind, or another hash for the ledger
      folded to, raises before any page is fetched and leaves tables and cursor as they were; and nothing else
      raises before the first page. */
  lemma PollIsSafe<S>(apply: Handler<S>, cfg: Config, c: ContractId, st: Station<S>, tip: nat, priorHash: Option<Hash>,
                      answers: seq<Answer>)
    requires Genuine(st)
    ensures var (st', ending) := FetchOnce(apply, cfg, c, st, tip, priorHash, answers);
            && Genuine(st')
            && FoldsFrom(Folds(st), Folds(st'), Prior(st.cursor))
            && Prior(st'.cursor) >= Prior(st.cursor)
            && (ChainChanged(st.cursor, tip, priorHash) ==>
                  ending == Raised && st'.work == st.work && st'.cursor == st.cursor)
    ensures FetchOnce(apply, cfg, c, st, tip, priorHash, []).1 == Raised <==> ChainChanged(st.cursor, tip, priorHash)
  {
    if ChainChanged(st.cursor, tip, priorHash) {
      hide Loop;
    } else {
      assert !Rewound(st.cursor, tip) && !Forked(st.cursor, priorHash);
      var d, st1 := FirstDrain(st.cursor, tip), Asked(st, priorHash);
      assert Loop(apply, cfg, c, st.cursor, d, st1, []) == (st1, Stopped);
      hide Loop;
      LoopIsSafe(apply, cfg, c, st.cursor, d, st1, answers);
    }
  }

  // What a page leaves behind

  /** A page that was folded and whose cursor was saved: the cursor names its last event, that event's ledger, the hash
      for it (the one the RPC gave now, if it is a new ledger) and the newest tip. */
  lemma PageIsRemembered<S>(apply: Handler<S>, cfg: Config, c: ContractId, initial: Option<Cursor>, d: Drain,
                            st: Station<S>, a: Answer)
    requires a.events != [] && a.saved
    requires a.events[|a.events| - 1].ledger != d.last
             || initial.None? || initial.value.token != Some(a.events[|a.events| - 1].id)
    requires IngestWithQuarantine(apply, cfg.threshold, st.work, c, a.events, d.last, a.luck).1.Done?
    ensures var (st', ending) := PageStep(apply, cfg, c, initial, d, st, a);
            var ev := a.events[|a.events| - 1];
            var hash := if ev.ledger != d.last then a.hash else d.hash;
            var tip := if a.latest.Some? then a.latest.value else d.tip;
            && st'.cursor == Some(Cursor(Some(ev.id), ev.ledger, hash, tip))
            && st'.work == IngestWithQuarantine(apply, cfg.threshold, st.work, c, a.events, d.last, a.luck).0
            && (ending.Stopped? || ending.Going?)
  {
    hide IngestWithQuarantine;
  }

  /** So a chain that forks after it is caught by the next poll: if that one hears another hash for this ledger, it
      raises before any page and folds nothing. */
  lemma ForkIsCaughtByTheNextPoll<S>(apply: Handler<S>, cfg: Config, c: ContractId, initial: Option<Cursor>, d: Drain,
                                     st: Station<S>, a: Answer, tip: nat, other: Hash, answers: seq<Answer>)
    requires a.events != [] && a.events[|a.events| - 1].ledger > d.last && a.saved && a.hash.Some?
             && other != a.hash.value
    requires IngestWithQuarantine(apply, cfg.threshold, st.work, c, a.events, d.last, a.luck).1.Done?
    ensures var st1 := PageStep(apply, cfg, c, initial, d, st, a).0;
            var (st2, ending) := FetchOnce(apply, cfg, c, st1, tip, Some(other), answers);
            ending == Raised && st2.work == st1.work && st2.cursor == st1.cursor
  {
    hide IngestWithQuarantine, Loop;
    PageIsRemembered(apply, cfg, c, initial, d, st, a);
    hide PageStep;
  }

  /** The next poll goes on after the last event folded, at its ledger. */
  lemma NextPollGoesOn(cursor: Option<Cursor>, tip: nat)
    ensures cursor.Some? ==>
              var d := FirstDrain(cursor, tip);
              d.request == cursor.value.token && d.last == cursor.value.last && d.hash == cursor.value.hash
              && d.tip == cursor.value.tip && d.pages == 0
  {
  }

  /** A drain goes on exactly after a full page that was folded and saved, below the cap on pages, unless it is told to
      stop; and then from the page's last event. */
  lemma DrainGoesOnIff<S>(apply: Handler<S>, cfg: Config, c: ContractId, initial: Option<Cursor>, d: Drain,
                          st: Station<S>, a: Answer)
    requires a.events != [] && a.events[|a.events| - 1].ledger != d.last
    ensures var ending := PageStep(apply, cfg, c, initial, d, st, a).1;
            && (ending.Going? <==>
                  && IngestWithQuarantine(apply, cfg.threshold, st.work, c, a.events, d.last, a.luck).1.Done? && a.saved
                  && |a.events| >= cfg.pageLimit && d.pages + 1 < cfg.maxPages && a.more)
            && (ending.Going? ==>
                  && ending.drain.request == Some(a.events[|a.events| - 1].id) && ending.drain.pages == d.pages + 1
                  && ending.drain.last == a.events[|a.events| - 1].ledger && ending.drain.hash == a.hash)
  {
    hide IngestWithQuarantine;
  }

  /** A page whose event is from below the ledger folded to is not folded and raises, unless an event before it
      throws. */
  lemma {:induction false} DivergedPageRaises<S>(apply: Handler<S>, t: Txn<S>, page: seq<Event>, last: nat, i: nat)
    requires i < |page| && 0 < last && page[i].ledger < last
    ensures !IngestPage(apply, t, page, last).Done?
  {
    if i < |page| - 1 {
      DivergedPageRaises(apply, t, page[..|page| - 1], last, i);
    }
  }

  // Without the lock, or with a failing database

  /** A page is not folded as a whole unless the lock is free and no statement fails. */
  lemma PageNeedsLockAndDatabase<S>(apply: Handler<S>, t: Txn<S>, page: seq<Event>, last: nat, luck: PageLuck)
    requires page != [] && (!luck.lockFree || luck.sqlError.Some?)
    ensures AttemptPage(apply, t, page, last, luck).Threw?
  {
  }

  lemma {:induction false} PassNeedsLock<S>(apply: Handler<S>, b: Books<S>, page: seq<Event>, last: nat,
                                            lucks: seq<Luck>)
    requires page != [] && !LuckAt(lucks, 0).lockFree
    ensures IngestEvents(apply, b, page, last, lucks).books == b
            && !IngestEvents(apply, b, page, last, lucks).verdict.Done?
  {
    var n := |page| - 1;
    if n > 0 {
      hide IngestEvent;
      PassNeedsLock(apply, b, page[..n], last, lucks);
    }
  }

  /** While another worker has the lock, nothing of a page is folded, recorded or got through, in either mode. */
  lemma HeldLockFoldsNothing<S>(apply: Handler<S>, threshold: nat, w: Work<S>, c: ContractId, page: seq<Event>,
                                last: nat,
                                luck: PageLuck)
    requires page != [] && !luck.lockFree && !LuckAt(luck.events, 0).lockFree
    ensures var (w', verdict) := IngestWithQuarantine(apply, threshold, w, c, page, last, luck);
            w'.books == w.books && !verdict.Done?
  {
    PageNeedsLockAndDatabase(apply, w.books.txn, page, last, luck);
    PassNeedsLock(apply, w.books, page, last, luck.events);
    hide AttemptPage, IngestEvents, Escalates, Load, Put, Fail;
  }

  // Runs of the worker

  datatype Op =
    | Launch                                                        // runIndexer starts
    | Poll(tip: nat, priorHash: Option<Hash>, answers: seq<Answer>)
    | Exit                                                          // shutdown or crash
    | Clear                                                         // a rebuild or an operator clears the halts

  /** `halted` is an uncleared reorg_halts row. */
  datatype Runner<+S> = Runner(st: Station<S>, running: bool, halted: bool)

  function RunOp<S>(apply: Handler<S>, cfg: Config, c: ContractId, r: Runner<S>, op: Op): Runner<S> {
    match op
    case Launch => if r.halted then r else r.(running := true)
    case Poll(tip, priorHash, answers) =>
      if !r.running then r
      else
        var (st, ending) := FetchOnce(apply, cfg, c, r.st, tip, priorHash, answers);
        if ending.Raised? then Runner(st, false, true) else r.(st := st)
    case Exit => r.(running := false)
    case Clear => r.(halted := false)
  }

  function RunOps<S>(apply: Handler<S>, cfg: Config, c: ContractId, r: Runner<S>, ops: seq<Op>): Runner<S> {
    if ops == [] then r else RunOp(apply, cfg, c, RunOps(apply, cfg, c, r, ops[..|ops| - 1]), ops[|ops| - 1])
  }

  function Fresh<S>(init: S): Runner<S> {
    Runner(Station(Work(Books(Txn(map[], init, []), map[]), Counters(map[], map[])), None, {}), false, false)
  }

  ghost predicate RunInv<S>(r: Runner<S>) {
    Genuine(r.st) && (r.halted ==> !r.running)
  }

  lemma {:induction false} RunIsSafe<S>(apply: Handler<S>, cfg: Config, c: ContractId, r: Runner<S>, ops: seq<Op>)
    requires RunInv(r)
    ensures var r' := RunOps(apply, cfg, c, r, ops);
            RunInv(r') && Prior(r'.st.cursor) >= Prior(r.st.cursor) && Folds(r.st) <= Folds(r'.st)
  {
    if ops != [] {
      hide FetchOnce, Genuine;
      var n := |ops| - 1;
      RunIsSafe(apply, cfg, c, r, ops[..n]);
      var mid := RunOps(apply, cfg, c, r, ops[..n]);
      match ops[n] {
        case Poll(tip, priorHash, answers) => PollIsSafe(apply, cfg, c, mid.st, tip, priorHash, answers);
        case _ =>
      }
    }
  }

  /** In every run `last_ledger` never decreases and its hash is always one the RPC gave for it. */
  lemma LastLedgerIsMonotone<S>(apply: Handler<S>, cfg: Config, c: ContractId, init: S, ops: seq<Op>, more: seq<Op>)
    ensures var r := RunOps(apply, cfg, c, Fresh(init), ops);
            var r' := RunOps(apply, cfg, c, r, more);
            Prior(r.st.cursor) <= Prior(r'.st.cursor) && Genuine(r'.st)
  {
    RunIsSafe(apply, cfg, c, Fresh(init), ops);
    RunIsSafe(apply, cfg, c, RunOps(apply, cfg, c, Fresh(init), ops), more);
  }

  /** From a halt until it is cleared, nothing is folded and the cursor does not move, however often the
      worker is started and polled. */
  lemma {:induction false} NothingFoldedWhileHalted<S>(apply: Handler<S>, cfg: Config, c: ContractId, r: Runner<S>,
                                                       ops: seq<Op>)
    requires RunInv(r) && r.halted
    requires forall i :: 0 <= i < |ops| ==> !ops[i].Clear?
    ensures RunOps(apply, cfg, c, r, ops) == r
  {
    if ops != [] {
      hide FetchOnce;
      NothingFoldedWhileHalted(apply, cfg, c, r, ops[..|ops| - 1]);
      assert !ops[|ops| - 1].Clear?;
    }
  }

  /** A changed chain stops the worker: the poll that notices folds nothing, and neither does anything that follows,
      however often it is started and polled, until somebody clears the halt; then it starts again. */
  lemma ChangedChainStopsTheWorker<S>(apply: Handler<S>, cfg: Config, c: ContractId, r: Runner<S>, tip: nat,
                                      priorHash: Option<Hash>, answers: seq<Answer>, ops: seq<Op>)
    requires RunInv(r) && r.running && ChainChanged(r.st.cursor, tip, priorHash)
    requires forall i :: 0 <= i < |ops| ==> !ops[i].Clear?
    ensures var r1 := RunOp(apply, cfg, c, r, Poll(tip, priorHash, answers));
            var r2 := RunOps(apply, cfg, c, r1, ops);
            && r2.halted && !r2.running && r2.st.work == r.st.work && r2.st.cursor == r.st.cursor
            && RunOp(apply, cfg, c, RunOp(apply, cfg, c, r2, Clear), Launch).running
  {
    hide FetchOnce, Genuine;
    PollIsSafe(apply, cfg, c, r.st, tip, priorHash, answers);
    var r1 := RunOp(apply, cfg, c, r, Poll(tip, priorHash, answers));
    NothingFoldedWhileHalted(apply, cfg, c, r1, ops);
  }

  // An honest RPC never causes a halt

  /** One ledger-ascending feed. A token denotes the number of feed events before it. */
  datatype Rpc = Rpc(feed: seq<Event>, denotes: Token -> nat, hashOf: nat -> Hash)

  ghost predicate ValidRpc(rpc: Rpc) {
    && (forall i, j :: 0 <= i <= j < |rpc.feed| ==> rpc.feed[i].ledger <= rpc.feed[j].ledger)
    && (forall i :: 0 <= i < |rpc.feed| ==> rpc.denotes(rpc.feed[i].id) == i + 1)
  }

  /** Where a request reads from: its token, or the start position of a cold start. */
  function Position(rpc: Rpc, request: Option<Token>, start: nat): nat {
    match request
    case Some(t) => rpc.denotes(t)
    case None => start
  }

  /** A slice of the feed from the request on; an empty one leaves the position where it was. */
  ghost predicate HonestAnswer(rpc: Rpc, start: nat, d: Drain, a: Answer) {
    var p := Position(rpc, d.request, start);
    && p + |a.events| <= |rpc.feed|
    && a.events == rpc.feed[p..p + |a.events|]
    && (a.cursor.Some? && a.events == [] ==> rpc.denotes(a.cursor.value) == p)
    && (a.latest.Some? ==> a.latest.value > 0)
    && (a.hash.Some? && a.events != [] ==> a.hash.value == rpc.hashOf(a.events[|a.events| - 1].ledger))
  }

  ghost predicate HonestLoop<S>(apply: Handler<S>, cfg: Config, c: ContractId, rpc: Rpc, start: nat,
                                initial: Option<Cursor>, d: Drain, st: Station<S>, answers: seq<Answer>)
    decreases |answers|
  {
    answers == [] ||
    (&& HonestAnswer(rpc, start, d, answers[0])
     && var (st', ending) := PageStep(apply, cfg, c, initial, d, st, answers[0]);
        ending.Going? ==> HonestLoop(apply, cfg, c, rpc, start, initial, ending.drain, st', answers[1..]))
  }

  /** The tip is at most ten ledgers below the ledger folded to, and hash answers are constant or missing. */
  ghost predicate HonestPoll<S>(apply: Handler<S>, cfg: Config, c: ContractId, rpc: Rpc, st: Station<S>, tip: nat,
                                priorHash: Option<Hash>, answers: seq<Answer>, start: nat) {
    && tip > 0 && tip + 10 >= Prior(st.cursor)
    && (priorHash.Some? ==> priorHash.value == rpc.hashOf(Prior(st.cursor)))
    && HonestLoop(apply, cfg, c, rpc, start, st.cursor, FirstDrain(st.cursor, tip), Asked(st, priorHash), answers)
  }

  /** Everything from the position on is at or above the ledger folded to. */
  ghost predicate Ahead(rpc: Rpc, token: Option<Token>, start: nat, last: nat, hash: Option<Hash>, tip: nat) {
    && (forall j :: Position(rpc, token, start) <= j < |rpc.feed| ==> rpc.feed[j].ledger >= last)
    && (token.None? ==> last == 0)
    && (hash.Some? && last > 0 ==> hash.value == rpc.hashOf(last))
    && tip > 0
  }

  ghost predicate OnFeed<S>(rpc: Rpc, st: Station<S>) {
    st.cursor.Some? ==> Ahead(rpc, st.cursor.value.token, 0, st.cursor.value.last, st.cursor.value.hash,
                              st.cursor.value.tip)
  }

  lemma HonestAdvance<S>(cfg: Config, rpc: Rpc, start: nat, initial: Option<Cursor>, d: Drain, st: Station<S>,
                         a: Answer)
    requires ValidRpc(rpc) && OnFeed(rpc, st) && Ahead(rpc, d.request, start, d.last, d.hash, d.tip)
             && HonestAnswer(rpc, start, d, a)
    ensures var (st', ending) := Advance(cfg, initial, d, st, a);
            && OnFeed(rpc, st') && !ending.Raised?
            && (ending.Going? ==> Ahead(rpc, ending.drain.request, start, ending.drain.last, ending.drain.hash,
                                        ending.drain.tip))
  {
    if |a.events| > 0 {
      var p := Position(rpc, d.request, start);
      assert a.events[|a.events| - 1] == rpc.feed[p + |a.events| - 1];
    }
  }

  lemma HonestPageIsContinuous(rpc: Rpc, start: nat, d: Drain, a: Answer)
    requires Ahead(rpc, d.request, start, d.last, d.hash, d.tip) && HonestAnswer(rpc, start, d, a)
    ensures Continuous(a.events, d.last)
  {
    var p := Position(rpc, d.request, start);
    forall e | e in a.events
      ensures !Below(d.last, e)
    {
      var i :| 0 <= i < |a.events| && a.events[i] == e;
      assert rpc.feed[p + i] == e;
    }
  }

  lemma HonestStep<S>(apply: Handler<S>, cfg: Config, c: ContractId, rpc: Rpc, start: nat, initial: Option<Cursor>,
                      d: Drain, st: Station<S>, a: Answer)
    requires ValidRpc(rpc) && OnFeed(rpc, st) && Ahead(rpc, d.request, start, d.last, d.hash, d.tip)
             && HonestAnswer(rpc, start, d, a)
    ensures var (st', ending) := PageStep(apply, cfg, c, initial, d, st, a);
            && OnFeed(rpc, st') && !ending.Raised?
            && (ending.Going? ==> Ahead(rpc, ending.drain.request, start, ending.drain.last, ending.drain.hash,
                                        ending.drain.tip))
  {
    hide IngestWithQuarantine, Advance, Ahead, HonestAnswer, ValidRpc;
    HonestPageIsContinuous(rpc, start, d, a);
    IngestionFoldsAboveLast(apply, cfg.threshold, st.work, c, a.events, d.last, a.luck);
    var (work, verdict) := IngestWithQuarantine(apply, cfg.threshold, st.work, c, a.events, d.last, a.luck);
    HonestAdvance(cfg, rpc, start, initial, d, st.(work := work), a);
  }

  lemma {:induction false} HonestLoopNeverRaises<S>(apply: Handler<S>, cfg: Config, c: ContractId, rpc: Rpc,
                                                    start: nat, initial: Option<Cursor>, d: Drain, st: Station<S>,
                                                      answers: seq<Answer>)
    requires ValidRpc(rpc) && OnFeed(rpc, st) && Ahead(rpc, d.request, start, d.last, d.hash, d.tip)
    requires HonestLoop(apply, cfg, c, rpc, start, initial, d, st, answers)
    ensures var (st', ending) := Loop(apply, cfg, c, initial, d, st, answers);
            OnFeed(rpc, st') && !ending.Raised?
    decreases |answers|
  {
    if answers != [] {
      hide PageStep, Ahead, HonestAnswer, ValidRpc;
      HonestStep(apply, cfg, c, rpc, start, initial, d, st, answers[0]);
      var (st1, ending) := PageStep(apply, cfg, c, initial, d, st, answers[0]);
      if ending.Going? {
        HonestLoopNeverRaises(apply, cfg, c, rpc, start, initial, ending.drain, st1, answers[1..]);
      }
    }
  }

  lemma HonestPollNeverRaises<S>(apply: Handler<S>, cfg: Config, c: ContractId, rpc: Rpc, st: Station<S>, tip: nat,
                                 priorHash: Option<Hash>, answers: seq<Answer>, start: nat)
    requires ValidRpc(rpc) && OnFeed(rpc, st) && HonestPoll(apply, cfg, c, rpc, st, tip, priorHash, answers, start)
    ensures var (st', ending) := FetchOnce(apply, cfg, c, st, tip, priorHash, answers);
            OnFeed(rpc, st') && !ending.Raised?
  {
    hide Loop, HonestLoop;
    HonestLoopNeverRaises(apply, cfg, c, rpc, start, st.cursor, FirstDrain(st.cursor, tip), Asked(st, priorHash),
                          answers);
  }

  /** Every poll of the run is answered honestly; a cold start may resolve to a different position each time. */
  ghost predicate HonestRun<S>(apply: Handler<S>, cfg: Config, c: ContractId, rpc: Rpc, r: Runner<S>, ops: seq<Op>) {
    ops == [] ||
    (var n := |ops| - 1;
     && HonestRun(apply, cfg, c, rpc, r, ops[..n])
     && (ops[n].Poll? ==>
         exists start: nat :: HonestPoll(apply, cfg, c, rpc, RunOps(apply, cfg, c, r, ops[..n]).st, ops[n].tip,
                                         ops[n].priorHash, ops[n].answers, start)))
  }

  /** If pages are slices of one ledger-ascending feed, hash answers are constant or missing and the tip is
      never more than ten below the ledger folded to, then no run ever halts, whatever empty pages, drain
      caps, crashes, failed writes, retries and per-event passes it goes through. */
  lemma {:induction false} NoFalseHalt<S>(apply: Handler<S>, cfg: Config, c: ContractId, rpc: Rpc, init: S,
                                          ops: seq<Op>)
    requires ValidRpc(rpc) && HonestRun(apply, cfg, c, rpc, Fresh(init), ops)
    ensures var r := RunOps(apply, cfg, c, Fresh(init), ops);
            OnFeed(rpc, r.st) && !r.halted
  {
    if ops != [] {
      hide FetchOnce, HonestPoll, OnFeed, ValidRpc;
      var n := |ops| - 1;
      NoFalseHalt(apply, cfg, c, rpc, init, ops[..n]);
      if ops[n].Poll? {
        var r := RunOps(apply, cfg, c, Fresh(init), ops[..n]);
        var start: nat :| HonestPoll(apply, cfg, c, rpc, r.st, ops[n].tip, ops[n].priorHash, ops[n].answers, start);
        HonestPollNeverRaises(apply, cfg, c, rpc, r.st, ops[n].tip, ops[n].priorHash, ops[n].answers, start);
      }
    } else {
      assert OnFeed(rpc, Fresh(init).st);
    }
  }
}
