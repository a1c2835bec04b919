/**
 * One poll of one contract: the rewind and fork checks, the drain loop and the cursor it leaves behind
 * (`fetchOnce` in src/indexer/poller.ts). What the RPC and the database answer are inputs.
 */
module Polling {
  import opened Outcomes
  import opened Events
  import opened EventLog
  import opened PageModes
  import opened Quarantine

  type Token = string
  type Hash = string

  datatype Cursor = Cursor(token: Option<Token>, last: nat, hash: Option<Hash>, tip: nat)

  datatype Config = Config(pageLimit: nat, maxPages: nat, threshold: nat)

  /** What the database does while a page is ingested. */
  datatype PageLuck = PageLuck(
    lockFree: bool, sqlError: Option<string>, events: seq<Luck>,
    read: bool, wroteFailure: bool, wroteEscalation: bool, wroteClear: bool)

  /** One getEvents response, the hash the RPC gives for the ledger folded to, whether the cursor write
      succeeds, and whether the drain may go on after it (no shutdown, time left). */
  datatype Answer = Answer(
    events: seq<Event>, cursor: Option<Token>, latest: Option<nat>,
    hash: Option<Hash>, saved: bool, luck: PageLuck, more: bool)

  datatype Work<+S> = Work(books: Books<S>, counters: Counters)

  const PAGE_LOCK_HELD := "Cannot ingest events: reindex is currently in progress (advisory lock held)"

  /** `ingestPage`: nothing to do for an empty page; else lock, fold, commit or roll back. */
  function AttemptPage<S>(apply: Handler<S>, t: Txn<S>, page: seq<Event>, last: nat, luck: PageLuck): Verdict<Txn<S>> {
    if page == [] then Done(t)
    else if !luck.lockFree then Threw(PAGE_LOCK_HELD)
    else
      match luck.sqlError
      case Some(m) => Threw(m)
      case None => IngestPage(apply, t, page, last)
  }

  /** `ingestPageWithQuarantine`. */
  function IngestWithQuarantine<S>(apply: Handler<S>, threshold: nat, w: Work<S>, c: ContractId, page: seq<Event>,
                                   last: nat, luck: PageLuck): (Work<S>, Verdict<()>) {
    var q := Load(w.counters, c, luck.read);
    match AttemptPage(apply, w.books.txn, page, last, luck)
    case Done(t) => (Work(w.books.(txn := t), Put(q, c, None, luck.wroteClear)), Done(()))
    case Diverged => (w.(counters := q), Diverged)
    case Threw(m) =>
      var q1 := Fail(q, c, KeyOf(page), m, luck.wroteFailure);
      if !Escalates(q, c, KeyOf(page), m, threshold) then (w.(counters := q1), Threw(m))
      else EscalatePage(apply, w.(counters := q1), c, page, last, luck)
  }

  /** Its fallback: mark the escalation, take the page one event at a time, and clear the counter at the end. */
  function EscalatePage<S>(apply: Handler<S>, w: Work<S>, c: ContractId, page: seq<Event>, last: nat, luck: PageLuck)
    : (Work<S>, Verdict<()>)
  {
    var q := Put(w.counters, c, Lookup(w.counters.memory, c), luck.wroteEscalation);
    var p := IngestEvents(apply, w.books, page, last, luck.events);
    (Work(p.books, if p.verdict.Done? then Put(q, c, None, luck.wroteClear) else q), p.verdict)
  }

  /** The state of one contract's poller. `heard` is the history of hash answers the RPC has given. */
  datatype Station<+S> = Station(work: Work<S>, cursor: Option<Cursor>, heard: set<(nat, Hash)>)

  /** The local variables of the drain loop. */
  datatype Drain = Drain(request: Option<Token>, last: nat, hash: Option<Hash>, tip: nat, pages: nat)

  datatype Ending =
    | Stopped                 // the poll returned
    | Raised                  // ReorgDetectedError
    | Errored(message: string) // any other error
    | Going(drain: Drain)     // the drain goes on

  const GRACE_WINDOW := 10

  function Prior(cursor: Option<Cursor>): nat {
    if cursor.Some? then cursor.value.last else 0
  }

  /** The RPC tip is below the ledger folded to, beyond what a lagging node explains. */
  predicate Rewound(cursor: Option<Cursor>, tip: nat) {
    && Prior(cursor) > 0 && tip < Prior(cursor)
    && !(cursor.value.tip > 0 && Prior(cursor) - tip <= GRACE_WINDOW)
  }

  /** The RPC has another hash for the ledger folded to; no answer proves nothing. */
  predicate Forked(cursor: Option<Cursor>, answer: Option<Hash>) {
    && Prior(cursor) > 0 && cursor.value.hash.Some?
    && answer.Some? && answer != cursor.value.hash
  }

  function Heard(heard: set<(nat, Hash)>, ledger: nat, hash: Option<Hash>): set<(nat, Hash)> {
    if hash.Some? then heard + {(ledger, hash.value)} else heard
  }

  /** What follows a page that was ingested: the next token, the cursor write and the decision to go on. */
  function Advance<S>(cfg: Config, initial: Option<Cursor>, d: Drain, st: Station<S>, a: Answer): (Station<S>, Ending) {
    var n := |a.events|;
    var next := if n > 0 then Some(a.events[n - 1].id) else if a.cursor.Some? then a.cursor else d.request;
    var folded := if n > 0 then a.events[n - 1].ledger else d.last;
    var tip := if a.latest.Some? then a.latest.value else d.tip;
    var moved := initial.None? || next != initial.value.token || folded != d.last || tip != d.tip;
    var hash := if folded != d.last then a.hash else d.hash;
    var heard := if moved && folded != d.last then Heard(st.heard, folded, a.hash) else st.heard;
    if moved && !a.saved then (st.(heard := heard), Errored("Cursor write failed"))
    else
      var st' := if moved then st.(cursor := Some(Cursor(next, folded, hash, tip)), heard := heard) else st;
      var d' := if moved then Drain(next, folded, hash, tip, d.pages + 1)
        else d.(request := next, pages := d.pages + 1);
      (st', if n < cfg.pageLimit || d'.pages >= cfg.maxPages || !a.more then Stopped else Going(d'))
  }

  /** One turn of the drain loop. */
  function PageStep<S>(apply: Handler<S>, cfg: Config, c: ContractId, initial: Option<Cursor>, d: Drain,
                       st: Station<S>, a: Answer): (Station<S>, Ending) {
    var (work, verdict) := IngestWithQuarantine(apply, cfg.threshold, st.work, c, a.events, d.last, a.luck);
    match verdict
    case Diverged => (st.(work := work), Raised)
    case Threw(m) => (st.(work := work), Errored(m))
    case Done(_) => Advance(cfg, initial, d, st.(work := work), a)
  }

  /** The drain loop over the responses still to come; a shutdown or a crash is their end. */
  function Loop<S>(apply: Handler<S>, cfg: Config, c: ContractId, initial: Option<Cursor>, d: Drain, st: Station<S>,
                   answers: seq<Answer>): (Station<S>, Ending)
    decreases |answers|
  {
    if answers == [] then (st, Stopped)
    else
      var (st', ending) := PageStep(apply, cfg, c, initial, d, st, answers[0]);
      match ending
      case Going(d') => Loop(apply, cfg, c, initial, d', st', answers[1..])
      case _ => (st', ending)
  }

  function FirstDrain(cursor: Option<Cursor>, tip: nat): Drain {
    match cursor
    case Some(k) => Drain(k.token, k.last, k.hash, k.tip, 0)
    case None => Drain(None, 0, None, tip, 0)
  }

  /** The RPC was asked for the hash of the ledger folded to. */
  predicate AsksHash(cursor: Option<Cursor>) {
    Prior(cursor) > 0 && cursor.value.hash.Some?
  }

  function Asked<S>(st: Station<S>, priorHash: Option<Hash>): Station<S> {
    if AsksHash(st.cursor) then st.(heard := Heard(st.heard, Prior(st.cursor), priorHash)) else st
  }

  /** `fetchOnce`. */
  function FetchOnce<S>(apply: Handler<S>, cfg: Config, c: ContractId, st: Station<S>, tip: nat,
                        priorHash: Option<Hash>, answers: seq<Answer>): (Station<S>, Ending) {
    if Rewound(st.cursor, tip) then (st, Raised)
    else if Forked(st.cursor, priorHash) then (Asked(st, priorHash), Raised)
    else Loop(apply, cfg, c, st.cursor, FirstDrain(st.cursor, tip), Asked(st, priorHash), answers)
  }
}
