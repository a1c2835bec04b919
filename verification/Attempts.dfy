/**
 * What the quarantine counters mean for the pages of a running poller: `ingestPageWithQuarantine` counts
 * every attempt as the counters' own steps do, so over every run it goes over to one event at a time exactly
 * when the history of attempts says it should (src/indexer/poller.ts:675-729).
 */
module Attempts {
  import opened Outcomes
  import opened Events
  import opened EventLog
  import opened PageModes
  import opened Quarantine
  import opened Polling

  /** The steps of the counters that one ingestion takes. */
  function ActsOf<S>(apply: Handler<S>, threshold: nat, w: Work<S>, c: ContractId, page: seq<Event>, last: nat,
                     luck: PageLuck): seq<Act> {
    match AttemptPage(apply, w.books.txn, page, last, luck)
    case Done(_) => [PageFolds(c, luck.read, luck.wroteClear)]
    case Diverged => [Loads(c, luck.read)]
    case Threw(m) =>
      if !Escalates(Load(w.counters, c, luck.read), c, KeyOf(page), m, threshold)
      then [PageFails(c, KeyOf(page), m, luck.read, luck.wroteFailure)]
      else
        var failed := PageFails(c, KeyOf(page), m, luck.read, luck.wroteFailure || luck.wroteEscalation);
        if IngestEvents(apply, w.books, page, last, luck.events).verdict.Done?
        then [failed, PassEnds(c, luck.wroteClear)]
        else [failed]
  }

  lemma ExecOne(q: Counters, a: Act)
    ensures ExecFrom(q, [a]) == Step(q, a)
  {
    hide Step;
    assert [a][..0] == [];
  }

  lemma ExecTwo(q: Counters, a: Act, b: Act)
    ensures ExecFrom(q, [a, b]) == Step(Step(q, a), b)
  {
    hide Step;
    assert [a, b][..1] == [a];
    ExecOne(q, a);
  }

  lemma {:induction false} ExecAppend(q: Counters, acts: seq<Act>, more: seq<Act>)
    ensures ExecFrom(q, acts + more) == ExecFrom(ExecFrom(q, acts), more)
  {
    if more == [] {
      assert acts + more == acts;
    } else {
      hide Step;
      ExecAppend(q, acts, more[..|more| - 1]);
      assert (acts + more)[..|acts + more| - 1] == acts + more[..|more| - 1];
    }
  }

  /** Writing the same state again gives the write a second chance. */
  lemma WrittenAgain(q: Counters, c: ContractId, key: PageKey, m: string, wrote: bool, again: bool)
    ensures c in Fail(q, c, key, m, wrote).memory
    ensures var q1 := Fail(q, c, key, m, wrote);
            Put(q1, c, q1.memory[c], again) == Fail(q, c, key, m, wrote || again)
  {
    hide Bump;
  }

  /** Every ingestion moves the counters by those steps. */
  lemma IngestionIsCounted<S>(apply: Handler<S>, threshold: nat, w: Work<S>, c: ContractId, page: seq<Event>, last: nat,
                              luck: PageLuck)
    ensures IngestWithQuarantine(apply, threshold, w, c, page, last, luck).0.counters
            == ExecFrom(w.counters, ActsOf(apply, threshold, w, c, page, last, luck))
  {
    hide AttemptPage, IngestEvents, Load, Fail, Put, Escalates, ExecFrom, KeyOf;
    var q := w.counters;
    match AttemptPage(apply, w.books.txn, page, last, luck) {
      case Done(_) => ExecOne(q, PageFolds(c, luck.read, luck.wroteClear));
      case Diverged => ExecOne(q, Loads(c, luck.read));
      case Threw(m) =>
        var key := KeyOf(page);
        var failed := PageFails(c, key, m, luck.read, luck.wroteFailure || luck.wroteEscalation);
        WrittenAgain(Load(q, c, luck.read), c, key, m, luck.wroteFailure, luck.wroteEscalation);
        ExecOne(q, PageFails(c, key, m, luck.read, luck.wroteFailure));
        ExecOne(q, failed);
        ExecTwo(q, failed, PassEnds(c, luck.wroteClear));
    }
  }

  // Runs of ingestions

  /** What happens to one process and its database: a page of some contract is ingested, the process restarts, or
      the log, the tables and the failures change in other hands. */
  datatype Turn<+S> =
    | Ingest(contract: ContractId, page: seq<Event>, last: nat, luck: PageLuck)
    | Restarted
    | Elsewhere(books: Books<S>)

  function Turned<S>(apply: Handler<S>, threshold: nat, w: Work<S>, t: Turn<S>): Work<S> {
    match t
    case Ingest(c, page, last, luck) => IngestWithQuarantine(apply, threshold, w, c, page, last, luck).0
    case Restarted => w.(counters := w.counters.(memory := map[]))
    case Elsewhere(books) => w.(books := books)
  }

  function ActsOfTurn<S>(apply: Handler<S>, threshold: nat, w: Work<S>, t: Turn<S>): seq<Act> {
    match t
    case Ingest(c, page, last, luck) => ActsOf(apply, threshold, w, c, page, last, luck)
    case Restarted => [Restart]
    case Elsewhere(_) => []
  }

  /** The state after a run that starts with no counters. */
  function RunTurns<S>(apply: Handler<S>, threshold: nat, b: Books<S>, turns: seq<Turn<S>>): Work<S> {
    if turns == [] then Work(b, NO_COUNTERS)
    else Turned(apply, threshold, RunTurns(apply, threshold, b, turns[..|turns| - 1]), turns[|turns| - 1])
  }

  /** What its counters went through. */
  function ActsOfRun<S>(apply: Handler<S>, threshold: nat, b: Books<S>, turns: seq<Turn<S>>): seq<Act> {
    if turns == [] then []
    else
      var n := |turns| - 1;
      ActsOfRun(apply, threshold, b, turns[..n])
        + ActsOfTurn(apply, threshold, RunTurns(apply, threshold, b, turns[..n]), turns[n])
  }

  lemma TurnIsCounted<S>(apply: Handler<S>, threshold: nat, w: Work<S>, t: Turn<S>)
    ensures Turned(apply, threshold, w, t).counters == ExecFrom(w.counters, ActsOfTurn(apply, threshold, w, t))
  {
    hide IngestWithQuarantine, ActsOf;
    match t {
      case Ingest(c, page, last, luck) => IngestionIsCounted(apply, threshold, w, c, page, last, luck);
      case Restarted => ExecOne(w.counters, Restart);
      case Elsewhere(_) =>
    }
  }

  /** Over every run the counters are those of its acts. */
  lemma {:induction false} RunIsCounted<S>(apply: Handler<S>, threshold: nat, b: Books<S>, turns: seq<Turn<S>>)
    ensures RunTurns(apply, threshold, b, turns).counters == Exec(ActsOfRun(apply, threshold, b, turns))
  {
    if turns != [] {
      hide Turned, ActsOfTurn, ExecFrom;
      var n := |turns| - 1;
      var w := RunTurns(apply, threshold, b, turns[..n]);
      RunIsCounted(apply, threshold, b, turns[..n]);
      TurnIsCounted(apply, threshold, w, turns[n]);
      ExecAppend(NO_COUNTERS, ActsOfRun(apply, threshold, b, turns[..n]), ActsOfTurn(apply, threshold, w, turns[n]));
    }
  }

  /** After any run of pages of any contracts, restarts and work in other hands in which the counters were read
      and written as needed: a failing page is retried whole, leaving everything as it was, exactly while fewer
      than `threshold` attempts of its contract in a row, this one included, have failed on it with this
      message; from then on it is taken one event at a time. */
  lemma PerEventModeStartsExactlyThen<S>(apply: Handler<S>, threshold: nat, b: Books<S>, turns: seq<Turn<S>>,
                                         c: ContractId,
                                         page: seq<Event>, last: nat, luck: PageLuck)
    requires Reliable(ActsOfRun(apply, threshold, b, turns))
    requires ReadWhenNeeded(ActsOfRun(apply, threshold, b, turns), c, luck.read)
    requires AttemptPage(apply, RunTurns(apply, threshold, b, turns).books.txn, page, last, luck).Threw?
    ensures var w := RunTurns(apply, threshold, b, turns);
            var (w', verdict) := IngestWithQuarantine(apply, threshold, w, c, page, last, luck);
            var m := AttemptPage(apply, w.books.txn, page, last, luck).message;
            var attempts := HistoryOf(ActsOfRun(apply, threshold, b, turns)) + [Failed(c, KeyOf(page), m)];
            if Trailing(attempts, c, KeyOf(page), m) < threshold then w'.books == w.books && verdict == Threw(m)
            else Progress(w'.books, verdict) == IngestEvents(apply, w.books, page, last, luck.events)
  {
    hide AttemptPage, IngestEvents, Escalates, Load, Put, Fail, RunTurns, ActsOfRun, Exec, Reliable;
    var w := RunTurns(apply, threshold, b, turns);
    var m := AttemptPage(apply, w.books.txn, page, last, luck).message;
    RunIsCounted(apply, threshold, b, turns);
    EscalationIsNeitherEarlyNorLate(ActsOfRun(apply, threshold, b, turns), c, KeyOf(page), m, luck.read, threshold);
  }

  // How long a stuck page can take

  /** Polls of one contract from one unmoved cursor: each finds a page of the feed from there, and neither the
      lock nor the database fails it. What the counters' reads and writes do is left open. */
  datatype Polls = Polls(contract: ContractId, feed: seq<Event>, pos: nat, last: nat, lens: seq<nat>,
                         lucks: seq<PageLuck>)

  ghost predicate Undisturbed(p: Polls, limit: nat) {
    && GrowingPages(p.feed, p.pos, p.lens, limit) && |p.lucks| == |p.lens|
    && forall i :: 0 <= i < |p.lucks| ==> p.lucks[i].lockFree && p.lucks[i].sqlError.None?
  }

  function PageOf(p: Polls, i: nat): seq<Event>
    requires i < |p.lens| && p.pos + p.lens[i] <= |p.feed|
  {
    PageAt(p.feed, p.pos, p.lens[i])
  }

  ghost function AfterPolls<S>(apply: Handler<S>, threshold: nat, limit: nat, w: Work<S>, p: Polls, n: nat): Work<S>
    requires Undisturbed(p, limit) && n <= |p.lens|
    decreases n, 0
  {
    if n == 0 then w else PollNumber(apply, threshold, limit, w, p, n - 1).0
  }

  /** Poll number `n`, after the ones before it. */
  ghost function PollNumber<S>(apply: Handler<S>, threshold: nat, limit: nat, w: Work<S>, p: Polls, n: nat)
    : (Work<S>, Verdict<()>)
    requires Undisturbed(p, limit) && n < |p.lens|
    decreases n, 1
  {
    IngestWithQuarantine(apply, threshold, AfterPolls(apply, threshold, limit, w, p, n), p.contract, PageOf(p, n),
                         p.last, p.lucks[n])
  }

  ghost predicate Retries<S>(apply: Handler<S>, threshold: nat, limit: nat, w: Work<S>, p: Polls, m: string, n: nat)
    requires Undisturbed(p, limit)
  {
    n < |p.lens| &&
    var (w', verdict) := PollNumber(apply, threshold, limit, w, p, n);
    w'.books == w.books && verdict == Threw(m)
  }

  ghost predicate TakesEvents<S>(apply: Handler<S>, threshold: nat, limit: nat, w: Work<S>, p: Polls, n: nat)
    requires Undisturbed(p, limit)
  {
    n < |p.lens| &&
    var (w', verdict) := PollNumber(apply, threshold, limit, w, p, n);
    Progress(w'.books, verdict) == IngestEvents(apply, w.books, PageOf(p, n), p.last, p.lucks[n].events)
  }

  /** The first `n` polls all retried, and the counter is that of their failures in a row. */
  ghost predicate Waiting<S>(apply: Handler<S>, threshold: nat, limit: nat, w: Work<S>, p: Polls, m: string,
                             s: Option<Suspicion>, n: nat)
    requires Undisturbed(p, limit)
  {
    && n <= |p.lens| && (forall i :: 0 <= i < n ==> Retries(apply, threshold, limit, w, p, m, i))
    && var w' := AfterPolls(apply, threshold, limit, w, p, n);
       var keys := Keys(p.feed, p.pos, p.lens)[..n];
       && w'.books == w.books && Held(keys, m, s, threshold)
       && (n > 0 ==> p.contract in w'.counters.memory && w'.counters.memory[p.contract] == After(keys, m, s))
  }

  /** What a poll finds in the counter. */
  function Found(w: Work, c: ContractId, luck: PageLuck): Option<Suspicion> {
    Lookup(Load(w.counters, c, luck.read).memory, c)
  }

  lemma FailingPoll<S>(apply: Handler<S>, threshold: nat, w: Work<S>, c: ContractId, page: seq<Event>, last: nat,
                       luck: PageLuck, m: string)
    requires AttemptPage(apply, w.books.txn, page, last, luck) == Threw(m)
    ensures var (w', verdict) := IngestWithQuarantine(apply, threshold, w, c, page, last, luck);
            var counted := Bump(Found(w, c, luck), KeyOf(page), m);
            if counted.failures < threshold
            then
              && w'.books == w.books && verdict == Threw(m)
              && c in w'.counters.memory && w'.counters.memory[c] == Some(counted)
            else Progress(w'.books, verdict) == IngestEvents(apply, w.books, page, last, luck.events)
  {
    hide AttemptPage, IngestEvents, Bump, Load;
  }

  lemma KeysSnoc(p: Polls, limit: nat, n: nat, m: string, s: Option<Suspicion>)
    requires Undisturbed(p, limit) && n < |p.lens|
    ensures var keys := Keys(p.feed, p.pos, p.lens);
            After(keys[..n + 1], m, s) == Some(Bump(After(keys[..n], m, s), KeyOf(PageOf(p, n)), m))
  {
    hide Bump;
    var keys := Keys(p.feed, p.pos, p.lens);
    assert keys[..n + 1][..n] == keys[..n];
  }

  lemma HeldSnoc(keys: seq<PageKey>, n: nat, m: string, s: Option<Suspicion>, threshold: nat)
    requires n < |keys| && Held(keys[..n], m, s, threshold) && After(keys[..n + 1], m, s).value.failures < threshold
    ensures Held(keys[..n + 1], m, s, threshold)
  {
    assert keys[..n + 1][..n] == keys[..n];
  }

  /** Each poll either takes the page one event at a time, or retries and counts one more failure. */
  lemma WaitingGoesOn<S>(apply: Handler<S>, threshold: nat, limit: nat, w: Work<S>, p: Polls, m: string,
                         s: Option<Suspicion>, n: nat)
    requires Undisturbed(p, limit) && n < |p.lens|
    requires Waiting(apply, threshold, limit, w, p, m, s, n) && s == Found(w, p.contract, p.lucks[0])
    requires IngestPage(apply, w.books.txn, PageOf(p, n), p.last) == Threw(m)
    ensures TakesEvents(apply, threshold, limit, w, p, n) || Waiting(apply, threshold, limit, w, p, m, s, n + 1)
  {
    hide IngestPage, IngestEvents, IngestWithQuarantine, Bump, After, Held, Keys, KeyOf;
    var keys, w' := Keys(p.feed, p.pos, p.lens), AfterPolls(apply, threshold, limit, w, p, n);
    FailingPoll(apply, threshold, w', p.contract, PageOf(p, n), p.last, p.lucks[n], m);
    KeysSnoc(p, limit, n, m, s);
    CounterFound(apply, threshold, limit, w, p, m, s, n);
    if After(keys[..n + 1], m, s).value.failures < threshold {
      HeldSnoc(keys, n, m, s, threshold);
    }
  }

  lemma CounterFound<S>(apply: Handler<S>, threshold: nat, limit: nat, w: Work<S>, p: Polls, m: string,
                        s: Option<Suspicion>, n: nat)
    requires Undisturbed(p, limit) && n < |p.lens|
    requires Waiting(apply, threshold, limit, w, p, m, s, n) && s == Found(w, p.contract, p.lucks[0])
    ensures Found(AfterPolls(apply, threshold, limit, w, p, n), p.contract, p.lucks[n])
            == After(Keys(p.feed, p.pos, p.lens)[..n], m, s)
    ensures |Keys(p.feed, p.pos, p.lens)| == |p.lens|
  {
    hide IngestWithQuarantine, Held, Retries;
  }

  lemma {:induction false} WaitingOrTaken<S>(apply: Handler<S>, threshold: nat, limit: nat, w: Work<S>, p: Polls,
                                             m: string, s: Option<Suspicion>, n: nat)
    requires Undisturbed(p, limit) && 0 < |p.lens| && n <= |p.lens|
    requires IngestPage(apply, w.books.txn, PageOf(p, 0), p.last) == Threw(m) && s == Found(w, p.contract, p.lucks[0])
    ensures Waiting(apply, threshold, limit, w, p, m, s, n)
            || exists k :: 0 <= k < n && TakesEvents(apply, threshold, limit, w, p, k)
                           && forall i :: 0 <= i < k ==> Retries(apply, threshold, limit, w, p, m, i)
  {
    hide IngestPage, TakesEvents;
    if n == 0 {
      hide IngestWithQuarantine;
      assert Waiting(apply, threshold, limit, w, p, m, s, 0);
    } else {
      WaitingOrTaken(apply, threshold, limit, w, p, m, s, n - 1);
      if Waiting(apply, threshold, limit, w, p, m, s, n - 1) {
        assert p.lens[0] <= p.lens[n - 1];
        LaterPageThrowsAlike(apply, w.books.txn, p.feed, p.pos, p.lens[0], p.lens[n - 1], p.last);
        hide PollNumber, AfterPolls, Held;
        WaitingGoesOn(apply, threshold, limit, w, p, m, s, n - 1);
      }
    }
  }

  /** From an unmoved cursor, with a page on which the handler throws and later pages that can only be longer, up
      to the page limit, and whatever the counters held before: among (threshold - 1) * limit + 1 polls there is
      one that takes the page one event at a time, and every poll before it throws that same error and leaves
      everything as it was. */
  lemma StuckPageEscalatesInTime<S>(apply: Handler<S>, threshold: nat, limit: nat, w: Work<S>, p: Polls, m: string)
    requires Undisturbed(p, limit) && threshold >= 1 && |p.lens| == (threshold - 1) * limit + 1
    requires |p.lens| > 0 && IngestPage(apply, w.books.txn, PageOf(p, 0), p.last) == Threw(m)
    ensures exists k :: 0 <= k < |p.lens| && TakesEvents(apply, threshold, limit, w, p, k)
                        && forall i :: 0 <= i < k ==> Retries(apply, threshold, limit, w, p, m, i)
  {
    var s, keys := Found(w, p.contract, p.lucks[0]), Keys(p.feed, p.pos, p.lens);
    GrowingKeys(p.feed, p.pos, p.lens, limit);
    GrowingPagesEscalate(keys, m, s, threshold, limit);
    assert keys[..|keys|] == keys;
    hide IngestPage, IngestWithQuarantine, TakesEvents, Retries, After;
    WaitingOrTaken(apply, threshold, limit, w, p, m, s, |p.lens|);
  }

  // The same in a run where other things happen between the polls

  predicate PollsContract<S>(t: Turn<S>, c: ContractId) {
    t.Ingest? && t.contract == c
  }

  /** From turn `from` on, every poll of the contract finds a page of the feed from one position, never a shorter
      one than before, and its page fails with this message on the books it finds. Everything else is left open. */
  ghost predicate StuckFrom<S>(apply: Handler<S>, threshold: nat, b: Books<S>, turns: seq<Turn<S>>, from: nat,
                               c: ContractId, feed: seq<Event>, pos: nat, limit: nat, m: string) {
    && from <= |turns|
    && (forall i :: from <= i < |turns| && PollsContract(turns[i], c) ==>
          var t := turns[i];
          && 1 <= |t.page| <= limit && pos + |t.page| <= |feed| && t.page == PageAt(feed, pos, |t.page|)
          && AttemptPage(apply, RunTurns(apply, threshold, b, turns[..i]).books.txn, t.page, t.last, t.luck)
             == Threw(m))
    && (forall i, j :: from <= i <= j < |turns| && PollsContract(turns[i], c) && PollsContract(turns[j], c) ==>
          |turns[i].page| <= |turns[j].page|)
  }

  /** The lengths of the pages of the contract's polls between two turns. */
  function LensIn<S>(turns: seq<Turn<S>>, c: ContractId, from: nat, i: nat): seq<nat>
    requires from <= i <= |turns|
  {
    if i == from then []
    else LensIn(turns, c, from, i - 1) + (if PollsContract(turns[i - 1], c) then [|turns[i - 1].page|] else [])
  }

  lemma {:induction false} LensGrow<S>(apply: Handler<S>, threshold: nat, b: Books<S>, turns: seq<Turn<S>>, from: nat,
                                       c: ContractId, feed: seq<Event>, pos: nat, limit: nat, m: string, i: nat)
    requires StuckFrom(apply, threshold, b, turns, from, c, feed, pos, limit, m) && from <= i <= |turns|
    ensures GrowingPages(feed, pos, LensIn(turns, c, from, i), limit)
    ensures forall j, k :: i <= j < |turns| && PollsContract(turns[j], c) && 0 <= k < |LensIn(turns, c, from, i)| ==>
              LensIn(turns, c, from, i)[k] <= |turns[j].page|
  {
    if i > from {
      hide AttemptPage, RunTurns, PageAt;
      LensGrow(apply, threshold, b, turns, from, c, feed, pos, limit, m, i - 1);
    }
  }

  lemma KeysOfMore(feed: seq<Event>, pos: nat, lens: seq<nat>, len: nat, m: string, s: Option<Suspicion>)
    requires pos + len <= |feed| && forall i :: 0 <= i < |lens| ==> pos + lens[i] <= |feed|
    ensures After(Keys(feed, pos, lens + [len]), m, s)
            == Some(Bump(After(Keys(feed, pos, lens), m, s), KeyOf(PageAt(feed, pos, len)), m))
    ensures forall threshold ::
              Held(Keys(feed, pos, lens + [len]), m, s, threshold) <==>
              && Held(Keys(feed, pos, lens), m, s, threshold)
              && After(Keys(feed, pos, lens + [len]), m, s).value.failures < threshold
  {
    hide Bump, KeyOf;
    var keys := Keys(feed, pos, lens + [len]);
    assert keys[..|keys| - 1] == Keys(feed, pos, lens);
  }

  ghost predicate RetriesAt<S>(apply: Handler<S>, threshold: nat, b: Books<S>, turns: seq<Turn<S>>, m: string, i: nat) {
    i < |turns| && turns[i].Ingest? &&
    var w, t := RunTurns(apply, threshold, b, turns[..i]), turns[i];
    var (w', verdict) := IngestWithQuarantine(apply, threshold, w, t.contract, t.page, t.last, t.luck);
    w'.books == w.books && verdict == Threw(m)
  }

  ghost predicate TakesEventsAt<S>(apply: Handler<S>, threshold: nat, b: Books<S>, turns: seq<Turn<S>>, i: nat) {
    i < |turns| && turns[i].Ingest? &&
    var w, t := RunTurns(apply, threshold, b, turns[..i]), turns[i];
    var (w', verdict) := IngestWithQuarantine(apply, threshold, w, t.contract, t.page, t.last, t.luck);
    Progress(w'.books, verdict) == IngestEvents(apply, w.books, t.page, t.last, t.luck.events)
  }

  lemma {:induction false} ReliablePrefix(acts: seq<Act>, more: seq<Act>)
    requires Reliable(acts + more)
    ensures Reliable(acts) && (more != [] ==> ReliableAct(acts, more[0]))
  {
    hide ReliableAct;
    if more == [] {
      assert acts + more == acts;
    } else {
      var n := |more| - 1;
      assert (acts + more)[..|acts + more| - 1] == acts + more[..n];
      ReliablePrefix(acts, more[..n]);
      if n == 0 {
        assert acts + more[..n] == acts;
      }
    }
  }

  lemma {:induction false} ReliableUpTo<S>(apply: Handler<S>, threshold: nat, b: Books<S>, turns: seq<Turn<S>>, i: nat)
    requires Reliable(ActsOfRun(apply, threshold, b, turns)) && i <= |turns|
    ensures Reliable(ActsOfRun(apply, threshold, b, turns[..i]))
    decreases |turns|
  {
    hide Reliable, ActsOfTurn, RunTurns;
    if i == |turns| {
      assert turns[..i] == turns;
    } else {
      var n := |turns| - 1;
      ReliablePrefix(ActsOfRun(apply, threshold, b, turns[..n]),
                     ActsOfTurn(apply, threshold, RunTurns(apply, threshold, b, turns[..n]), turns[n]));
      ReliableUpTo(apply, threshold, b, turns[..n], i);
      assert turns[..n][..i] == turns[..i];
    }
  }

  /** What the acts of one turn of a reliable run can rely on. */
  lemma TurnIsReliable<S>(apply: Handler<S>, threshold: nat, b: Books<S>, turns: seq<Turn<S>>, i: nat)
    requires Reliable(ActsOfRun(apply, threshold, b, turns)) && i < |turns|
    ensures var acts := ActsOfRun(apply, threshold, b, turns[..i]);
            var now := ActsOfTurn(apply, threshold, RunTurns(apply, threshold, b, turns[..i]), turns[i]);
            && Reliable(acts) && (now != [] ==> ReliableAct(acts, now[0]))
            && RunTurns(apply, threshold, b, turns[..i]).counters == Exec(acts)
            && RunTurns(apply, threshold, b, turns[..i + 1])
               == Turned(apply, threshold, RunTurns(apply, threshold, b, turns[..i]), turns[i])
  {
    hide Reliable, ReliableAct, ActsOfTurn, Turned, Exec;
    assert turns[..i + 1][..i] == turns[..i];
    ReliableUpTo(apply, threshold, b, turns, i + 1);
    ReliablePrefix(ActsOfRun(apply, threshold, b, turns[..i]),
                   ActsOfTurn(apply, threshold, RunTurns(apply, threshold, b, turns[..i]), turns[i]));
    RunIsCounted(apply, threshold, b, turns[..i]);
  }

  lemma {:induction false} OtherActsKeep(q: Counters, acts: seq<Act>, c: ContractId)
    requires forall a :: a in acts ==> !a.Restart? && a.contract != c
    ensures Effective(ExecFrom(q, acts), c) == Effective(q, c)
  {
    if acts != [] {
      hide Step, Effective;
      var n := |acts| - 1;
      assert acts[n] in acts && forall a :: a in acts[..n] ==> a in acts;
      OtherActsKeep(q, acts[..n], c);
      OthersKeepEffective(ExecFrom(q, acts[..n]), acts[n], c);
    }
  }

  lemma ActsOfContract<S>(apply: Handler<S>, threshold: nat, w: Work<S>, c: ContractId, page: seq<Event>, last: nat,
                          luck: PageLuck)
    ensures forall a :: a in ActsOf(apply, threshold, w, c, page, last, luck) ==> !a.Restart? && a.contract == c
  {
    hide AttemptPage, IngestEvents, Escalates, Load, KeyOf;
  }

  /** A turn that is no poll of the contract keeps its counter: a page of another contract, work in other hands, or
      a restart that finds the table in step. */
  lemma OtherTurnsKeep<S>(apply: Handler<S>, threshold: nat, acts: seq<Act>, w: Work<S>, t: Turn<S>, c: ContractId)
    requires !PollsContract(t, c) && Reliable(acts) && w.counters == Exec(acts)
    requires t.Restarted? ==> ReliableAct(acts, Restart)
    ensures Effective(Turned(apply, threshold, w, t).counters, c) == Effective(w.counters, c)
  {
    match t {
      case Ingest(d, page, last, luck) =>
        hide Effective, IngestWithQuarantine, ActsOf, Reliable, ExecFrom;
        IngestionIsCounted(apply, threshold, w, d, page, last, luck);
        ActsOfContract(apply, threshold, w, d, page, last, luck);
        OtherActsKeep(w.counters, ActsOf(apply, threshold, w, d, page, last, luck), c);
      case Restarted =>
        RunStaysExact(acts);
        assert ExactFor(acts, Exec(acts), c) && InStep(acts, c);
        hide ExecFrom, InStep, Reliable;
      case Elsewhere(_) =>
    }
  }

  /** What a poll of the contract finds is its counter. */
  lemma PollFindsCounter<S>(acts: seq<Act>, w: Work<S>, c: ContractId, luck: PageLuck)
    requires Reliable(acts) && w.counters == Exec(acts) && ReadWhenNeeded(acts, c, luck.read)
    ensures Found(w, c, luck) == Effective(w.counters, c)
  {
    RunStaysExact(acts);
    assert ExactFor(acts, Exec(acts), c);
    LoadKeepsEffective(acts, Exec(acts), c, luck.read);
  }

  /** Up to turn `i` every poll of the contract retried, and its counter is that of their failures in a row. */
  ghost predicate WaitingAt<S>(apply: Handler<S>, threshold: nat, b: Books<S>, turns: seq<Turn<S>>, from: nat,
                               c: ContractId, feed: seq<Event>, pos: nat, m: string, s: Option<Suspicion>, i: nat) {
    && from <= i <= |turns|
    && (forall j :: from <= j < i && PollsContract(turns[j], c) ==> RetriesAt(apply, threshold, b, turns, m, j))
    && var lens := LensIn(turns, c, from, i);
       && (forall k :: 0 <= k < |lens| ==> pos + lens[k] <= |feed|)
       && Effective(RunTurns(apply, threshold, b, turns[..i]).counters, c) == After(Keys(feed, pos, lens), m, s)
       && Held(Keys(feed, pos, lens), m, s, threshold)
  }

  lemma OtherTurnWaits<S>(apply: Handler<S>, threshold: nat, b: Books<S>, turns: seq<Turn<S>>, from: nat, c: ContractId,
                          feed: seq<Event>, pos: nat, m: string, s: Option<Suspicion>, i: nat)
    requires Reliable(ActsOfRun(apply, threshold, b, turns)) && i < |turns| && !PollsContract(turns[i], c)
    requires WaitingAt(apply, threshold, b, turns, from, c, feed, pos, m, s, i)
    ensures WaitingAt(apply, threshold, b, turns, from, c, feed, pos, m, s, i + 1)
  {
    hide Turned, RunTurns, Effective, RetriesAt, Held, After, Keys, Reliable;
    OtherTurnKeeps(apply, threshold, b, turns, c, i);
    hide ActsOfRun;
    assert LensIn(turns, c, from, i + 1) == LensIn(turns, c, from, i) + [] == LensIn(turns, c, from, i);
  }

  lemma OtherTurnKeeps<S>(apply: Handler<S>, threshold: nat, b: Books<S>, turns: seq<Turn<S>>, c: ContractId, i: nat)
    requires Reliable(ActsOfRun(apply, threshold, b, turns)) && i < |turns| && !PollsContract(turns[i], c)
    ensures Effective(RunTurns(apply, threshold, b, turns[..i + 1]).counters, c)
            == Effective(RunTurns(apply, threshold, b, turns[..i]).counters, c)
  {
    hide Turned, RunTurns, Effective, Reliable, ReliableAct, ActsOf, ActsOfRun, Exec;
    TurnIsReliable(apply, threshold, b, turns, i);
    OtherTurnsKeep(apply, threshold, ActsOfRun(apply, threshold, b, turns[..i]),
                   RunTurns(apply, threshold, b, turns[..i]), turns[i], c);
  }

  /** A failing poll of the contract in a reliable run takes the page one event at a time, or leaves everything as
      it was and counts one more failure. */
  lemma StuckPoll<S>(apply: Handler<S>, threshold: nat, b: Books<S>, turns: seq<Turn<S>>, c: ContractId, m: string,
                     i: nat)
    requires Reliable(ActsOfRun(apply, threshold, b, turns)) && i < |turns| && PollsContract(turns[i], c)
    requires var w, t := RunTurns(apply, threshold, b, turns[..i]), turns[i];
             AttemptPage(apply, w.books.txn, t.page, t.last, t.luck) == Threw(m)
    ensures var q := RunTurns(apply, threshold, b, turns[..i]).counters;
            var q' := RunTurns(apply, threshold, b, turns[..i + 1]).counters;
            var counted := Bump(Effective(q, c), KeyOf(turns[i].page), m);
            if counted.failures < threshold
            then RetriesAt(apply, threshold, b, turns, m, i) && Effective(q', c) == Some(counted)
            else TakesEventsAt(apply, threshold, b, turns, i)
  {
    hide AttemptPage, IngestEvents, IngestWithQuarantine, Bump, Escalates, Load, KeyOf, Reliable, RunTurns, Found,
         Effective, ActsOfRun, Exec;
    var w, t := RunTurns(apply, threshold, b, turns[..i]), turns[i];
    var w' := RunTurns(apply, threshold, b, turns[..i + 1]);
    StuckPollReads(apply, threshold, b, turns, c, m, i);
    FailingPoll(apply, threshold, w, c, t.page, t.last, t.luck, m);
    if c in w'.counters.memory {
      MemoryIsEffective(w'.counters, c);
    }
  }

  lemma MemoryIsEffective(q: Counters, c: ContractId)
    requires c in q.memory
    ensures Effective(q, c) == q.memory[c]
  {
  }

  lemma StuckPollReads<S>(apply: Handler<S>, threshold: nat, b: Books<S>, turns: seq<Turn<S>>, c: ContractId, m: string,
                          i: nat)
    requires Reliable(ActsOfRun(apply, threshold, b, turns)) && i < |turns| && PollsContract(turns[i], c)
    requires var w, t := RunTurns(apply, threshold, b, turns[..i]), turns[i];
             AttemptPage(apply, w.books.txn, t.page, t.last, t.luck) == Threw(m)
    ensures var w, t := RunTurns(apply, threshold, b, turns[..i]), turns[i];
            && Found(w, c, t.luck) == Effective(w.counters, c)
            && RunTurns(apply, threshold, b, turns[..i + 1])
               == IngestWithQuarantine(apply, threshold, w, c, t.page, t.last, t.luck).0
  {
    hide AttemptPage, IngestWithQuarantine, ActsOf, Reliable, RunTurns, Found, Effective, ReadWhenNeeded, ActsOfRun,
         Exec;
    var w, t := RunTurns(apply, threshold, b, turns[..i]), turns[i];
    TurnIsReliable(apply, threshold, b, turns, i);
    FirstActFails(apply, threshold, w, c, t.page, t.last, t.luck);
    PollFindsCounter(ActsOfRun(apply, threshold, b, turns[..i]), w, c, t.luck);
  }

  lemma FirstActFails<S>(apply: Handler<S>, threshold: nat, w: Work<S>, c: ContractId, page: seq<Event>, last: nat,
                         luck: PageLuck)
    requires AttemptPage(apply, w.books.txn, page, last, luck).Threw?
    ensures var acts := ActsOf(apply, threshold, w, c, page, last, luck);
            acts != [] && acts[0].PageFails? && acts[0].contract == c && acts[0].read == luck.read
  {
    hide AttemptPage, IngestEvents, Escalates, Load, KeyOf;
  }

  lemma PollWaitsOrTakes<S>(apply: Handler<S>, threshold: nat, b: Books<S>, turns: seq<Turn<S>>, from: nat,
                            c: ContractId,
                            feed: seq<Event>, pos: nat, limit: nat, m: string, s: Option<Suspicion>, i: nat)
    requires StuckFrom(apply, threshold, b, turns, from, c, feed, pos, limit, m)
    requires Reliable(ActsOfRun(apply, threshold, b, turns)) && i < |turns| && PollsContract(turns[i], c)
    requires WaitingAt(apply, threshold, b, turns, from, c, feed, pos, m, s, i)
    ensures TakesEventsAt(apply, threshold, b, turns, i)
            || WaitingAt(apply, threshold, b, turns, from, c, feed, pos, m, s, i + 1)
  {
    hide AttemptPage, Bump, KeyOf, PageAt, Reliable, RunTurns, RetriesAt, TakesEventsAt, Effective, Keys, After, Held;
    StuckPoll(apply, threshold, b, turns, c, m, i);
    LensGrow(apply, threshold, b, turns, from, c, feed, pos, limit, m, i + 1);
    KeysOfMore(feed, pos, LensIn(turns, c, from, i), |turns[i].page|, m, s);
  }

  lemma WaitingStarts<S>(apply: Handler<S>, threshold: nat, b: Books<S>, turns: seq<Turn<S>>, from: nat, c: ContractId,
                         feed: seq<Event>, pos: nat, m: string, s: Option<Suspicion>)
    requires from <= |turns| && s == Effective(RunTurns(apply, threshold, b, turns[..from]).counters, c)
    ensures WaitingAt(apply, threshold, b, turns, from, c, feed, pos, m, s, from)
  {
    hide RunTurns;
  }

  lemma WaitingRetries<S>(apply: Handler<S>, threshold: nat, b: Books<S>, turns: seq<Turn<S>>, from: nat, c: ContractId,
                          feed: seq<Event>, pos: nat, m: string, s: Option<Suspicion>, i: nat)
    requires WaitingAt(apply, threshold, b, turns, from, c, feed, pos, m, s, i)
    ensures forall j :: from <= j < i <= |turns| && PollsContract(turns[j], c) ==>
              RetriesAt(apply, threshold, b, turns, m, j)
  {
  }

  lemma {:induction false} WaitsOrTakes<S>(apply: Handler<S>, threshold: nat, b: Books<S>, turns: seq<Turn<S>>,
                                           from: nat,
                                           c: ContractId, feed: seq<Event>, pos: nat, limit: nat, m: string,
                                           s: Option<Suspicion>, i: nat)
    requires StuckFrom(apply, threshold, b, turns, from, c, feed, pos, limit, m) && from <= i <= |turns|
    requires Reliable(ActsOfRun(apply, threshold, b, turns))
    requires s == Effective(RunTurns(apply, threshold, b, turns[..from]).counters, c)
    ensures WaitingAt(apply, threshold, b, turns, from, c, feed, pos, m, s, i)
            || exists k :: from <= k < i && PollsContract(turns[k], c) && TakesEventsAt(apply, threshold, b, turns, k)
                           && forall j :: from <= j < k && PollsContract(turns[j], c) ==>
                                RetriesAt(apply, threshold, b, turns, m, j)
  {
    hide RunTurns, RetriesAt, TakesEventsAt, Reliable, StuckFrom, WaitingAt, ActsOfRun;
    if i == from {
      WaitingStarts(apply, threshold, b, turns, from, c, feed, pos, m, s);
    } else {
      WaitsOrTakes(apply, threshold, b, turns, from, c, feed, pos, limit, m, s, i - 1);
      if WaitingAt(apply, threshold, b, turns, from, c, feed, pos, m, s, i - 1) {
        WaitingRetries(apply, threshold, b, turns, from, c, feed, pos, m, s, i - 1);
        if PollsContract(turns[i - 1], c) {
          PollWaitsOrTakes(apply, threshold, b, turns, from, c, feed, pos, limit, m, s, i - 1);
        } else {
          OtherTurnWaits(apply, threshold, b, turns, from, c, feed, pos, m, s, i - 1);
        }
      }
    }
  }

  /** In any run whose counters are read and written as needed, with pages of other contracts, replays and other
      work in other hands, and restarts between the polls: if more than (threshold - 1) * limit polls of a contract
      find the growing page of one unmoved cursor and its fold fails with one message, then one of them takes the
      page one event at a time, and every poll of the contract before it leaves everything as it was. */
  lemma StuckPageEscalatesAmongOthers<S>(apply: Handler<S>, threshold: nat, b: Books<S>, turns: seq<Turn<S>>, from: nat,
                                         c: ContractId, feed: seq<Event>, pos: nat, limit: nat, m: string)
    requires StuckFrom(apply, threshold, b, turns, from, c, feed, pos, limit, m)
    requires Reliable(ActsOfRun(apply, threshold, b, turns))
    requires threshold >= 1 && |LensIn(turns, c, from, |turns|)| > (threshold - 1) * limit
    ensures exists k :: from <= k < |turns| && PollsContract(turns[k], c)
                        && TakesEventsAt(apply, threshold, b, turns, k)
                        && forall j :: from <= j < k && PollsContract(turns[j], c) ==>
                             RetriesAt(apply, threshold, b, turns, m, j)
  {
    var lens := LensIn(turns, c, from, |turns|);
    var s := Effective(RunTurns(apply, threshold, b, turns[..from]).counters, c);
    LensGrow(apply, threshold, b, turns, from, c, feed, pos, limit, m, |turns|);
    GrowingKeys(feed, pos, lens, limit);
    GrowingPagesEscalate(Keys(feed, pos, lens), m, s, threshold, limit);
    hide RunTurns, RetriesAt, TakesEventsAt, Reliable, StuckFrom, Held, After;
    WaitsOrTakes(apply, threshold, b, turns, from, c, feed, pos, limit, m, s, |turns|);
  }
}
