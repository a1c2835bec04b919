/**
 * Escalation told on the pages themselves: an attempt counts on from the one before it exactly if both failed on the
 * same stretch of the feed, from the same event to the same event, with the same message
 * (src/indexer/poller.ts:588-591, 697-713).
 */
module Streaks {
  import opened Events
  import opened EventLog
  import opened PageModes
  import opened Quarantine
  import opened Polling
  import opened Attempts

  predicate StretchAt(feed: seq<Event>, page: seq<Event>, p: nat) {
    p + |page| <= |feed| && feed[p..p + |page|] == page
  }

  /** The page is a stretch of the feed. */
  ghost predicate Stretch(feed: seq<Event>, page: seq<Event>) {
    exists p: nat :: StretchAt(feed, page, p)
  }

  lemma StretchEnds(feed: seq<Event>, page: seq<Event>, p: nat)
    requires StretchAt(feed, page, p) && page != []
    ensures p + |page| <= |feed| && page[0] == feed[p] && page[|page| - 1] == feed[p + |page| - 1]
  {
  }

  /** Two stretches of a feed with distinct ids have the same key if and only if they are the same page, in start and in
      length. */
  lemma KeysTellPages(feed: seq<Event>, x: seq<Event>, y: seq<Event>)
    requires Distinct(feed) && Stretch(feed, x) && Stretch(feed, y)
    ensures KeyOf(x) == KeyOf(y) <==> x == y
  {
    if x != [] && y != [] && KeyOf(x) == KeyOf(y) {
      var p: nat :| StretchAt(feed, x, p);
      var q: nat :| StretchAt(feed, y, q);
      StretchEnds(feed, x, p);
      StretchEnds(feed, y, q);
      assert |x| == |y| && p == q by {
        hide StretchAt, Stretch;
      }
    }
  }

  /** The verdict of a page's transaction when turn `i` is taken. */
  function AttemptOf<S>(apply: Handler<S>, threshold: nat, b: Books<S>, before: seq<Turn<S>>,
                        t: Turn<S>): Verdict<Txn<S>>
    requires t.Ingest?
  {
    AttemptPage(apply, RunTurns(apply, threshold, b, before).books.txn, t.page, t.last, t.luck)
  }

  /** The page failed as a whole and then went through one event at a time. */
  predicate Settles<S>(apply: Handler<S>, threshold: nat, b: Books<S>, before: seq<Turn<S>>, t: Turn<S>)
    requires t.Ingest?
  {
    var w := RunTurns(apply, threshold, b, before);
    AttemptOf(apply, threshold, b, before, t).Threw?
    && IngestWithQuarantine(apply, threshold, w, t.contract, t.page, t.last, t.luck).1.Done?
  }

  /** How many attempts of the contract in a row, up to now, failed on this very page with this message. */
  function Streak<S>(apply: Handler<S>, threshold: nat, b: Books<S>, turns: seq<Turn<S>>, c: ContractId,
                     page: seq<Event>, m: string): nat
  {
    if turns == [] then 0
    else
      var n := |turns| - 1;
      var before, t := turns[..n], turns[n];
      var streak := Streak(apply, threshold, b, before, c, page, m);
      if !PollsContract(t, c) then streak
      else
        match AttemptOf(apply, threshold, b, before, t)
        case Done(_) => 0
        case Diverged => streak
        case Threw(m') => if t.page == page && m' == m && !Settles(apply, threshold, b, before, t) then streak + 1
          else 0
  }

  /** Every page of the contract is a stretch of the feed. */
  ghost predicate OnFeed<S>(turns: seq<Turn<S>>, c: ContractId, feed: seq<Event>) {
    forall i :: 0 <= i < |turns| && PollsContract(turns[i], c) ==> Stretch(feed, turns[i].page)
  }

  lemma HistoryOfOne(a: Act)
    ensures HistoryOf([a]) == Noted(a)
  {
    hide Noted;
    EmptyHistory();
    HistorySnoc([], a);
    assert [] + [a] == [a];
  }

  lemma {:induction false} HistoryAppend(acts: seq<Act>, more: seq<Act>)
    ensures HistoryOf(acts + more) == HistoryOf(acts) + HistoryOf(more)
  {
    hide HistoryOf;
    if more == [] {
      EmptyHistory();
      assert acts + more == acts;
    } else {
      var n := |more| - 1;
      HistoryAppend(acts, more[..n]);
      HistorySnoc(acts + more[..n], more[n]);
      HistorySnoc(more[..n], more[n]);
      assert acts + more == acts + more[..n] + [more[n]] && more == more[..n] + [more[n]];
    }
  }

  lemma HistorySnoc(acts: seq<Act>, a: Act)
    ensures HistoryOf(acts + [a]) == HistoryOf(acts) + Noted(a)
  {
    hide Noted;
    assert (acts + [a])[..|acts|] == acts;
  }

  /** What one turn adds to the history of attempts. */
  function NotedTurn<S>(apply: Handler<S>, threshold: nat, b: Books<S>, before: seq<Turn<S>>,
                        t: Turn<S>): seq<Happening> {
    match t
    case Ingest(c, page, last, luck) => (
      match AttemptOf(apply, threshold, b, before, t)
      case Done(_) => [Folded(c)]
      case Diverged => []
      case Threw(m) =>
        if Settles(apply, threshold, b, before, t) then [Failed(c, KeyOf(page), m), Settled(c)]
          else [Failed(c, KeyOf(page), m)])
    case _ => []
  }

  lemma TurnIsNoted<S>(apply: Handler<S>, threshold: nat, b: Books<S>, before: seq<Turn<S>>, t: Turn<S>)
    ensures HistoryOf(ActsOfTurn(apply, threshold, RunTurns(apply, threshold, b, before), t))
            == NotedTurn(apply, threshold, b, before, t)
    ensures |ActsOfTurn(apply, threshold, RunTurns(apply, threshold, b, before), t)| <= 2
  {
    hide AttemptPage, IngestEvents, Load, Put, Fail, KeyOf, RunTurns, HistoryOf;
    var w := RunTurns(apply, threshold, b, before);
    var acts := ActsOfTurn(apply, threshold, w, t);
    assert HistoryOf([]) == [] by {
      EmptyHistory();
    }
    if |acts| >= 1 {
      HistoryOfOne(acts[0]);
    }
    if |acts| == 2 {
      HistorySnoc([acts[0]], acts[1]);
      assert acts == [acts[0]] + [acts[1]];
    }
  }

  lemma EmptyHistory()
    ensures HistoryOf([]) == []
  {
  }

  lemma HistoryOfTurns<S>(apply: Handler<S>, threshold: nat, b: Books<S>, turns: seq<Turn<S>>)
    requires turns != []
    ensures var n := |turns| - 1;
            HistoryOf(ActsOfRun(apply, threshold, b, turns))
            == HistoryOf(ActsOfRun(apply, threshold, b, turns[..n]))
              + NotedTurn(apply, threshold, b, turns[..n], turns[n])
  {
    hide HistoryOf, ActsOfTurn, NotedTurn, RunTurns;
    var n := |turns| - 1;
    TurnIsNoted(apply, threshold, b, turns[..n], turns[n]);
    HistoryAppend(ActsOfRun(apply, threshold, b, turns[..n]),
                  ActsOfTurn(apply, threshold, RunTurns(apply, threshold, b, turns[..n]), turns[n]));
  }

  lemma TrailingPair(h: seq<Happening>, e: Happening, f: Happening, c: ContractId, key: PageKey, m: string)
    ensures Trailing(h + [e, f], c, key, m) == Trailing(h + [e] + [f], c, key, m)
    ensures Trailing(h + [], c, key, m) == Trailing(h, c, key, m)
  {
    assert h + [e, f] == h + [e] + [f] && h + [] == h;
  }

  lemma TrailingOfTurn<S>(apply: Handler<S>, threshold: nat, b: Books<S>, before: seq<Turn<S>>, t: Turn<S>,
                          h: seq<Happening>, c: ContractId, page: seq<Event>, m: string)
    requires PollsContract(t, c) ==> (KeyOf(t.page) == KeyOf(page) <==> t.page == page)
    ensures Trailing(h + NotedTurn(apply, threshold, b, before, t), c, KeyOf(page), m) ==
            if !PollsContract(t, c) then Trailing(h, c, KeyOf(page), m)
            else
              match AttemptOf(apply, threshold, b, before, t)
              case Done(_) => 0
              case Diverged => Trailing(h, c, KeyOf(page), m)
              case Threw(m') =>
                if t.page == page && m' == m && !Settles(apply, threshold, b, before, t)
                  then Trailing(h, c, KeyOf(page), m) + 1
                else 0
  {
    hide AttemptOf, Settles, KeyOf, Trailing;
    var key := KeyOf(page);
    TrailingPair(h, Folded(""), Folded(""), c, key, m);
    match t {
      case Ingest(d, p, last, luck) =>
        var e := match AttemptOf(apply, threshold, b, before, t)
          case Threw(m') => Failed(d, KeyOf(p), m')
          case _ => Folded(d);
        TrailingSnoc(h, e, c, key, m);
        TrailingSnoc(h + [e], Settled(d), c, key, m);
        TrailingPair(h, e, Settled(d), c, key, m);
      case _ =>
    }
  }

  /** Over every run whose pages of the contract are stretches of one feed, the failures in a row that the keys
      count are
      the failures in a row on that very page. */
  lemma {:induction false} StreakIsTrailing<S>(apply: Handler<S>, threshold: nat, b: Books<S>, turns: seq<Turn<S>>,
                                               c: ContractId, feed: seq<Event>, page: seq<Event>, m: string)
    requires Distinct(feed) && OnFeed(turns, c, feed) && Stretch(feed, page)
    ensures Trailing(HistoryOf(ActsOfRun(apply, threshold, b, turns)), c, KeyOf(page), m)
            == Streak(apply, threshold, b, turns, c, page, m)
  {
    hide KeyOf, HistoryOf, NotedTurn, AttemptOf, Settles, Stretch, Distinct;
    if turns == [] {
      EmptyHistory();
    } else {
      hide ActsOfRun, Trailing;
      var n := |turns| - 1;
      var before := turns[..n];
      StreakIsTrailing(apply, threshold, b, before, c, feed, page, m);
      HistoryOfTurns(apply, threshold, b, turns);
      if PollsContract(turns[n], c) {
        KeysTellPages(feed, turns[n].page, page);
      }
      TrailingOfTurn(apply, threshold, b, before, turns[n], HistoryOf(ActsOfRun(apply, threshold, b, before)), c, page,
                     m);
    }
  }

  /** After any reliable run whose pages of the contract are stretches of one feed with distinct ids: a failing page is
      retried whole, leaving everything as it was, exactly while this failure and the ones in a row before it, on the
      same page from the same event to the same event and with the same message, are fewer than `threshold`; from then
      on it is taken one event at a time. */
  lemma SamePageEscalatesExactlyThen<S>(apply: Handler<S>, threshold: nat, b: Books<S>, turns: seq<Turn<S>>,
                                        c: ContractId, feed: seq<Event>, page: seq<Event>, last: nat, luck: PageLuck)
    requires Distinct(feed) && OnFeed(turns, c, feed) && Stretch(feed, page)
    requires Reliable(ActsOfRun(apply, threshold, b, turns))
    requires ReadWhenNeeded(ActsOfRun(apply, threshold, b, turns), c, luck.read)
    requires AttemptPage(apply, RunTurns(apply, threshold, b, turns).books.txn, page, last, luck).Threw?
    ensures var w := RunTurns(apply, threshold, b, turns);
            var (w', verdict) := IngestWithQuarantine(apply, threshold, w, c, page, last, luck);
            var m := AttemptPage(apply, w.books.txn, page, last, luck).message;
            if Streak(apply, threshold, b, turns, c, page, m) + 1 < threshold
            then w'.books == w.books && verdict == Threw(m)
            else Progress(w'.books, verdict) == IngestEvents(apply, w.books, page, last, luck.events)
  {
    hide AttemptPage, IngestEvents, IngestWithQuarantine, RunTurns, ActsOfRun, Streak, Reliable, ReadWhenNeeded, KeyOf,
         OnFeed, Stretch, Distinct, HistoryOf, Trailing;
    var m := AttemptPage(apply, RunTurns(apply, threshold, b, turns).books.txn, page, last, luck).message;
    StreakIsTrailing(apply, threshold, b, turns, c, feed, page, m);
    TrailingSnoc(HistoryOf(ActsOfRun(apply, threshold, b, turns)), Failed(c, KeyOf(page), m), c, KeyOf(page), m);
    PerEventModeStartsExactlyThen(apply, threshold, b, turns, c, page, last, luck);
  }

  /** In particular a page that has grown, or changed at all, since the contract's last attempt starts the count at one:
      with a threshold of two or more it is retried whole. */
  lemma ChangedPageStartsOver<S>(apply: Handler<S>, threshold: nat, b: Books<S>, turns: seq<Turn<S>>, c: ContractId,
                                 page: seq<Event>, m: string)
    requires turns != [] && PollsContract(turns[|turns| - 1], c) && turns[|turns| - 1].page != page
    requires AttemptOf(apply, threshold, b, turns[..|turns| - 1], turns[|turns| - 1]).Threw?
    ensures Streak(apply, threshold, b, turns, c, page, m) == 0
  {
  }
}
