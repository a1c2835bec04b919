/**
 * Pages as they arrive, before decoding. Both loops decode an event as they come to it; the per-event loop
 * does so outside the code that quarantines (src/indexer/poller.ts:722-725).
 */
module Decoding {
  import opened Outcomes
  import opened Events
  import opened EventLog
  import opened PageModes

  function IngestRawPage<S>(apply: Handler<S>, t: Txn<S>, raws: seq<Raw>, last: nat): Verdict<Txn<S>> {
    if raws == [] then Done(t)
    else
      match IngestRawPage(apply, t, raws[..|raws| - 1], last)
      case Done(t1) => (
        match Decode(raws[|raws| - 1])
        case Err(m) => Threw(m)
        case Ok(ev) =>
          if Below(last, ev) then Diverged
          else match FoldOne(apply, t1, ev)
               case Ok(t2) => Done(t2)
               case Err(m) => Threw(m))
      case other => other
  }

  function IngestRawEvents<S>(apply: Handler<S>, b: Books<S>, raws: seq<Raw>, last: nat,
                              lucks: seq<Luck>): Progress<S> {
    if raws == [] then Progress(b, Done(()))
    else
      var n := |raws| - 1;
      var p := IngestRawEvents(apply, b, raws[..n], last, lucks);
      if !p.verdict.Done? then p
      else
        match Decode(raws[n])
        case Err(m) => Progress(p.books, Threw(m))
        case Ok(ev) =>
          match IngestEvent(apply, p.books, ev, last, LuckAt(lucks, n))
          case Done(b') => Progress(b', Done(()))
          case Diverged => Progress(p.books, Diverged)
          case Threw(m) => Progress(p.books, Threw(m))
  }

  predicate Decodes(raws: seq<Raw>, page: seq<Event>) {
    |raws| == |page| && forall i :: 0 <= i < |raws| ==> Decode(raws[i]) == Ok(page[i])
  }

  /** A page whose events all decode is ingested as its decoded events are, in either mode. */
  lemma {:induction false} DecodedPageIsEnough<S>(apply: Handler<S>, b: Books<S>, raws: seq<Raw>, page: seq<Event>,
                                                  last: nat, lucks: seq<Luck>)
    requires Decodes(raws, page)
    ensures IngestRawPage(apply, b.txn, raws, last) == IngestPage(apply, b.txn, page, last)
    ensures IngestRawEvents(apply, b, raws, last, lucks) == IngestEvents(apply, b, page, last, lucks)
  {
    if raws != [] {
      hide Decode, FoldOne, IngestEvent;
      var n := |raws| - 1;
      DecodedPageIsEnough(apply, b, raws[..n], page[..n], last, lucks);
      assert Decode(raws[n]) == Ok(page[n]);
    }
  }

  /** A page with an event whose symbol is an inherited name gets through in neither mode, whatever the state,
      the handler and the database: its cursor is never saved, and it blocks its contract for good. */
  lemma {:induction false} UndecodableEventBlocksItsPage<S>(apply: Handler<S>, b: Books<S>, raws: seq<Raw>, last: nat,
                                                            lucks: seq<Luck>, i: nat)
    requires i < |raws| && Inherited(raws[i].symbol)
    ensures !IngestRawPage(apply, b.txn, raws, last).Done?
    ensures !IngestRawEvents(apply, b, raws, last, lucks).verdict.Done?
  {
    hide Decode, FoldOne, IngestEvent;
    UndecodableIffInherited(raws[i]);
    if i < |raws| - 1 {
      UndecodableEventBlocksItsPage(apply, b, raws[..|raws| - 1], last, lucks, i);
    }
  }
}
