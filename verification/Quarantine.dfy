/**
 * When a page is taken to be stuck: the failure counter of `ingestPageWithQuarantine`, kept per contract
 * in memory and in the `quarantine_state` table (src/indexer/poller.ts).
 */
module Quarantine {
  import opened Outcomes
  import opened Events
  import opened EventLog
  import opened PageModes

  /** `pageKeyFor`: first id, last id and length. */
  datatype PageKey = EmptyPage | PageKey(first: EventId, last: EventId, count: nat)

  function KeyOf(page: seq<Event>): PageKey {
    if page == [] then EmptyPage else PageKey(page[0].id, page[|page| - 1].id, |page|)
  }

  datatype Suspicion = Suspicion(key: PageKey, message: string, failures: nat)

  type Notebook = map<ContractId, Option<Suspicion>>

  /** Both copies of the counters: a contract is absent from `memory` until its first use after a start. */
  datatype Counters = Counters(memory: Notebook, saved: Notebook)

  function Lookup(n: Notebook, c: ContractId): Option<Suspicion> {
    if c in n then n[c] else None
  }

  /** `loadQuarantineState`: a row with an empty page key or an empty message counts as no state. */
  function Stored(n: Notebook, c: ContractId): Option<Suspicion> {
    match Lookup(n, c)
    case Some(s) => if s.key == EmptyPage || s.message == "" then None else Some(s)
    case None => None
  }

  /** Load the saved state on first use; a failed read counts as no state. */
  function Load(q: Counters, c: ContractId, read: bool): Counters {
    if c in q.memory then q else q.(memory := q.memory[c := if read then Stored(q.saved, c) else None])
  }

  /** Set the state in memory, and in the table unless the write fails (which is only logged). */
  function Put(q: Counters, c: ContractId, s: Option<Suspicion>, wrote: bool): Counters {
    Counters(q.memory[c := s], if wrote then q.saved[c := s] else q.saved)
  }

  /** Another failure: one more if it is the same page and message, else the first. */
  function Bump(s: Option<Suspicion>, key: PageKey, message: string): Suspicion {
    match s
    case Some(prior) => if prior.key == key && prior.message == message then prior.(failures := prior.failures + 1)
      else Suspicion(key, message, 1)
    case None => Suspicion(key, message, 1)
  }

  function Fail(q: Counters, c: ContractId, key: PageKey, message: string, wrote: bool): Counters {
    Put(q, c, Some(Bump(Lookup(q.memory, c), key, message)), wrote)
  }

  /** Per-event mode starts once the counter has reached the configured number of failures. */
  predicate Escalates(q: Counters, c: ContractId, key: PageKey, message: string, threshold: nat) {
    Bump(Lookup(q.memory, c), key, message).failures >= threshold
  }

  // The counter against the history of attempts

  datatype Happening =
    | Folded(contract: ContractId)                                      // a page was folded
    | Failed(contract: ContractId, key: PageKey, message: string)       // a page attempt threw
    | Settled(contract: ContractId)                                     // a per-event pass went through

  /** How many attempts of the contract failed in a row with this page and message, up to now. */
  function Trailing(h: seq<Happening>, c: ContractId, key: PageKey, message: string): nat {
    if h == [] then 0
    else
      var e := h[|h| - 1];
      var before := Trailing(h[..|h| - 1], c, key, message);
      if e.contract != c then before
      else if e == Failed(c, key, message) then before + 1
      else 0
  }

  /** The contract's latest attempt failed, and no pass has gone through since. */
  predicate LastFailed(h: seq<Happening>, c: ContractId) {
    h != [] && (var e := h[|h| - 1]; if e.contract == c then e.Failed? else LastFailed(h[..|h| - 1], c))
  }

  /** Steps of the process: attempts of any contracts, whose first use after a start reads the saved state and
      which write the new one; passes; pages that only load the state; and restarts that forget the memory. */
  datatype Act =
    | PageFolds(contract: ContractId, read: bool, wrote: bool)
    | PageFails(contract: ContractId, key: PageKey, message: string, read: bool, wrote: bool)
    | PassEnds(contract: ContractId, wrote: bool)
    | Loads(contract: ContractId, read: bool)
    | Restart

  function Step(q: Counters, a: Act): Counters {
    match a
    case PageFolds(c, read, wrote) => Put(Load(q, c, read), c, None, wrote)
    case PageFails(c, key, m, read, wrote) => Fail(Load(q, c, read), c, key, m, wrote)
    case PassEnds(c, wrote) => Put(q, c, None, wrote)
    case Loads(c, read) => Load(q, c, read)
    case Restart => q.(memory := map[])
  }

  function ExecFrom(q: Counters, acts: seq<Act>): Counters {
    if acts == [] then q else Step(ExecFrom(q, acts[..|acts| - 1]), acts[|acts| - 1])
  }

  const NO_COUNTERS := Counters(map[], map[])

  function Exec(acts: seq<Act>): Counters {
    ExecFrom(NO_COUNTERS, acts)
  }

  function Noted(a: Act): seq<Happening> {
    match a
    case PageFolds(c, _, _) => [Folded(c)]
    case PageFails(c, key, m, _, _) => [Failed(c, key, m)]
    case PassEnds(c, _) => [Settled(c)]
    case Loads(_, _) => []
    case Restart => []
  }

  /** What happened, whatever the reads and writes did. */
  function HistoryOf(acts: seq<Act>): seq<Happening> {
    if acts == [] then [] else HistoryOf(acts[..|acts| - 1]) + Noted(acts[|acts| - 1])
  }

  // When the counters can be relied on, told by what reads and writes did

  /** The process has used the contract since it last started. */
  predicate Used(acts: seq<Act>, c: ContractId) {
    acts != [] &&
    (var a := acts[|acts| - 1]; !a.Restart? && (a.contract == c || Used(acts[..|acts| - 1], c)))
  }

  /** A failure that can be read back. */
  predicate Durable(key: PageKey, message: string) {
    key != EmptyPage && message != ""
  }

  /** The table is in step for a contract: the last write succeeded and can be read back, or it was lost but had
      nothing to clear in a table that was in step. */
  predicate InStep(acts: seq<Act>, c: ContractId) {
    acts == [] ||
    (var n := |acts| - 1;
     var a := acts[n];
     if a.Restart? || a.Loads? || a.contract != c then InStep(acts[..n], c)
     else if a.PageFails? then a.wrote && Durable(a.key, a.message)
     else a.wrote || (InStep(acts[..n], c) && !LastFailed(HistoryOf(acts[..n]), c)))
  }

  /** The saved state is read where it matters: at the first use since a start, if there is one to read. */
  predicate ReadWhenNeeded(acts: seq<Act>, c: ContractId, read: bool) {
    read || Used(acts, c) || !LastFailed(HistoryOf(acts), c)
  }

  ghost predicate ReliableAct(acts: seq<Act>, a: Act) {
    match a
    case PageFolds(_, _, _) => true
    case PageFails(c, _, _, read, _) => ReadWhenNeeded(acts, c, read)
    case PassEnds(_, _) => true
    case Loads(c, read) => ReadWhenNeeded(acts, c, read)
    case Restart => forall c :: InStep(acts, c)
  }

  /** Every read that matters succeeds, and a restart finds the table in step. */
  ghost predicate Reliable(acts: seq<Act>) {
    acts == [] || (Reliable(acts[..|acts| - 1]) && ReliableAct(acts[..|acts| - 1], acts[|acts| - 1]))
  }

  /** The read and the write of an act succeed, and what it writes can be read back. */
  predicate Written(a: Act) {
    match a
    case PageFolds(_, read, wrote) => read && wrote
    case PageFails(_, key, m, read, wrote) => read && wrote && Durable(key, m)
    case PassEnds(_, wrote) => wrote
    case Loads(_, read) => read
    case Restart => true
  }

  lemma {:induction false} WrittenIsInStep(acts: seq<Act>, c: ContractId)
    requires forall a :: a in acts ==> Written(a)
    ensures InStep(acts, c)
  {
    if acts != [] {
      var n := |acts| - 1;
      assert acts[n] in acts && forall a :: a in acts[..n] ==> a in acts;
      WrittenIsInStep(acts[..n], c);
    }
  }

  /** In particular a run is reliable in which every read and write succeeds and no failure has an empty page or
      message, however often the process restarts. */
  lemma {:induction false} WrittenRunsAreReliable(acts: seq<Act>)
    requires forall a :: a in acts ==> Written(a)
    ensures Reliable(acts)
  {
    if acts != [] {
      var n := |acts| - 1;
      assert acts[n] in acts && forall a :: a in acts[..n] ==> a in acts;
      WrittenRunsAreReliable(acts[..n]);
      forall c
        ensures InStep(acts[..n], c)
      {
        WrittenIsInStep(acts[..n], c);
      }
    }
  }

  /** The state that will be found for a contract at its next attempt. */
  function Effective(q: Counters, c: ContractId): Option<Suspicion> {
    if c in q.memory then q.memory[c] else Stored(q.saved, c)
  }

  function Count(s: Option<Suspicion>, key: PageKey, message: string): nat {
    match s
    case Some(x) => if x.key == key && x.message == message then x.failures else 0
    case None => 0
  }

  /** The counter of a contract is the number of failures in a row that the history shows, and the table holds
      it if it is in step. */
  ghost predicate ExactFor(acts: seq<Act>, q: Counters, c: ContractId) {
    && (c in q.memory <==> Used(acts, c))
    && (Effective(q, c).Some? <==> LastFailed(HistoryOf(acts), c))
    && (InStep(acts, c) ==> Effective(q, c) == Stored(q.saved, c))
    && (forall key, m :: Trailing(HistoryOf(acts), c, key, m) == Count(Effective(q, c), key, m))
  }

  ghost predicate Exact(acts: seq<Act>, q: Counters) {
    forall c :: ExactFor(acts, q, c)
  }

  lemma TrailingSnoc(h: seq<Happening>, e: Happening, c: ContractId, key: PageKey, m: string)
    ensures Trailing(h + [e], c, key, m) ==
            if e.contract != c then Trailing(h, c, key, m) else if e == Failed(c, key, m) then Trailing(h, c, key, m)
              + 1 else 0
    ensures LastFailed(h + [e], c) <==> if e.contract != c then LastFailed(h, c) else e.Failed?
  {
    assert (h + [e])[..|h|] == h;
  }

  /** What one more act adds. */
  lemma ActsSnoc(acts: seq<Act>, a: Act, c: ContractId)
    ensures HistoryOf(acts + [a]) == HistoryOf(acts) + Noted(a)
    ensures Used(acts + [a], c) <==> !a.Restart? && (a.contract == c || Used(acts, c))
    ensures InStep(acts + [a], c) <==>
            if a.Restart? || a.Loads? || a.contract != c then InStep(acts, c)
            else if a.PageFails? then a.wrote && Durable(a.key, a.message)
            else a.wrote || (InStep(acts, c) && !LastFailed(HistoryOf(acts), c))
  {
    assert (acts + [a])[..|acts|] == acts;
  }

  lemma OthersAreNoted(h: seq<Happening>, a: Act, c: ContractId, key: PageKey, m: string)
    requires a.Restart? || a.Loads? || a.contract != c
    ensures Trailing(h + Noted(a), c, key, m) == Trailing(h, c, key, m)
    ensures LastFailed(h + Noted(a), c) <==> LastFailed(h, c)
  {
    if a.Restart? || a.Loads? {
      assert h + [] == h;
    } else {
      TrailingSnoc(h, Noted(a)[0], c, key, m);
    }
  }

  /** Another contract's act leaves this one's counter alone. */
  lemma OthersStayExact(acts: seq<Act>, q: Counters, a: Act, c: ContractId)
    requires ExactFor(acts, q, c) && !a.Restart? && a.contract != c
    ensures ExactFor(acts + [a], Step(q, a), c)
  {
    ActsSnoc(acts, a, c);
    hide HistoryOf, Used, InStep, Trailing, LastFailed, Noted;
    OthersAreNoted(HistoryOf(acts), a, c, EmptyPage, "");
    OthersKeepEffective(q, a, c);
    hide Effective, Step;
    forall key, m
      ensures Trailing(HistoryOf(acts + [a]), c, key, m) == Trailing(HistoryOf(acts), c, key, m)
    {
      OthersAreNoted(HistoryOf(acts), a, c, key, m);
    }
  }

  lemma OthersKeepEffective(q: Counters, a: Act, c: ContractId)
    requires !a.Restart? && a.contract != c
    ensures Effective(Step(q, a), c) == Effective(q, c) && Stored(Step(q, a).saved, c) == Stored(q.saved, c)
    ensures c in Step(q, a).memory <==> c in q.memory
  {
    hide Bump;
  }

  /** Reading the saved state, where it matters, does not change the counter. */
  lemma LoadKeepsEffective(acts: seq<Act>, q: Counters, c: ContractId, read: bool)
    requires ExactFor(acts, q, c) && ReadWhenNeeded(acts, c, read)
    ensures var q' := Load(q, c, read);
            c in q'.memory && q'.memory[c] == Effective(q, c) && q'.saved == q.saved
  {
  }

  lemma FailCounts(acts: seq<Act>, q: Counters, a: Act)
    requires a.PageFails? && ExactFor(acts, q, a.contract) && ReadWhenNeeded(acts, a.contract, a.read)
    ensures var q' := Step(q, a);
            && a.contract in q'.memory
            && Effective(q', a.contract) == Some(Bump(Effective(q, a.contract), a.key, a.message))
            && (a.wrote && Durable(a.key, a.message) ==> Stored(q'.saved, a.contract) == Effective(q', a.contract))
  {
    LoadKeepsEffective(acts, q, a.contract, a.read);
    hide Load, ExactFor;
  }

  lemma FailStaysExact(acts: seq<Act>, q: Counters, a: Act)
    requires a.PageFails? && ExactFor(acts, q, a.contract) && ReadWhenNeeded(acts, a.contract, a.read)
    ensures ExactFor(acts + [a], Step(q, a), a.contract)
  {
    var c, h := a.contract, HistoryOf(acts);
    FailCounts(acts, q, a);
    ActsSnoc(acts, a, c);
    hide HistoryOf, Used, InStep, Step, Stored, Effective;
    TrailingSnoc(h, Failed(c, a.key, a.message), c, EmptyPage, "");
    forall key, m
      ensures Trailing(HistoryOf(acts + [a]), c, key, m) == Count(Effective(Step(q, a), c), key, m)
    {
      TrailingSnoc(h, Failed(c, a.key, a.message), c, key, m);
      hide Trailing;
      assert Trailing(h, c, key, m) == Count(Effective(q, c), key, m);
    }
  }

  lemma ClearCounts(q: Counters, a: Act)
    requires a.PageFolds? || a.PassEnds?
    ensures var q' := Step(q, a);
            && a.contract in q'.memory && Effective(q', a.contract) == None
            && Stored(q'.saved, a.contract) == (if a.wrote then None else Stored(q.saved, a.contract))
  {
  }

  lemma ClearStaysExact(acts: seq<Act>, q: Counters, a: Act)
    requires (a.PageFolds? || a.PassEnds?) && ExactFor(acts, q, a.contract)
    ensures ExactFor(acts + [a], Step(q, a), a.contract)
  {
    var c, h := a.contract, HistoryOf(acts);
    ClearCounts(q, a);
    ActsSnoc(acts, a, c);
    hide HistoryOf, Used, InStep, Step, Stored, Effective;
    TrailingSnoc(h, Noted(a)[0], c, EmptyPage, "");
    forall key, m
      ensures Trailing(HistoryOf(acts + [a]), c, key, m) == 0
    {
      TrailingSnoc(h, Noted(a)[0], c, key, m);
      hide Trailing;
    }
  }

  lemma RestartStaysExact(acts: seq<Act>, q: Counters, c: ContractId)
    requires ExactFor(acts, q, c) && InStep(acts, c)
    ensures ExactFor(acts + [Restart], Step(q, Restart), c)
  {
    assert (acts + [Restart])[..|acts|] == acts;
    assert HistoryOf(acts) + [] == HistoryOf(acts);
  }

  lemma LoadStaysExact(acts: seq<Act>, q: Counters, a: Act)
    requires a.Loads? && ExactFor(acts, q, a.contract) && ReadWhenNeeded(acts, a.contract, a.read)
    ensures ExactFor(acts + [a], Step(q, a), a.contract)
  {
    assert (acts + [a])[..|acts|] == acts;
    assert HistoryOf(acts) + [] == HistoryOf(acts);
    LoadKeepsEffective(acts, q, a.contract, a.read);
    hide Load;
  }

  lemma StepStaysExact(acts: seq<Act>, q: Counters, a: Act)
    requires Exact(acts, q) && ReliableAct(acts, a)
    ensures Exact(acts + [a], Step(q, a))
  {
    hide ExactFor, Step;
    forall c
      ensures ExactFor(acts + [a], Step(q, a), c)
    {
      assert ExactFor(acts, q, c);
      if a.Restart? {
        RestartStaysExact(acts, q, c);
      } else if a.contract != c {
        OthersStayExact(acts, q, a, c);
      } else if a.PageFails? {
        FailStaysExact(acts, q, a);
      } else if a.Loads? {
        LoadStaysExact(acts, q, a);
      } else {
        ClearStaysExact(acts, q, a);
      }
    }
  }

  lemma {:induction false} RunStaysExact(acts: seq<Act>)
    requires Reliable(acts)
    ensures Exact(acts, Exec(acts))
  {
    if acts != [] {
      hide Step, ExactFor, ReliableAct;
      var n := |acts| - 1;
      RunStaysExact(acts[..n]);
      StepStaysExact(acts[..n], Exec(acts[..n]), acts[n]);
      assert acts[..n] + [acts[n]] == acts;
    }
  }

  /** Per-event mode starts for a contract exactly when, counting this one, its last `threshold` attempts
      failed with this page and message: across restarts, and whatever other contracts did meanwhile. */
  lemma EscalationIsNeitherEarlyNorLate(acts: seq<Act>, c: ContractId, key: PageKey, m: string, read: bool,
                                        threshold: nat)
    requires Reliable(acts) && ReadWhenNeeded(acts, c, read)
    ensures Escalates(Load(Exec(acts), c, read), c, key, m, threshold)
            <==> Trailing(HistoryOf(acts) + [Failed(c, key, m)], c, key, m) >= threshold
  {
    RunStaysExact(acts);
    assert ExactFor(acts, Exec(acts), c);
    LoadKeepsEffective(acts, Exec(acts), c, read);
    TrailingSnoc(HistoryOf(acts), Failed(c, key, m), c, key, m);
  }

  /** A contract whose latest attempt failed has a failure counted. */
  lemma {:induction false} SomeFailureCounts(h: seq<Happening>, c: ContractId) returns (key: PageKey, m: string)
    requires LastFailed(h, c)
    ensures Trailing(h, c, key, m) >= 1
  {
    var n := |h| - 1;
    if h[n].contract == c {
      key, m := h[n].key, h[n].message;
    } else {
      key, m := SomeFailureCounts(h[..n], c);
    }
  }

  /** What the next failure of a contract would escalate agrees with the history, for every page, message and
      threshold. */
  ghost predicate Agrees(acts: seq<Act>, c: ContractId, read: bool) {
    forall key, m, threshold: nat ::
      Escalates(Load(Exec(acts), c, read), c, key, m, threshold)
      <==> Trailing(HistoryOf(acts) + [Failed(c, key, m)], c, key, m) >= threshold
  }

  /** The condition on the read is exact: after a reliable run, escalation agrees with the history if and only if
      the saved state is read, was read before, or holds nothing. */
  lemma EscalationIsExactIffRead(acts: seq<Act>, c: ContractId, read: bool)
    requires Reliable(acts)
    ensures Agrees(acts, c, read) <==> ReadWhenNeeded(acts, c, read)
  {
    if ReadWhenNeeded(acts, c, read) {
      forall key, m, threshold: nat
        ensures Escalates(Load(Exec(acts), c, read), c, key, m, threshold)
                <==> Trailing(HistoryOf(acts) + [Failed(c, key, m)], c, key, m) >= threshold
      {
        EscalationIsNeitherEarlyNorLate(acts, c, key, m, read, threshold);
      }
    } else {
      UnreadStateEscalatesLate(acts, c);
    }
  }

  lemma UnreadStateEscalatesLate(acts: seq<Act>, c: ContractId)
    requires Reliable(acts) && !ReadWhenNeeded(acts, c, false)
    ensures !Agrees(acts, c, false)
  {
    RunStaysExact(acts);
    assert ExactFor(acts, Exec(acts), c);
    var h := HistoryOf(acts);
    var key, m := SomeFailureCounts(h, c);
    TrailingSnoc(h, Failed(c, key, m), c, key, m);
    var threshold := Trailing(h, c, key, m) + 1;
    assert !Escalates(Load(Exec(acts), c, false), c, key, m, threshold);
  }

  /** The write of an act leaves the table in step, if it was so before. */
  predicate Settles(acts: seq<Act>, a: Act) {
    match a
    case PageFolds(c, _, wrote) => wrote || !LastFailed(HistoryOf(acts), c)
    case PageFails(_, key, m, _, wrote) => wrote && Durable(key, m)
    case PassEnds(c, wrote) => wrote || !LastFailed(HistoryOf(acts), c)
    case Loads(_, _) => true
    case Restart => true
  }

  ghost predicate RestartKeeps(q: Counters) {
    forall c :: Effective(Step(q, Restart), c) == Effective(q, c)
  }

  /** The condition is exact: after a reliable run with the table in step, and one more act, a restart keeps every
      counter if and only if the act's write succeeded and can be read back, or there was nothing to clear. */
  lemma RestartKeepsCountersIff(acts: seq<Act>, a: Act)
    requires Reliable(acts) && (forall c :: InStep(acts, c)) && ReliableAct(acts, a)
    ensures RestartKeeps(Exec(acts + [a])) <==> Settles(acts, a)
  {
    var all := acts + [a];
    assert all[..|acts|] == acts;
    RunStaysExact(acts);
    RunStaysExact(all);
    if Settles(acts, a) {
      forall c
        ensures Effective(Step(Exec(all), Restart), c) == Effective(Exec(all), c)
      {
        assert ExactFor(all, Exec(all), c) && InStep(acts, c);
      }
    } else {
      LostWriteShows(acts, a);
    }
  }

  lemma LostWriteShows(acts: seq<Act>, a: Act)
    requires Exact(acts, Exec(acts)) && (forall c :: InStep(acts, c)) && ReliableAct(acts, a) && !Settles(acts, a)
    ensures !RestartKeeps(Exec(acts + [a]))
  {
    var c, q := a.contract, Exec(acts);
    assert (acts + [a])[..|acts|] == acts;
    assert ExactFor(acts, q, c) && InStep(acts, c);
    if a.PageFails? {
      LoadKeepsEffective(acts, q, c, a.read);
    }
    var q' := Step(q, a);
    assert Effective(Step(q', Restart), c) != Effective(q', c);
  }

  /** So the claim fails without it: a clearing write that is lost before a restart brings an old count back, and
      a single failure then escalates. */
  lemma LostWriteEscalatesEarly(c: ContractId, key: PageKey, m: string)
    requires Durable(key, m)
    ensures var a := PageFails(c, key, m, true, true);
            var acts := [a, a, PageFolds(c, true, false), Restart];
            && Escalates(Load(Exec(acts), c, true), c, key, m, 3)
            && Trailing(HistoryOf(acts) + [Failed(c, key, m)], c, key, m) == 1
  {
    var a1, a2, a3 := PageFails(c, key, m, true, true), PageFolds(c, true, false), Restart;
    assert [] + [a1] == [a1] && [a1] + [a1] == [a1, a1];
    assert [a1, a1] + [a2] == [a1, a1, a2] && [a1, a1, a2] + [a3] == [a1, a1, a2, a3];
    ExecSnoc([], a1);
    ExecSnoc([a1], a1);
    ExecSnoc([a1, a1], a2);
    ExecSnoc([a1, a1, a2], a3);
    hide ExecFrom;
    assert Exec([a1]).memory[c] == Some(Suspicion(key, m, 1)) by {
      assert Exec([]) == NO_COUNTERS;
    }
    assert Exec([a1, a1]).saved[c] == Some(Suspicion(key, m, 2));
    assert Exec([a1, a1, a2]).saved[c] == Some(Suspicion(key, m, 2));
    hide HistoryOf;
    var h := HistoryOf([a1, a1, a2]);
    assert HistoryOf([a1, a1, a2, a3]) == h + [] == h;
    TrailingSnoc(HistoryOf([a1, a1]), Folded(c), c, key, m);
    TrailingSnoc(h, Failed(c, key, m), c, key, m);
  }

  lemma ExecSnoc(acts: seq<Act>, a: Act)
    ensures Exec(acts + [a]) == Step(Exec(acts), a) && HistoryOf(acts + [a]) == HistoryOf(acts) + Noted(a)
  {
    assert (acts + [a])[..|acts|] == acts;
  }

  /** And an error without a message is forgotten by a restart even when every write succeeded, so per-event
      mode starts late. */
  lemma EmptyMessageIsForgotten(c: ContractId, key: PageKey)
    ensures var acts := [PageFails(c, key, "", true, true), Restart];
            && !Escalates(Load(Exec(acts), c, true), c, key, "", 2)
            && Trailing(HistoryOf(acts) + [Failed(c, key, "")], c, key, "") == 2
  {
    FailThenRestart(c, key, "");
  }

  lemma FailThenRestart(c: ContractId, key: PageKey, m: string)
    ensures var acts := [PageFails(c, key, m, true, true), Restart];
            && Exec(acts) == Counters(map[], map[c := Some(Suspicion(key, m, 1))])
            && Trailing(HistoryOf(acts) + [Failed(c, key, m)], c, key, m) == 2
  {
    var a, e := PageFails(c, key, m, true, true), Failed(c, key, m);
    assert [] + [a] == [a] && [a] + [Restart] == [a, Restart];
    ExecSnoc([], a);
    ExecSnoc([a], Restart);
    assert HistoryOf([a, Restart]) == [e];
    hide HistoryOf, ExecFrom;
    TrailingSnoc([], e, c, key, m);
    TrailingSnoc([e], e, c, key, m);
    assert [] + [e] == [e];
  }

  /** So does a failure whose saved count cannot be read after a restart, though every write succeeded. */
  lemma FailedReadEscalatesLate(c: ContractId, key: PageKey, m: string)
    requires Durable(key, m)
    ensures var acts := [PageFails(c, key, m, true, true), Restart];
            && Reliable(acts) && (forall d :: InStep(acts, d))
            && !Escalates(Load(Exec(acts), c, false), c, key, m, 2)
            && Trailing(HistoryOf(acts) + [Failed(c, key, m)], c, key, m) == 2
  {
    var acts := [PageFails(c, key, m, true, true), Restart];
    hide Reliable, InStep, Exec, HistoryOf, Trailing;
    WrittenRunsAreReliable(acts);
    forall d
      ensures InStep(acts, d)
    {
      WrittenIsInStep(acts, d);
    }
    FailThenRestart(c, key, m);
  }

  // How long a stuck page can take

  /** A page that throws keeps throwing the same error however many events are appended to it. */
  lemma {:induction false} GrowingPageThrowsAlike<S>(apply: Handler<S>, t: Txn<S>, page: seq<Event>, more: seq<Event>,
                                                     last: nat)
    requires IngestPage(apply, t, page, last).Threw?
    ensures IngestPage(apply, t, page + more, last) == IngestPage(apply, t, page, last)
  {
    if more == [] {
      assert page + more == page;
    } else {
      GrowingPageThrowsAlike(apply, t, page, more[..|more| - 1], last);
      assert (page + more)[..|page + more| - 1] == page + more[..|more| - 1];
    }
  }

  /** The counter after failing attempts on these pages, one after the other. */
  function After(keys: seq<PageKey>, m: string, s: Option<Suspicion>): Option<Suspicion> {
    if keys == [] then s else Some(Bump(After(keys[..|keys| - 1], m, s), keys[|keys| - 1], m))
  }

  /** The pages that polls from one unmoved cursor find: they only get longer, up to the page limit. */
  ghost predicate Growing(keys: seq<PageKey>, limit: nat) {
    && (forall i :: 0 <= i < |keys| ==> keys[i].PageKey? && 1 <= keys[i].count <= limit)
    && (forall i, j :: 0 <= i <= j < |keys| ==> keys[i].count <= keys[j].count)
    && (forall i, j :: 0 <= i <= j < |keys| && keys[i].count == keys[j].count ==> keys[i] == keys[j])
  }

  /** `a` polls for each of `x` page lengths. */
  function Budget(a: nat, x: nat): nat {
    a * x
  }

  lemma {:induction false} BudgetGrows(a: nat, x: nat, y: nat)
    requires x < y
    ensures Budget(a, x) + a <= Budget(a, y)
    decreases y - x
  {
    assert Budget(a, x + 1) == Budget(a, x) + a;
    if x + 1 < y {
      BudgetGrows(a, x + 1, y);
    }
  }

  lemma GrowingPrefix(keys: seq<PageKey>, limit: nat, n: nat)
    requires Growing(keys, limit) && 0 < n < |keys|
    ensures Growing(keys[..n], limit)
    ensures keys[n].PageKey? && keys[n - 1].PageKey? && 1 <= keys[n - 1].count <= keys[n].count
    ensures keys[n - 1].count == keys[n].count ==> keys[n - 1] == keys[n]
  {
  }

  /** After none of the attempts has the counter reached the threshold. */
  predicate Held(keys: seq<PageKey>, m: string, s: Option<Suspicion>, threshold: nat) {
    keys == [] || (Held(keys[..|keys| - 1], m, s, threshold) && After(keys, m, s).value.failures < threshold)
  }

  /** While the counter stays below the threshold, the number of polls is bounded by the page length. */
  lemma {:induction false} PollsAreBounded(keys: seq<PageKey>, m: string, s: Option<Suspicion>, threshold: nat,
                                           limit: nat)
    requires Growing(keys, limit) && keys != [] && threshold >= 1 && Held(keys, m, s, threshold)
    ensures |keys| <= Budget(threshold - 1, keys[|keys| - 1].count - 1) + After(keys, m, s).value.failures
    ensures After(keys, m, s).value.key == keys[|keys| - 1] && After(keys, m, s).value.message == m
  {
    hide Budget;
    var n := |keys| - 1;
    assert keys[n].PageKey? && keys[n].count >= 1;
    if n > 0 {
      var before := keys[..n];
      GrowingPrefix(keys, limit, n);
      hide Growing;
      PollsAreBounded(before, m, s, threshold, limit);
      assert before[n - 1] == keys[n - 1];
      if keys[n - 1].count < keys[n].count {
        BudgetGrows(threshold - 1, keys[n - 1].count - 1, keys[n].count - 1);
      }
    }
  }

  /** So not more than (threshold - 1) * limit such polls can go by. */
  lemma GrowingPagesEscalate(keys: seq<PageKey>, m: string, s: Option<Suspicion>, threshold: nat, limit: nat)
    requires Growing(keys, limit) && threshold >= 1 && |keys| > Budget(threshold - 1, limit)
    ensures !Held(keys, m, s, threshold)
  {
    hide Budget;
    if Held(keys, m, s, threshold) {
      PollsAreBounded(keys, m, s, threshold, limit);
      BudgetGrows(threshold - 1, keys[|keys| - 1].count - 1, limit);
      assert false;
    }
  }

  function PageAt(feed: seq<Event>, pos: nat, len: nat): seq<Event>
    requires pos + len <= |feed|
  {
    feed[pos..pos + len]
  }

  function Keys(feed: seq<Event>, pos: nat, lens: seq<nat>): seq<PageKey>
    requires forall i :: 0 <= i < |lens| ==> pos + lens[i] <= |feed|
  {
    seq(|lens|, i requires 0 <= i < |lens| => KeyOf(PageAt(feed, pos, lens[i])))
  }

  lemma LaterPageThrowsAlike<S>(apply: Handler<S>, t: Txn<S>, feed: seq<Event>, pos: nat, len: nat, len': nat,
                                last: nat)
    requires len <= len' && pos + len' <= |feed|
    requires IngestPage(apply, t, PageAt(feed, pos, len), last).Threw?
    ensures IngestPage(apply, t, PageAt(feed, pos, len'), last) == IngestPage(apply, t, PageAt(feed, pos, len), last)
  {
    hide IngestPage;
    GrowingPageThrowsAlike(apply, t, PageAt(feed, pos, len), feed[pos + len..pos + len'], last);
    assert PageAt(feed, pos, len) + feed[pos + len..pos + len'] == PageAt(feed, pos, len');
  }

  /** The pages that polls from one position of a feed find: longer and longer, up to the page limit. */
  ghost predicate GrowingPages(feed: seq<Event>, pos: nat, lens: seq<nat>, limit: nat) {
    && (forall i :: 0 <= i < |lens| ==> 1 <= lens[i] <= limit && pos + lens[i] <= |feed|)
    && (forall i, j :: 0 <= i <= j < |lens| ==> lens[i] <= lens[j])
  }

  lemma GrowingKeys(feed: seq<Event>, pos: nat, lens: seq<nat>, limit: nat)
    requires GrowingPages(feed, pos, lens, limit)
    ensures Growing(Keys(feed, pos, lens), limit)
  {
  }
}
