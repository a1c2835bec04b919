/** The laws of the tables in every state that the fold protocol can reach. */
module WholeSystem {
  import opened Outcomes
  import opened Events
  import opened EventLog
  import opened LogOrder
  import opened Handlers
  import opened FoldProtocol
  import opened ReadFlags
  import Money
  import LoanTotals
  import Votes
  import Membership
  import ExactlyOnce
  import Linearization
  import NoLoss
  import Rebuilds
  import Decimal

  /** In every reachable state the tables are a fold of events over empty tables. */
  lemma TablesAreAFold(run: Run)
    ensures var s := Exec(Apply, EMPTY, run);
            FoldSkipping(Apply, EMPTY, s.hist.contributed) == s.db.derived
  {
    hide Exec, Apply;
    ExactlyOnce.FoldedExactlyOnce(Apply, EMPTY, run);
    FoldSkippingIsFold(Apply, EMPTY, Exec(Apply, EMPTY, run).hist.contributed);
  }

  /** Money is conserved in every state of every run: any number of pollers and replays, crashes, rebuilds
      and resets included. */
  lemma MoneyIsConservedInEveryRun(run: Run)
    ensures Money.Conserved(Exec(Apply, EMPTY, run).db.derived.core)
  {
    hide Exec, Apply, Money.Conserved;
    TablesAreAFold(run);
    Money.MoneyIsConserved(Exec(Apply, EMPTY, run).hist.contributed);
  }

  /** So are the repaid and defaulted totals, up to exactly what the contributing events reopened. */
  lemma TotalsAreBoundedInEveryRun(run: Run)
    ensures var s := Exec(Apply, EMPTY, run);
            LoanTotals.Balanced(s.db.derived.core, LoanTotals.ReopenedBy(s.hist.contributed),
                                LoanTotals.RecoveredBy(s.hist.contributed))
  {
    hide Exec, Apply, LoanTotals.Balanced;
    TablesAreAFold(run);
    LoanTotals.TotalsAccountForEveryLoan(Exec(Apply, EMPTY, run).hist.contributed);
  }

  /** In every state of every run the member table shows what the contributing events tell of each address. */
  lemma MembersAgreeInEveryRun(run: Run, a: Address)
    ensures var s := Exec(Apply, EMPTY, run);
            Membership.Shows(s.db.derived.core.members, a, Membership.CardOf(s.hist.contributed, a))
  {
    hide Exec, Apply, Membership.Shows, Membership.CardOf;
    TablesAreAFold(run);
    Membership.MembersAgreeWithLog(Exec(Apply, EMPTY, run).hist.contributed, a);
  }

  /** However many workers race, every loan proposal's tally counts each of its votes once, in feed order. */
  lemma RacingPollersCountEveryVoteOnce(src: NoLoss.Source, c: ContractId, run: Run, before: seq<Event>, req: Event,
                                        after: seq<Event>, p: int)
    requires Linearization.ValidFeed(src, c) && Linearization.PollerRun(Apply, EMPTY, src, c, run)
    requires Votes.NoRequest(Votes.LoanRequest, before, p) && Votes.LoanRequest(req) == Some(p)
    requires before + [req] + after == Exec(Apply, EMPTY, run).hist.applied
    ensures before + [req] + after <= src.feed(c)[src.start(c)..]
    ensures var t := Exec(Apply, EMPTY, run).db.derived.core;
            p in t.loanProposals && t.loanProposals[p].tally == Votes.TallyOf(Votes.LoanBallot, after, p)
  {
    hide Exec, Apply, Votes.TallyOf, Linearization.PollerRun;
    Linearization.AppliedIsPrefixOfFeed(Apply, EMPTY, src, c, run);
    FoldSkippingIsFold(Apply, EMPTY, Exec(Apply, EMPTY, run).hist.applied);
    Votes.LoanTalliesAgreeWithLog(before, req, after, p);
  }

  /** And so it does in every run of pollers and replays, with events quarantined and folded late, in the order
      in which they were folded. */
  lemma EveryFoldedVoteCountsOnce(run: Run, before: seq<Event>, req: Event, after: seq<Event>, p: int)
    requires ExactlyOnce.NoRebuild(run) && ExactlyOnce.NoReset(run)
    requires Votes.NoRequest(Votes.LoanRequest, before, p) && Votes.LoanRequest(req) == Some(p)
    requires before + [req] + after == Exec(Apply, EMPTY, run).hist.applied
    ensures var t := Exec(Apply, EMPTY, run).db.derived.core;
            p in t.loanProposals && t.loanProposals[p].tally == Votes.TallyOf(Votes.LoanBallot, after, p)
  {
    hide Exec, Apply, Votes.TallyOf;
    ExactlyOnce.TablesAreTheFoldOfApplied(Apply, EMPTY, run);
    FoldSkippingIsFold(Apply, EMPTY, Exec(Apply, EMPTY, run).hist.applied);
    Votes.LoanTalliesAgreeWithLog(before, req, after, p);
  }

  /** The same for treasury proposals, with open and revealed ballots together. */
  lemma EveryFoldedTreasuryVoteCountsOnce(run: Run, before: seq<Event>, req: Event, after: seq<Event>, p: int)
    requires ExactlyOnce.NoRebuild(run) && ExactlyOnce.NoReset(run)
    requires Votes.NoRequest(Votes.TreasuryRequest, before, p) && Votes.TreasuryRequest(req) == Some(p)
    requires before + [req] + after == Exec(Apply, EMPTY, run).hist.applied
    ensures var t := Exec(Apply, EMPTY, run).db.derived.core;
            p in t.treasury && t.treasury[p].tally == Votes.TallyOf(Votes.TreasuryBallot, after, p)
  {
    hide Exec, Apply, Votes.TallyOf;
    ExactlyOnce.TablesAreTheFoldOfApplied(Apply, EMPTY, run);
    FoldSkippingIsFold(Apply, EMPTY, Exec(Apply, EMPTY, run).hist.applied);
    Votes.TreasuryTalliesAgreeWithLog(before, req, after, p);
  }

  lemma RacingPollersCountEveryTreasuryVoteOnce(src: NoLoss.Source, c: ContractId, run: Run, before: seq<Event>,
                                                req: Event, after: seq<Event>, p: int)
    requires Linearization.ValidFeed(src, c) && Linearization.PollerRun(Apply, EMPTY, src, c, run)
    requires Votes.NoRequest(Votes.TreasuryRequest, before, p) && Votes.TreasuryRequest(req) == Some(p)
    requires before + [req] + after == Exec(Apply, EMPTY, run).hist.applied
    ensures before + [req] + after <= src.feed(c)[src.start(c)..]
    ensures var t := Exec(Apply, EMPTY, run).db.derived.core;
            p in t.treasury && t.treasury[p].tally == Votes.TallyOf(Votes.TreasuryBallot, after, p)
  {
    hide Exec, Apply, Votes.TallyOf, Linearization.PollerRun;
    Linearization.AppliedIsPrefixOfFeed(Apply, EMPTY, src, c, run);
    FoldSkippingIsFold(Apply, EMPTY, Exec(Apply, EMPTY, run).hist.applied);
    Votes.TreasuryTalliesAgreeWithLog(before, req, after, p);
  }

  /** What a rebuild from the log leaves: the fold of the log, with the saved read flags put back. */
  function Rebuilt(t: Tables, log: Log): Outcome<Tables> {
    var fold :- Fold(Apply, EMPTY, Sorted(log));
    Ok(fold.(notifications := RestoreReads(fold.notifications, SavedReads(t.notifications))))
  }

  /** From tables that folded the rows of the log in order, with any notifications marked read meanwhile, a
      rebuild gives back exactly the same tables. */
  lemma RebuildGivesTheSameTables(log: Log, changes: seq<Change>)
    requires Live(changes).Ok? && FoldedEvents(changes) == Sorted(log)
    ensures Rebuilt(Live(changes).value, log) == Live(changes)
  {
    hide Apply, Live, Sorted, Unread, RestoreReads, SavedReads;
    LiveIsFoldPlusFlags(changes);
    RestoreUndoesUnread(Live(changes).value.notifications);
  }

  /** In particular after any poller run, however many workers raced. */
  lemma RebuildAfterPollersChangesNothing(src: NoLoss.Source, c: ContractId, run: Run, changes: seq<Change>)
    requires Linearization.ValidFeed(src, c) && Linearization.PollerRun(Apply, EMPTY, src, c, run)
    requires Live(changes).Ok? && FoldedEvents(changes) == Exec(Apply, EMPTY, run).hist.applied
    ensures Rebuilt(Live(changes).value, Exec(Apply, EMPTY, run).db.log) == Live(changes)
  {
    hide Apply, Exec, Live, Linearization.PollerRun;
    Linearization.RebuildEqualsIncrementalFold(Apply, EMPTY, src, c, run);
    RebuildGivesTheSameTables(Exec(Apply, EMPTY, run).db.log, changes);
  }

  // A rebuild is not always the tables as they were

  /** The same member joins, in two contracts. */
  function Join(id: EventId, ledger: nat, c: ContractId, fee: Decimal.Digits): Event {
    Event(id, ledger, 0, c, "joined", [Str("M"), Str(fee)], map["member" := Str("M"), "fee" := Str(fee)])
  }

  lemma JoinSets(t: Tables, id: EventId, ledger: nat, c: ContractId, fee: Decimal.Digits)
    ensures var r := Apply(t, Join(id, ledger, c, fee));
            r.Ok? && "M" in r.value.core.members && r.value.core.members["M"].contribution == Decimal.Parse(fee)
  {
    hide Decimal.Parse, Notify;
  }

  /** When the fold order was not that of the log, here because two contracts are tailed, a rebuild from a log
      whose rows are all folded gives other tables. */
  lemma RebuildCanChangeTheTables(w: WorkerId)
    ensures var run := Rebuilds.OnePage(w, "B", Join("2", 2, "B", "7"))
            + Rebuilds.OnePage(w, "A", Join("1", 1, "A", "5"));
            var s := Exec(Apply, EMPTY, run);
            && FoldedIds(s.db.log) == s.db.log.Keys
            && Fold(Apply, EMPTY, Sorted(s.db.log)).Ok?
            && Fold(Apply, EMPTY, Sorted(s.db.log)).value != s.db.derived
  {
    hide Exec, Rebuilds.OnePage, Sorted, Fold;
    var early, late := Join("1", 1, "A", "5"), Join("2", 2, "B", "7");
    JoinSets(EMPTY, "1", 1, "A", "5");
    JoinSets(EMPTY, "2", 2, "B", "7");
    JoinSets(Apply(EMPTY, early).value, "2", 2, "B", "7");
    JoinSets(Apply(EMPTY, late).value, "1", 1, "A", "5");
    FoldOfTwo(Apply, EMPTY, early, late);
    FoldOfTwo(Apply, EMPTY, late, early);
    hide Apply;
    assert Decimal.Parse("5") == 5 && Decimal.Parse("7") == 7;
    Rebuilds.RebuildReordersContracts(Apply, EMPTY, w, "B", "A", early, late);
  }
}
