/** Every proposal's tally is the sum of its ballots in the log after its creation. */
module Votes {
  import opened Outcomes
  import opened Events
  import opened EventLog
  import opened Handlers
  import opened Frames
  import Readings

  datatype Ballot = Ballot(id: int, support: bool, weight: nat)

  function ToOption<T>(r: Outcome<T>): Option<T> {
    match r
    case Ok(v) => Some(v)
    case Err(_) => None
  }

  /** The proposal a well-formed request creates. */
  function Request(ev: Event, idField: string, valid: bool): Option<int> {
    if valid then ToOption(RequireId(ev, idField)) else None
  }

  function LoanRequest(ev: Event): Option<int> {
    Request(ev, "id", KindOf(ev.symbol) == KLoanReq
                      && RequireAddr(ev, "borrower").Ok? && RequireAmount(ev, "amount").Ok?
                         && RequireAmount(ev, "total_repayment").Ok?)
  }

  function TreasuryRequest(ev: Event): Option<int> {
    Request(ev, "id", KindOf(ev.symbol) == KTreProp && RequireAmount(ev, "amount").Ok?
            && RequireAddr(ev, "destination").Ok?)
  }

  function BallotIn(ev: Event, idField: string): Option<Ballot> {
    match (RequireId(ev, idField), RequireBool(ev, "support"), WeightOf(ev))
    case (Ok(id), Ok(support), Ok(weight)) => Some(Ballot(id, support, weight))
    case _ => None
  }

  /** A well-formed vote on a loan proposal. */
  function LoanBallot(ev: Event): Option<Ballot> {
    if KindOf(ev.symbol) == KLoanVote then BallotIn(ev, "proposal_id") else None
  }

  /** A well-formed treasury vote, cast openly or revealed. */
  function TreasuryBallot(ev: Event): Option<Ballot> {
    match KindOf(ev.symbol)
    case KTreVote => BallotIn(ev, "id")
    case KRevealed => BallotIn(ev, "proposal_id")
    case _ => None
  }

  /** The weight cast one way on a proposal, and the number of its ballots, over a stretch of the log. */
  function Cast(ballotOf: Event -> Option<Ballot>, evs: seq<Event>, p: int, support: bool): nat {
    if evs == [] then 0
    else
      var rest := Cast(ballotOf, evs[..|evs| - 1], p, support);
      match ballotOf(evs[|evs| - 1])
      case Some(b) => if b.id == p && b.support == support then rest + b.weight else rest
      case None => rest
  }

  function Ballots(ballotOf: Event -> Option<Ballot>, evs: seq<Event>, p: int): nat {
    if evs == [] then 0
    else
      var rest := Ballots(ballotOf, evs[..|evs| - 1], p);
      match ballotOf(evs[|evs| - 1])
      case Some(b) => if b.id == p then rest + 1 else rest
      case None => rest
  }

  function TallyOf(ballotOf: Event -> Option<Ballot>, evs: seq<Event>, p: int): Tally {
    Tally(Cast(ballotOf, evs, p, true), Cast(ballotOf, evs, p, false), Ballots(ballotOf, evs, p))
  }

  /** What one event does to the tally of a proposal that exists. */
  function After(tally: Tally, ballot: Option<Ballot>, p: int): Tally {
    match ballot
    case Some(b) => if b.id == p then Counted(tally, b.support, b.weight) else tally
    case None => tally
  }

  lemma TallySnoc(ballotOf: Event -> Option<Ballot>, evs: seq<Event>, ev: Event, p: int)
    ensures TallyOf(ballotOf, evs + [ev], p) == After(TallyOf(ballotOf, evs, p), ballotOf(ev), p)
  {
    assert (evs + [ev])[..|evs|] == evs;
  }

  /** A proposal table as ids and tallies. */
  function LoanTallies(m: map<int, LoanProposal>): map<int, Tally> {
    map p | p in m :: m[p].tally
  }

  function TreasuryTallies(m: map<int, TreasuryProposal>): map<int, Tally> {
    map p | p in m :: m[p].tally
  }

  lemma LoanTalliesUpdate(m: map<int, LoanProposal>, id: int, row: LoanProposal)
    ensures LoanTallies(m[id := row]) == LoanTallies(m)[id := row.tally]
  {
  }

  lemma TreasuryTalliesUpdate(m: map<int, TreasuryProposal>, id: int, row: TreasuryProposal)
    ensures TreasuryTallies(m[id := row]) == TreasuryTallies(m)[id := row.tally]
  {
  }

  /** Writing back a row with its own tally changes no tally. */
  lemma SameTally(m: map<int, Tally>, id: int, tally: Tally)
    requires id in m && m[id] == tally
    ensures m[id := tally] == m
  {
  }

  /** The whole effect of one event on the tallies of a table. */
  ghost predicate Moves(m: map<int, Tally>, m': map<int, Tally>, request: Option<int>, ballot: Option<Ballot>) {
    && (forall p :: p in m' <==> p in m || request == Some(p))
    && (forall p :: p in m ==> m'[p] == After(m[p], ballot, p))
    && (forall p :: p in m' && p !in m ==> m'[p] == NO_VOTES)
  }

  lemma IdleMoves(m: map<int, Tally>)
    ensures Moves(m, m, None, None)
  {
  }

  lemma RequestMoves(m: map<int, Tally>, id: int, tally: Tally)
    requires tally == if id in m then m[id] else NO_VOTES
    ensures Moves(m, m[id := tally], Some(id), None)
  {
  }

  lemma BallotMoves(m: map<int, Tally>, b: Ballot)
    requires b.id in m
    ensures Moves(m, m[b.id := Counted(m[b.id], b.support, b.weight)], None, Some(b))
  {
  }

  lemma StrayBallotMoves(m: map<int, Tally>, b: Ballot)
    requires b.id !in m
    ensures Moves(m, m, None, Some(b))
  {
  }

  lemma LoanReqMoves(c: Core, ev: Event)
    requires KindOf(ev.symbol) == KLoanReq
    ensures Moves(LoanTallies(c.loanProposals), LoanTallies(Next(c, LoanReq(c, ev)).loanProposals), LoanRequest(ev),
                  None)
  {
    hide Moves, KindOf;
    var m := c.loanProposals;
    IdleMoves(LoanTallies(m));
    if LoanReq(c, ev).Ok? {
      var id := RequireId(ev, "id").value;
      var row := LoanReq(c, ev).value.core.loanProposals[id];
      LoanTalliesUpdate(m, id, row);
      RequestMoves(LoanTallies(m), id, row.tally);
    }
  }

  lemma LoanVoteMoves(c: Core, ev: Event)
    ensures Moves(LoanTallies(c.loanProposals), LoanTallies(Next(c, LoanVote(c, ev)).loanProposals), None,
                  BallotIn(ev, "proposal_id"))
  {
    hide Moves;
    var m := c.loanProposals;
    IdleMoves(LoanTallies(m));
    if LoanVote(c, ev).Ok? {
      var b := BallotIn(ev, "proposal_id").value;
      if b.id in m {
        LoanTalliesUpdate(m, b.id, m[b.id].(tally := Counted(m[b.id].tally, b.support, b.weight)));
        BallotMoves(LoanTallies(m), b);
      } else {
        StrayBallotMoves(LoanTallies(m), b);
      }
    }
  }

  /** A row written back with its own tally. */
  predicate LoanRowKept(m: map<int, LoanProposal>, m': map<int, LoanProposal>, id: int) {
    m' == m || (id in m && id in m' && m' == m[id := m'[id]] && m'[id].tally == m[id].tally)
  }

  predicate TreasuryRowKept(m: map<int, TreasuryProposal>, m': map<int, TreasuryProposal>, id: int) {
    m' == m || (id in m && id in m' && m' == m[id := m'[id]] && m'[id].tally == m[id].tally)
  }

  lemma LoanRowKeptTallies(m: map<int, LoanProposal>, m': map<int, LoanProposal>, id: int)
    requires LoanRowKept(m, m', id)
    ensures LoanTallies(m') == LoanTallies(m)
  {
    if m' != m {
      LoanTalliesUpdate(m, id, m'[id]);
      SameTally(LoanTallies(m), id, m'[id].tally);
    }
  }

  lemma TreasuryRowKeptTallies(m: map<int, TreasuryProposal>, m': map<int, TreasuryProposal>, id: int)
    requires TreasuryRowKept(m, m', id)
    ensures TreasuryTallies(m') == TreasuryTallies(m)
  {
    if m' != m {
      TreasuryTalliesUpdate(m, id, m'[id]);
      SameTally(TreasuryTallies(m), id, m'[id].tally);
    }
  }

  lemma LoanEditKeeps(c: Core, ev: Event)
    ensures LoanTallies(Next(c, LoanEdit(c, ev)).loanProposals) == LoanTallies(c.loanProposals)
  {
    if LoanEdit(c, ev).Ok? {
      LoanRowKeptTallies(c.loanProposals, LoanEdit(c, ev).value.core.loanProposals, RequireId(ev, "proposal_id").value);
    }
  }

  lemma LoanSettledKeeps(c: Core, ev: Event, status: ProposalStatus)
    ensures LoanTallies(Next(c, LoanSettled(c, ev, status)).loanProposals) == LoanTallies(c.loanProposals)
  {
    if LoanSettled(c, ev, status).Ok? {
      LoanRowKeptTallies(c.loanProposals, LoanSettled(c, ev, status).value.core.loanProposals,
                         RequireId(ev, "id").value);
    }
  }

  lemma LoanExpKeeps(c: Core, ev: Event)
    ensures LoanTallies(Next(c, LoanExp(c, ev)).loanProposals) == LoanTallies(c.loanProposals)
  {
    if LoanExp(c, ev).Ok? {
      LoanRowKeptTallies(c.loanProposals, LoanExp(c, ev).value.core.loanProposals, RequireId(ev, "proposal_id").value);
    }
  }

  lemma LoanApprKeeps(c: Core, ev: Event)
    ensures LoanTallies(Next(c, LoanAppr(c, ev)).loanProposals) == LoanTallies(c.loanProposals)
  {
    hide OpenLoan, WithActiveLoan;
    if LoanAppr(c, ev).Ok? {
      LoanRowKeptTallies(c.loanProposals, LoanAppr(c, ev).value.core.loanProposals, RequireId(ev, "id").value);
    }
  }

  lemma TrePropMoves(c: Core, ev: Event)
    requires KindOf(ev.symbol) == KTreProp
    ensures Moves(TreasuryTallies(c.treasury), TreasuryTallies(Next(c, TreProp(c, ev)).treasury), TreasuryRequest(ev),
                  None)
  {
    hide Moves, KindOf;
    var m := c.treasury;
    IdleMoves(TreasuryTallies(m));
    if TreProp(c, ev).Ok? {
      var id := RequireId(ev, "id").value;
      var row := TreProp(c, ev).value.core.treasury[id];
      TreasuryTalliesUpdate(m, id, row);
      RequestMoves(TreasuryTallies(m), id, row.tally);
    }
  }

  lemma TreVoteMoves(c: Core, ev: Event, idField: string)
    ensures Moves(TreasuryTallies(c.treasury), TreasuryTallies(Next(c, TreVote(c, ev, idField)).treasury), None,
                  BallotIn(ev, idField))
  {
    hide Moves;
    var m := c.treasury;
    IdleMoves(TreasuryTallies(m));
    if TreVote(c, ev, idField).Ok? {
      var b := BallotIn(ev, idField).value;
      if b.id in m {
        TreasuryTalliesUpdate(m, b.id, m[b.id].(tally := Counted(m[b.id].tally, b.support, b.weight)));
        BallotMoves(TreasuryTallies(m), b);
      } else {
        StrayBallotMoves(TreasuryTallies(m), b);
      }
    }
  }

  lemma TreSettledKeeps(c: Core, ev: Event, status: ProposalStatus)
    ensures TreasuryTallies(Next(c, TreSettled(c, ev, status)).treasury) == TreasuryTallies(c.treasury)
  {
    if TreSettled(c, ev, status).Ok? {
      TreasuryRowKeptTallies(c.treasury, TreSettled(c, ev, status).value.core.treasury, RequireId(ev, "id").value);
    }
  }

  lemma TreExecKeeps(c: Core, ev: Event)
    ensures TreasuryTallies(Next(c, TreExec(c, ev)).treasury) == TreasuryTallies(c.treasury)
  {
    if TreExec(c, ev).Ok? {
      TreasuryRowKeptTallies(c.treasury, TreExec(c, ev).value.core.treasury, RequireId(ev, "id").value);
    }
  }

  /** Other events leave the proposal tables alone. */
  lemma OthersLeaveProposals(c: Core, ev: Event)
    ensures !ChangesLoanProposals(KindOf(ev.symbol)) ==> Next(c, Handle(c, ev)).loanProposals == c.loanProposals
    ensures !ChangesTreasury(KindOf(ev.symbol)) ==> Next(c, Handle(c, ev)).treasury == c.treasury
  {
    hide KindOf, Handle, Next;
    HandlersKeep(c, ev);
  }

  /** What an event that is no request and no ballot says about proposals. */
  lemma OthersSayNothing(ev: Event)
    ensures !KindOf(ev.symbol).KLoanReq? ==> LoanRequest(ev) == None
    ensures !KindOf(ev.symbol).KTreProp? ==> TreasuryRequest(ev) == None
    ensures LoanBallot(ev) == if KindOf(ev.symbol).KLoanVote? then BallotIn(ev, "proposal_id") else None
    ensures TreasuryBallot(ev) ==
            match KindOf(ev.symbol)
            case KTreVote => BallotIn(ev, "id")
            case KRevealed => BallotIn(ev, "proposal_id")
            case _ => None
  {
    hide KindOf, BallotIn;
  }

  lemma LoanStep(c: Core, ev: Event)
    ensures Moves(LoanTallies(c.loanProposals), LoanTallies(Next(c, Handle(c, ev)).loanProposals), LoanRequest(ev),
                  LoanBallot(ev))
  {
    hide *;
    LoanProposalHandlers(c, ev);
    OthersSayNothing(ev);
    IdleMoves(LoanTallies(c.loanProposals));
    match KindOf(ev.symbol) {
      case KLoanReq => LoanReqMoves(c, ev);
      case KLoanVote => LoanVoteMoves(c, ev);
      case KLoanEdit => LoanEditKeeps(c, ev);
      case KLoanWait => LoanSettledKeeps(c, ev, AwaitingFunds);
      case KLoanRej => LoanSettledKeeps(c, ev, Rejected);
      case KLoanExp => LoanExpKeeps(c, ev);
      case KLoanAppr => LoanApprKeeps(c, ev);
      case _ =>
    }
  }

  lemma TreasuryStep(c: Core, ev: Event)
    ensures Moves(TreasuryTallies(c.treasury), TreasuryTallies(Next(c, Handle(c, ev)).treasury), TreasuryRequest(ev),
                  TreasuryBallot(ev))
  {
    hide *;
    TreasuryHandlers(c, ev);
    OthersSayNothing(ev);
    IdleMoves(TreasuryTallies(c.treasury));
    match KindOf(ev.symbol) {
      case KTreProp => TrePropMoves(c, ev);
      case KTreVote => TreVoteMoves(c, ev, "id");
      case KRevealed => TreVoteMoves(c, ev, "proposal_id");
      case KTreWait => TreSettledKeeps(c, ev, AwaitingFunds);
      case KTreRej => TreSettledKeeps(c, ev, Rejected);
      case KTreExec => TreExecKeeps(c, ev);
      case _ =>
    }
  }

  predicate NoRequest(requestOf: Event -> Option<int>, evs: seq<Event>, p: int) {
    forall e :: e in evs ==> requestOf(e) != Some(p)
  }

  lemma {:induction false} LoanAbsentBefore(evs: seq<Event>, p: int)
    requires NoRequest(LoanRequest, evs, p)
    ensures p !in LoanTallies(FoldSkipping(Apply, EMPTY, evs).core.loanProposals)
  {
    if evs != [] {
      hide Attempt, Next, Handle, LoanTallies;
      var n := |evs| - 1;
      LoanAbsentBefore(evs[..n], p);
      AttemptIsNext(FoldSkipping(Apply, EMPTY, evs[..n]), evs[n]);
      LoanStep(FoldSkipping(Apply, EMPTY, evs[..n]).core, evs[n]);
    }
  }

  lemma {:induction false} TreasuryAbsentBefore(evs: seq<Event>, p: int)
    requires NoRequest(TreasuryRequest, evs, p)
    ensures p !in TreasuryTallies(FoldSkipping(Apply, EMPTY, evs).core.treasury)
  {
    if evs != [] {
      hide Attempt, Next, Handle, TreasuryTallies;
      var n := |evs| - 1;
      TreasuryAbsentBefore(evs[..n], p);
      AttemptIsNext(FoldSkipping(Apply, EMPTY, evs[..n]), evs[n]);
      TreasuryStep(FoldSkipping(Apply, EMPTY, evs[..n]).core, evs[n]);
    }
  }

  /** From its first request on, whatever happens after it (re-requests, edits and throwing events
      included), a loan proposal's tally is the tally of its votes since. */
  lemma {:induction false} LoanTalliesAgreeWithLog(before: seq<Event>, req: Event, after: seq<Event>, p: int)
    requires NoRequest(LoanRequest, before, p) && LoanRequest(req) == Some(p)
    ensures var c := FoldSkipping(Apply, EMPTY, before + [req] + after).core;
            p in c.loanProposals && c.loanProposals[p].tally == TallyOf(LoanBallot, after, p)
    decreases |after|
  {
    hide Attempt, Next, Handle, LoanRequest, LoanBallot, FoldSkipping;
    if after == [] {
      LoanAbsentBefore(before, p);
      LoanStep(FoldSkipping(Apply, EMPTY, before).core, req);
      AttemptIsNext(FoldSkipping(Apply, EMPTY, before), req);
      FoldSkippingSnoc(Apply, EMPTY, before, req);
      assert before + [req] + [] == before + [req];
    } else {
      var n := |after| - 1;
      var start := before + [req] + after[..n];
      LoanTalliesAgreeWithLog(before, req, after[..n], p);
      LoanStep(FoldSkipping(Apply, EMPTY, start).core, after[n]);
      AttemptIsNext(FoldSkipping(Apply, EMPTY, start), after[n]);
      FoldSkippingSnoc(Apply, EMPTY, start, after[n]);
      TallySnoc(LoanBallot, after[..n], after[n], p);
      assert after[..n] + [after[n]] == after;
      assert start + [after[n]] == before + [req] + after;
    }
  }

  /** The same for treasury proposals, open and revealed ballots together. */
  lemma {:induction false} TreasuryTalliesAgreeWithLog(before: seq<Event>, req: Event, after: seq<Event>, p: int)
    requires NoRequest(TreasuryRequest, before, p) && TreasuryRequest(req) == Some(p)
    ensures var c := FoldSkipping(Apply, EMPTY, before + [req] + after).core;
            p in c.treasury && c.treasury[p].tally == TallyOf(TreasuryBallot, after, p)
    decreases |after|
  {
    hide Attempt, Next, Handle, TreasuryRequest, TreasuryBallot, FoldSkipping;
    if after == [] {
      TreasuryAbsentBefore(before, p);
      TreasuryStep(FoldSkipping(Apply, EMPTY, before).core, req);
      AttemptIsNext(FoldSkipping(Apply, EMPTY, before), req);
      FoldSkippingSnoc(Apply, EMPTY, before, req);
      assert before + [req] + [] == before + [req];
    } else {
      var n := |after| - 1;
      var start := before + [req] + after[..n];
      TreasuryTalliesAgreeWithLog(before, req, after[..n], p);
      TreasuryStep(FoldSkipping(Apply, EMPTY, start).core, after[n]);
      AttemptIsNext(FoldSkipping(Apply, EMPTY, start), after[n]);
      FoldSkippingSnoc(Apply, EMPTY, start, after[n]);
      TallySnoc(TreasuryBallot, after[..n], after[n], p);
      assert after[..n] + [after[n]] == after;
      assert start + [after[n]] == before + [req] + after;
    }
  }

  /** While the contract publishes no weights, every ballot counts one. */
  lemma {:induction false} UnweightedBallotsAddUp(ballotOf: Event -> Option<Ballot>, evs: seq<Event>, p: int)
    requires forall e :: e in evs && ballotOf(e).Some? && ballotOf(e).value.id == p ==> ballotOf(e).value.weight == 1
    ensures Cast(ballotOf, evs, p, true) + Cast(ballotOf, evs, p, false) == Ballots(ballotOf, evs, p)
  {
    if evs != [] {
      UnweightedBallotsAddUp(ballotOf, evs[..|evs| - 1], p);
      assert evs[|evs| - 1] in evs;
    }
  }

  lemma NullWeightIsOne(ev: Event, idField: string)
    requires Field(ev, "weight") == Null && BallotIn(ev, idField).Some?
    ensures BallotIn(ev, idField).value.weight == 1
  {
  }

  /** While the contract publishes no weights, the votes for and against a proposal add up to its number of
      voters, in every state of its life. */
  lemma WithoutWeightsEachVoterCountsOnce(before: seq<Event>, req: Event, after: seq<Event>, p: int)
    requires forall e :: e in after ==> Field(e, "weight") == Null
    ensures NoRequest(LoanRequest, before, p) && LoanRequest(req) == Some(p) ==>
              var c := FoldSkipping(Apply, EMPTY, before + [req] + after).core;
              p in c.loanProposals && AddsUp(c.loanProposals[p].tally)
    ensures NoRequest(TreasuryRequest, before, p) && TreasuryRequest(req) == Some(p) ==>
              var c := FoldSkipping(Apply, EMPTY, before + [req] + after).core;
              p in c.treasury && AddsUp(c.treasury[p].tally)
  {
    hide Apply, FoldSkipping;
    if NoRequest(LoanRequest, before, p) && LoanRequest(req) == Some(p) {
      LoanTalliesAgreeWithLog(before, req, after, p);
    }
    if NoRequest(TreasuryRequest, before, p) && TreasuryRequest(req) == Some(p) {
      TreasuryTalliesAgreeWithLog(before, req, after, p);
    }
    hide NoRequest, LoanRequest, TreasuryRequest;
    WeightlessBallotsCountOne(after);
    UnweightedBallotsAddUp(LoanBallot, after, p);
    UnweightedBallotsAddUp(TreasuryBallot, after, p);
  }

  predicate AddsUp(tally: Tally) {
    tally.votesFor + tally.votesAgainst == tally.voters
  }

  lemma WeightlessBallotsCountOne(evs: seq<Event>)
    requires forall e :: e in evs ==> Field(e, "weight") == Null
    ensures forall e :: e in evs && LoanBallot(e).Some? ==> LoanBallot(e).value.weight == 1
    ensures forall e :: e in evs && TreasuryBallot(e).Some? ==> TreasuryBallot(e).value.weight == 1
  {
    hide KindOf;
    forall e | e in evs
      ensures LoanBallot(e).Some? ==> LoanBallot(e).value.weight == 1
      ensures TreasuryBallot(e).Some? ==> TreasuryBallot(e).value.weight == 1
    {
      if BallotIn(e, "id").Some? {
        NullWeightIsOne(e, "id");
      }
      if BallotIn(e, "proposal_id").Some? {
        NullWeightIsOne(e, "proposal_id");
      }
      hide BallotIn;
    }
  }

  // What a ballot holds

  /** A ballot is read exactly from an event whose id field holds the proposal, whose field "support" holds the flag and
      whose weight is missing, null or a whole amount. */
  predicate HoldsBallot(ev: Event, idField: string, p: int, support: bool, weight: nat) {
    && Readings.HoldsId(ev, idField, p)
    && Readings.Holds(ev, "support", Bool(support))
    && (if "weight" !in ev.fields || ev.fields["weight"] == Null then weight == 1
        else Readings.HoldsAmount(ev, "weight", weight))
  }

  lemma BallotIsRead(ev: Event, idField: string, p: int, support: bool, weight: nat)
    ensures BallotIn(ev, idField) == Some(Ballot(p, support, weight)) <==> HoldsBallot(ev, idField, p, support, weight)
  {
    Readings.IdIsRead(ev, idField, p);
    Readings.FlagIsRead(ev, "support", support);
    Readings.WeightIsRead(ev, weight);
    hide RequireId, RequireBool, WeightOf, Readings.HoldsId, Readings.Holds, Readings.HoldsAmount;
  }

  /** The votes on one side and the number of voters, after one more ballot. */
  predicate CountsOn(before: Tally, after: Tally, support: bool, weight: nat) {
    && after.votesFor == before.votesFor + (if support then weight else 0)
    && after.votesAgainst == before.votesAgainst + (if support then 0 else weight)
    && after.voters == before.voters + 1
  }

  /** One ballot on one proposal: its tally counts it, and no other tally changes. */
  ghost predicate CountsOnly(m: map<int, Tally>, m': map<int, Tally>, p: int, support: bool, weight: nat) {
    && m'.Keys == m.Keys
    && (p in m ==> CountsOn(m[p], m'[p], support, weight))
    && (forall q :: q in m && q != p ==> m'[q] == m[q])
  }

  lemma MovesCountsOnly(m: map<int, Tally>, m': map<int, Tally>, p: int, support: bool, weight: nat)
    requires Moves(m, m', None, Some(Ballot(p, support, weight)))
    ensures CountsOnly(m, m', p, support, weight)
  {
    forall q
      ensures q in m' <==> q in m
    {
    }
  }

  /** A vote on a loan proposal counts on the side its field names, by its weight, on that proposal and no other. */
  lemma LoanVoteCountsOnItsSide(c: Core, ev: Event, p: int, support: bool, weight: nat)
    requires ev.symbol == "loan_vote" && HoldsBallot(ev, "proposal_id", p, support, weight)
    ensures CountsOnly(LoanTallies(c.loanProposals), LoanTallies(Next(c, Handle(c, ev)).loanProposals), p, support,
                       weight)
  {
    hide KindOf, BallotIn, HoldsBallot, Handle, Next, LoanTallies, Moves, CountsOnly, LoanRequest, LoanBallot,
         TreasuryRequest, TreasuryBallot;
    Readings.KindsAreSymbols(ev.symbol);
    BallotIsRead(ev, "proposal_id", p, support, weight);
    OthersSayNothing(ev);
    LoanStep(c, ev);
    MovesCountsOnly(LoanTallies(c.loanProposals), LoanTallies(Next(c, Handle(c, ev)).loanProposals), p, support,
                    weight);
  }

  /** An open treasury vote names its proposal in `id`, a revealed one in `proposal_id`; both count alike. */
  lemma TreasuryVoteCountsOnItsSide(c: Core, ev: Event, p: int, support: bool, weight: nat)
    requires (ev.symbol == "tre_vote" && HoldsBallot(ev, "id", p, support, weight))
             || (ev.symbol == "revealed" && HoldsBallot(ev, "proposal_id", p, support, weight))
    ensures CountsOnly(TreasuryTallies(c.treasury), TreasuryTallies(Next(c, Handle(c, ev)).treasury), p, support,
                       weight)
  {
    hide KindOf, BallotIn, HoldsBallot, Handle, Next, TreasuryTallies, Moves, CountsOnly, LoanRequest, LoanBallot,
         TreasuryRequest, TreasuryBallot;
    Readings.KindsAreSymbols(ev.symbol);
    BallotIsRead(ev, if ev.symbol == "tre_vote" then "id" else "proposal_id", p, support, weight);
    OthersSayNothing(ev);
    TreasuryStep(c, ev);
    MovesCountsOnly(TreasuryTallies(c.treasury), TreasuryTallies(Next(c, Handle(c, ev)).treasury), p, support, weight);
  }
}
