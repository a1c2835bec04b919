/** Which derived tables an event of each kind may change, and how a history unfolds event by event. */
module Frames {
  import opened Outcomes
  import opened Events
  import opened EventLog
  import opened Handlers

  predicate ChangesMembers(k: Kind) {
    k.KJoined? || k.KExited? || k.KClaimed? || k.KStaked? || k.KUnstaked? || k.KNameReg? || ChangesLoans(k)
  }

  predicate ChangesLoanProposals(k: Kind) {
    k.KLoanReq? || k.KLoanVote? || k.KLoanEdit? || k.KLoanWait? || k.KLoanRej? || k.KLoanExp? || k.KLoanAppr?
  }

  predicate ChangesLoans(k: Kind) {
    k.KLoanAppr? || k.KLoanRpy? || k.KLoanDflt?
  }

  predicate ChangesTreasury(k: Kind) {
    k.KTreProp? || k.KTreVote? || k.KRevealed? || k.KTreWait? || k.KTreRej? || k.KTreExec?
  }

  /** The tables that an event of this kind leaves as they were. */
  predicate Keeps(k: Kind, c: Core, c': Core) {
    && (!ChangesMembers(k) ==> c'.members == c.members)
    && (!ChangesLoanProposals(k) ==> c'.loanProposals == c.loanProposals)
    && (!ChangesLoans(k) ==> c'.loans == c.loans && c'.daily == c.daily)
    && (!ChangesLoans(k) && !k.KInterest? ==> c'.totals == c.totals)
    && (!k.KInterest? ==> c'.interest == c.interest)
    && (!ChangesTreasury(k) ==> c'.treasury == c.treasury)
    && (!k.KDocAttn? ==> c'.documents == c.documents)
  }

  /** The tables after an event, whether or not it threw. */
  function Next(c: Core, r: Outcome<Effect>): Core {
    if r.Ok? then r.value.core else c
  }

  /** Every handler keeps to the tables of its kind. */
  lemma HandlersKeep(c: Core, ev: Event)
    ensures Keeps(KindOf(ev.symbol), c, Next(c, Handle(c, ev)))
  {
    hide KindOf, MemberJoined, MemberExited, MemberClaimed, StakeSet, NameReg, LoanReq, LoanEdit, LoanVote,
         LoanSettled, LoanExp, LoanAppr, LoanRpy, LoanDflt, Interest, TreProp, TreVote, TreSettled, TreExec, Committed,
         DocAttn;
  }

  lemma LoanProposalHandlers(c: Core, ev: Event)
    ensures match KindOf(ev.symbol)
            case KLoanReq => Handle(c, ev) == LoanReq(c, ev)
            case KLoanEdit => Handle(c, ev) == LoanEdit(c, ev)
            case KLoanVote => Handle(c, ev) == LoanVote(c, ev)
            case KLoanWait => Handle(c, ev) == LoanSettled(c, ev, AwaitingFunds)
            case KLoanRej => Handle(c, ev) == LoanSettled(c, ev, Rejected)
            case KLoanExp => Handle(c, ev) == LoanExp(c, ev)
            case KLoanAppr => Handle(c, ev) == LoanAppr(c, ev)
            case _ => Next(c, Handle(c, ev)).loanProposals == c.loanProposals
  {
    HandlersKeep(c, ev);
    hide KindOf, LoanReq, LoanEdit, LoanVote, LoanSettled, LoanExp, LoanAppr;
    if !ChangesLoanProposals(KindOf(ev.symbol)) {
      hide Handle;
    }
  }

  lemma LoanHandlers(c: Core, ev: Event)
    ensures match KindOf(ev.symbol)
            case KLoanAppr => Handle(c, ev) == LoanAppr(c, ev)
            case KLoanRpy => Handle(c, ev) == LoanRpy(c, ev)
            case KLoanDflt => Handle(c, ev) == LoanDflt(c, ev)
            case KInterest => Handle(c, ev) == Interest(c, ev)
            case _ =>
              var c' := Next(c, Handle(c, ev));
              c'.loans == c.loans && c'.daily == c.daily && c'.totals == c.totals && c'.interest == c.interest
  {
    HandlersKeep(c, ev);
    hide KindOf, LoanAppr, LoanRpy, LoanDflt, Interest;
    if !ChangesLoans(KindOf(ev.symbol)) && !KindOf(ev.symbol).KInterest? {
      hide Handle;
    }
  }

  lemma MemberHandlers(c: Core, ev: Event)
    ensures match KindOf(ev.symbol)
            case KJoined => Handle(c, ev) == MemberJoined(c, ev)
            case KExited => Handle(c, ev) == MemberExited(c, ev)
            case KClaimed => Handle(c, ev) == MemberClaimed(c, ev)
            case KStaked => Handle(c, ev) == StakeSet(c, ev)
            case KUnstaked => Handle(c, ev) == StakeSet(c, ev)
            case KNameReg => Handle(c, ev) == NameReg(c, ev)
            case KLoanAppr => Handle(c, ev) == LoanAppr(c, ev)
            case KLoanRpy => Handle(c, ev) == LoanRpy(c, ev)
            case KLoanDflt => Handle(c, ev) == LoanDflt(c, ev)
            case _ => Next(c, Handle(c, ev)).members == c.members
  {
    HandlersKeep(c, ev);
    hide KindOf, LoanAppr, LoanRpy, LoanDflt, MemberJoined, MemberExited, MemberClaimed, StakeSet, NameReg;
    if !ChangesMembers(KindOf(ev.symbol)) {
      hide Handle;
    }
  }

  lemma TreasuryHandlers(c: Core, ev: Event)
    ensures match KindOf(ev.symbol)
            case KTreProp => Handle(c, ev) == TreProp(c, ev)
            case KTreVote => Handle(c, ev) == TreVote(c, ev, "id")
            case KRevealed => Handle(c, ev) == TreVote(c, ev, "proposal_id")
            case KTreWait => Handle(c, ev) == TreSettled(c, ev, AwaitingFunds)
            case KTreRej => Handle(c, ev) == TreSettled(c, ev, Rejected)
            case KTreExec => Handle(c, ev) == TreExec(c, ev)
            case _ => Next(c, Handle(c, ev)).treasury == c.treasury
  {
    HandlersKeep(c, ev);
    hide KindOf, TreProp, TreVote, TreSettled, TreExec;
    if !ChangesTreasury(KindOf(ev.symbol)) {
      hide Handle;
    }
  }

  /** Folding an event into the tables is `Next` on everything but the notifications. */
  lemma AttemptIsNext(t: Tables, ev: Event)
    ensures Attempt(Apply, t, ev).core == Next(t.core, Handle(t.core, ev))
  {
    hide Handle;
  }

  /** The tables after the first `k` events of a history. */
  function CoreAfter(evs: seq<Event>, k: nat): Core
    requires k <= |evs|
  {
    FoldSkipping(Apply, EMPTY, evs[..k]).core
  }

  lemma CoreSteps(evs: seq<Event>, k: nat)
    requires k < |evs|
    ensures CoreAfter(evs, k + 1) == Next(CoreAfter(evs, k), Handle(CoreAfter(evs, k), evs[k]))
  {
    hide Handle, Next, Apply, Attempt;
    assert evs[..k + 1][..k] == evs[..k];
    AttemptIsNext(FoldSkipping(Apply, EMPTY, evs[..k]), evs[k]);
  }
}
