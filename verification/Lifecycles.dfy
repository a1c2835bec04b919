/**
 * How proposals and notifications evolve: a proposal leaves `pending` at most once and an approved or executed
 * one stays so; a notification tells of a folded event, once per address, and no later event alters it.
 */
module Lifecycles {
  import opened Outcomes
  import opened Events
  import opened Decimal
  import opened EventLog
  import opened Handlers
  import opened Frames

  /** What a proposal's status may become: anything from pending, the final status from anywhere. */
  predicate MayBecome(s: ProposalStatus, s': ProposalStatus, last: ProposalStatus) {
    s' == s || s == Pending || s' == last
  }

  ghost predicate LoanStatusesMove(m: map<int, LoanProposal>, m': map<int, LoanProposal>) {
    && (forall p :: p in m ==> p in m' && MayBecome(m[p].status, m'[p].status, Approved))
    && (forall p :: p in m' && p !in m ==> m'[p].status == Pending)
  }

  ghost predicate TreasuryStatusesMove(m: map<int, TreasuryProposal>, m': map<int, TreasuryProposal>) {
    && (forall p :: p in m ==> p in m' && MayBecome(m[p].status, m'[p].status, Executed))
    && (forall p :: p in m' && p !in m ==> m'[p].status == Pending)
  }

  lemma LoanStatusesStay(m: map<int, LoanProposal>)
    ensures LoanStatusesMove(m, m)
  {
  }

  lemma TreasuryStatusesStay(m: map<int, TreasuryProposal>)
    ensures TreasuryStatusesMove(m, m)
  {
  }

  /** Writing one row, new and pending or old with a status it may move to. */
  lemma LoanRowMoves(m: map<int, LoanProposal>, m': map<int, LoanProposal>, id: int)
    requires id in m' && m' == m[id := m'[id]]
    requires if id in m then MayBecome(m[id].status, m'[id].status, Approved)
             else m'[id].status == Pending
    ensures LoanStatusesMove(m, m')
  {
  }

  /** Writing one row, new and pending or old with a status it may move to. */
  lemma TreasuryRowMoves(m: map<int, TreasuryProposal>, m': map<int, TreasuryProposal>, id: int)
    requires id in m' && m' == m[id := m'[id]]
    requires if id in m then MayBecome(m[id].status, m'[id].status, Executed)
             else m'[id].status == Pending
    ensures TreasuryStatusesMove(m, m')
  {
  }

  lemma RequestMoves(c: Core, ev: Event)
    ensures LoanStatusesMove(c.loanProposals, Next(c, LoanReq(c, ev)).loanProposals)
  {
    hide Parse, LoanStatusesMove;
    LoanStatusesStay(c.loanProposals);
    var m' := Next(c, LoanReq(c, ev)).loanProposals;
    if m' != c.loanProposals {
      LoanRowMoves(c.loanProposals, m', RequireId(ev, "id").value);
    }
  }

  lemma EditMoves(c: Core, ev: Event)
    ensures LoanStatusesMove(c.loanProposals, Next(c, LoanEdit(c, ev)).loanProposals)
  {
    hide Parse, LoanStatusesMove;
    LoanStatusesStay(c.loanProposals);
    var m' := Next(c, LoanEdit(c, ev)).loanProposals;
    if m' != c.loanProposals {
      LoanRowMoves(c.loanProposals, m', RequireId(ev, "proposal_id").value);
    }
  }

  lemma VoteMoves(c: Core, ev: Event)
    ensures LoanStatusesMove(c.loanProposals, Next(c, LoanVote(c, ev)).loanProposals)
  {
    hide Parse, LoanStatusesMove;
    LoanStatusesStay(c.loanProposals);
    var m' := Next(c, LoanVote(c, ev)).loanProposals;
    if m' != c.loanProposals {
      LoanRowMoves(c.loanProposals, m', RequireId(ev, "proposal_id").value);
    }
  }

  lemma SettlementMoves(c: Core, ev: Event, status: ProposalStatus)
    requires status != Pending
    ensures LoanStatusesMove(c.loanProposals, Next(c, LoanSettled(c, ev, status)).loanProposals)
  {
    hide Parse, LoanStatusesMove;
    LoanStatusesStay(c.loanProposals);
    var m' := Next(c, LoanSettled(c, ev, status)).loanProposals;
    if m' != c.loanProposals {
      LoanRowMoves(c.loanProposals, m', RequireId(ev, "id").value);
    }
  }

  lemma ExpiryMoves(c: Core, ev: Event)
    ensures LoanStatusesMove(c.loanProposals, Next(c, LoanExp(c, ev)).loanProposals)
  {
    hide Parse, LoanStatusesMove;
    LoanStatusesStay(c.loanProposals);
    var m' := Next(c, LoanExp(c, ev)).loanProposals;
    if m' != c.loanProposals {
      LoanRowMoves(c.loanProposals, m', RequireId(ev, "proposal_id").value);
    }
  }

  lemma ApprovalMoves(c: Core, ev: Event)
    ensures LoanStatusesMove(c.loanProposals, Next(c, LoanAppr(c, ev)).loanProposals)
  {
    hide OpenLoan, WithActiveLoan, Parse, LoanStatusesMove;
    LoanStatusesStay(c.loanProposals);
    var m' := Next(c, LoanAppr(c, ev)).loanProposals;
    if m' != c.loanProposals {
      LoanRowMoves(c.loanProposals, m', RequireId(ev, "id").value);
    }
  }

  lemma ProposalMoves(c: Core, ev: Event)
    ensures TreasuryStatusesMove(c.treasury, Next(c, TreProp(c, ev)).treasury)
  {
    hide Parse, TreasuryStatusesMove;
    TreasuryStatusesStay(c.treasury);
    var m' := Next(c, TreProp(c, ev)).treasury;
    if m' != c.treasury {
      TreasuryRowMoves(c.treasury, m', RequireId(ev, "id").value);
    }
  }

  lemma TreasuryVoteMoves(c: Core, ev: Event, idField: string)
    ensures TreasuryStatusesMove(c.treasury, Next(c, TreVote(c, ev, idField)).treasury)
  {
    hide Parse, TreasuryStatusesMove;
    TreasuryStatusesStay(c.treasury);
    var m' := Next(c, TreVote(c, ev, idField)).treasury;
    if m' != c.treasury {
      TreasuryRowMoves(c.treasury, m', RequireId(ev, idField).value);
    }
  }

  lemma TreasurySettlementMoves(c: Core, ev: Event, status: ProposalStatus)
    requires status != Pending
    ensures TreasuryStatusesMove(c.treasury, Next(c, TreSettled(c, ev, status)).treasury)
  {
    hide Parse, TreasuryStatusesMove;
    TreasuryStatusesStay(c.treasury);
    var m' := Next(c, TreSettled(c, ev, status)).treasury;
    if m' != c.treasury {
      TreasuryRowMoves(c.treasury, m', RequireId(ev, "id").value);
    }
  }

  lemma ExecutionMoves(c: Core, ev: Event)
    ensures TreasuryStatusesMove(c.treasury, Next(c, TreExec(c, ev)).treasury)
  {
    hide Parse, TreasuryStatusesMove;
    TreasuryStatusesStay(c.treasury);
    var m' := Next(c, TreExec(c, ev)).treasury;
    if m' != c.treasury {
      TreasuryRowMoves(c.treasury, m', RequireId(ev, "id").value);
    }
  }

  lemma LoanStep(c: Core, ev: Event)
    ensures LoanStatusesMove(c.loanProposals, Next(c, Handle(c, ev)).loanProposals)
  {
    assert AwaitingFunds != Pending && Rejected != Pending;
    hide *;
    LoanProposalHandlers(c, ev);
    LoanStatusesStay(c.loanProposals);
    match KindOf(ev.symbol) {
      case KLoanReq => RequestMoves(c, ev);
      case KLoanEdit => EditMoves(c, ev);
      case KLoanVote => VoteMoves(c, ev);
      case KLoanWait => SettlementMoves(c, ev, AwaitingFunds);
      case KLoanRej => SettlementMoves(c, ev, Rejected);
      case KLoanExp => ExpiryMoves(c, ev);
      case KLoanAppr => ApprovalMoves(c, ev);
      case _ =>
    }
  }

  lemma TreasuryStep(c: Core, ev: Event)
    ensures TreasuryStatusesMove(c.treasury, Next(c, Handle(c, ev)).treasury)
  {
    assert AwaitingFunds != Pending && Rejected != Pending;
    hide *;
    TreasuryHandlers(c, ev);
    TreasuryStatusesStay(c.treasury);
    match KindOf(ev.symbol) {
      case KTreProp => ProposalMoves(c, ev);
      case KTreVote => TreasuryVoteMoves(c, ev, "id");
      case KRevealed => TreasuryVoteMoves(c, ev, "proposal_id");
      case KTreWait => TreasurySettlementMoves(c, ev, AwaitingFunds);
      case KTreRej => TreasurySettlementMoves(c, ev, Rejected);
      case KTreExec => ExecutionMoves(c, ev);
      case _ =>
    }
  }

  lemma LoanStepAt(evs: seq<Event>, k: nat, p: int)
    requires k < |evs| && p in CoreAfter(evs, k).loanProposals
    ensures p in CoreAfter(evs, k + 1).loanProposals
    ensures MayBecome(CoreAfter(evs, k).loanProposals[p].status, CoreAfter(evs, k + 1).loanProposals[p].status,
                      Approved)
  {
    hide CoreAfter, Handle, Next, MayBecome;
    CoreSteps(evs, k);
    LoanStep(CoreAfter(evs, k), evs[k]);
  }

  lemma TreasuryStepAt(evs: seq<Event>, k: nat, p: int)
    requires k < |evs| && p in CoreAfter(evs, k).treasury
    ensures p in CoreAfter(evs, k + 1).treasury
    ensures MayBecome(CoreAfter(evs, k).treasury[p].status, CoreAfter(evs, k + 1).treasury[p].status, Executed)
  {
    hide CoreAfter, Handle, Next, MayBecome;
    CoreSteps(evs, k);
    TreasuryStep(CoreAfter(evs, k), evs[k]);
  }

  /** Between any two moments of any history a loan proposal stays, never returns to pending, and can otherwise
      only have become approved, which is final. */
  lemma {:induction false} LoanProposalLifecycle(evs: seq<Event>, i: nat, j: nat, p: int)
    requires i <= j <= |evs| && p in CoreAfter(evs, i).loanProposals
    ensures p in CoreAfter(evs, j).loanProposals
    ensures var s, s' := CoreAfter(evs, i).loanProposals[p].status, CoreAfter(evs, j).loanProposals[p].status;
            MayBecome(s, s', Approved) && (s != Pending ==> s' != Pending)
    decreases j
  {
    hide CoreAfter;
    if i < j {
      LoanProposalLifecycle(evs, i, j - 1, p);
      LoanStepAt(evs, j - 1, p);
    }
  }

  /** The same for a treasury proposal, whose final status is executed. */
  lemma {:induction false} TreasuryProposalLifecycle(evs: seq<Event>, i: nat, j: nat, p: int)
    requires i <= j <= |evs| && p in CoreAfter(evs, i).treasury
    ensures p in CoreAfter(evs, j).treasury
    ensures var s, s' := CoreAfter(evs, i).treasury[p].status, CoreAfter(evs, j).treasury[p].status;
            MayBecome(s, s', Executed) && (s != Pending ==> s' != Pending)
    decreases j
  {
    hide CoreAfter;
    if i < j {
      TreasuryProposalLifecycle(evs, i, j - 1, p);
      TreasuryStepAt(evs, j - 1, p);
    }
  }

  // Notifications

  function NotesAfter(evs: seq<Event>): Notes {
    FoldSkipping(Apply, EMPTY, evs).notifications
  }

  /** Every notification carries the ledger of a folded event with its id, and nobody is nobody. */
  ghost predicate Told(evs: seq<Event>, n: Notes) {
    forall k :: k in n ==> k.1 != "" && exists e :: e in evs && e.id == k.0 && n[k] == Notification(e.ledger, false)
  }

  lemma NotifyAdds(n: Notes, ev: Event, a: Address)
    ensures var n' := Notify(n, ev, a);
            && (forall k :: k in n ==> k in n' && n'[k] == n[k])
            && (forall k :: k in n' && k !in n ==>
                  k == (ev.id, a) && a != "" && n'[k] == Notification(ev.ledger, false))
  {
  }

  lemma NotesStep(t: Tables, ev: Event)
    ensures var n' := Attempt(Apply, t, ev).notifications;
            && (forall k :: k in t.notifications ==> k in n' && n'[k] == t.notifications[k])
            && (forall k :: k in n' && k !in t.notifications ==>
                  k.0 == ev.id && k.1 != "" && n'[k] == Notification(ev.ledger, false))
  {
    hide Handle, Notify;
    match Handle(t.core, ev) {
      case Ok(e) => NotifyAdds(t.notifications, ev, e.told);
      case Err(_) =>
    }
  }

  /** In every history, each notification tells of an event that was folded, one per event and address, and no
      later event removes or alters it. */
  lemma {:induction false} NotificationsTellOfEvents(evs: seq<Event>)
    ensures Told(evs, NotesAfter(evs))
    ensures evs != [] ==>
              var before := NotesAfter(evs[..|evs| - 1]);
              forall k :: k in before ==> k in NotesAfter(evs) && NotesAfter(evs)[k] == before[k]
  {
    if evs != [] {
      hide Apply, Attempt;
      var n := |evs| - 1;
      NotificationsTellOfEvents(evs[..n]);
      NotesStep(FoldSkipping(Apply, EMPTY, evs[..n]), evs[n]);
      var notes, before := NotesAfter(evs), NotesAfter(evs[..n]);
      forall k | k in notes
        ensures k.1 != "" && exists e :: e in evs && e.id == k.0 && notes[k] == Notification(e.ledger, false)
      {
        if k in before {
          var e :| e in evs[..n] && e.id == k.0 && before[k] == Notification(e.ledger, false);
          assert e in evs;
        } else {
          assert evs[n] in evs;
        }
      }
    }
  }
}
