/**
 * The derived tables as they are updated in place, statement by statement, inside a transaction
 * (src/indexer/handlers.ts). Each handler is proved against its specification in `Handlers`.
 */
module TableStore {
  import opened Outcomes
  import opened Events
  import opened Decimal
  import opened Handlers

  /** The statement sequence did what the specification says, or threw the same error and wrote nothing. */
  predicate Meets(spec: Outcome<Effect>, ev: Event, r: Outcome<()>, before: Tables, after: Tables) {
    match spec
    case Ok(e) => r.Ok? && after == Tables(e.core, Notify(before.notifications, ev, e.told))
    case Err(m) => r == Err(m) && after == before
  }

  class Store {
    var members: map<Address, Member>
    var loanProposals: map<int, LoanProposal>
    var loans: map<int, Loan>
    var treasury: map<int, TreasuryProposal>
    var notifications: map<(EventId, Address), Notification>
    var interest: map<EventId, Distribution>
    var daily: map<int, Day>
    var documents: map<EventId, Document>
    var totals: Totals

    function View(): Tables
      reads this
    {
      Tables(Core(members, loanProposals, loans, treasury, interest, daily, documents, totals), notifications)
    }

    constructor ()
      ensures View() == EMPTY
    {
      members, loanProposals, loans, treasury := map[], map[], map[], map[];
      notifications, interest, daily, documents := map[], map[], map[], map[];
      totals := NO_TOTALS;
    }

    /** TRUNCATE of every derived table and `resetDaoTotals`. */
    method Truncate()
      modifies this
      ensures View() == EMPTY
    {
      members, loanProposals, loans, treasury := map[], map[], map[], map[];
      notifications, interest, daily, documents := map[], map[], map[], map[];
      totals := NO_TOTALS;
    }

    /** ROLLBACK to the tables as they were at BEGIN. */
    method Restore(t: Tables)
      modifies this
      ensures View() == t
    {
      var c := t.core;
      members, loanProposals, loans, treasury := c.members, c.loanProposals, c.loans, c.treasury;
      notifications, interest, daily, documents := t.notifications, c.interest, c.daily, c.documents;
      totals := c.totals;
    }

    method NotifyMember(ev: Event, address: Address)
      modifies this
      ensures View() == old(View()).(notifications := Notify(old(notifications), ev, address))
    {
      if address != "" && (ev.id, address) !in notifications {
        notifications := notifications[(ev.id, address) := Notification(ev.ledger, false)];
      }
    }

    method IncrementDailyLoanStats(day: int, d: Day)
      modifies this
      ensures View() == old(View()).(core := AddToDay(old(View()).core, day, d))
    {
      var was := if day in daily then daily[day] else Day(0, 0, 0, 0, 0);
      daily := daily[day := Day(was.originated + d.originated, was.lent + d.lent, was.repaid + d.repaid,
                                was.defaults + d.defaults, was.defaulted + d.defaulted)];
    }

    method OnJoined(ev: Event) returns (r: Outcome<()>)
      modifies this
      ensures Meets(MemberJoined(old(View()).core, ev), ev, r, old(View()), View())
    {
      var member :- RequireAddr(ev, "member");
      var fee :- RequireAmount(ev, "fee");
      if member !in members {
        members := members[member := Member(ev.ledger, 0, false, None, None, 0, 0, false, None, 0)];
      }
      members := members[member := members[member].(
        joinedLedger := ev.ledger, contribution := Parse(fee), exited := false,
        exitShare := None, exitedLedger := None, hasActiveLoan := false)];
      NotifyMember(ev, member);
      r := Ok(());
    }

    method OnExited(ev: Event) returns (r: Outcome<()>)
      modifies this
      ensures Meets(MemberExited(old(View()).core, ev), ev, r, old(View()), View())
    {
      var member :- RequireAddr(ev, "member");
      var share :- RequireAmount(ev, "share");
      if member in members {
        members := members[member := members[member].(
          exited := true, exitShare := Some(Parse(share)), exitedLedger := Some(ev.ledger),
          stake := 0, hasActiveLoan := false)];
      }
      NotifyMember(ev, member);
      r := Ok(());
    }

    method OnClaimed(ev: Event) returns (r: Outcome<()>)
      modifies this
      ensures Meets(MemberClaimed(old(View()).core, ev), ev, r, old(View()), View())
    {
      var member :- RequireAddr(ev, "member");
      var pending :- RequireAmount(ev, "pending");
      if member in members {
        members :=
          members[member := members[member].(pendingClaimed := members[member].pendingClaimed + Parse(pending))];
      }
      NotifyMember(ev, member);
      r := Ok(());
    }

    method OnStakeSet(ev: Event) returns (r: Outcome<()>)
      modifies this
      ensures Meets(StakeSet(old(View()).core, ev), ev, r, old(View()), View())
    {
      var member :- RequireAddr(ev, "member");
      var stake :- RequireAmount(ev, "new_stake");
      if member in members {
        members := members[member := members[member].(stake := Parse(stake))];
      }
      r := Ok(());
    }

    method OnNameReg(ev: Event) returns (r: Outcome<()>)
      modifies this
      ensures Meets(NameReg(old(View()).core, ev), ev, r, old(View()), View())
    {
      var owner :- RequireAddr(ev, "owner");
      if owner in members {
        members := members[owner := members[owner].(name := Some(Text(Field(ev, "name"))))];
      }
      r := Ok(());
    }

    method OnLoanReq(ev: Event) returns (r: Outcome<()>)
      modifies this
      ensures Meets(LoanReq(old(View()).core, ev), ev, r, old(View()), View())
    {
      var id :- RequireId(ev, "id");
      var borrower :- RequireAddr(ev, "borrower");
      var amount :- RequireAmount(ev, "amount");
      var total :- RequireAmount(ev, "total_repayment");
      if id in loanProposals {
        loanProposals :=
          loanProposals[id := loanProposals[id].(amount := Parse(amount), totalRepayment := Parse(total))];
      } else {
        loanProposals :=
          loanProposals[id := LoanProposal(borrower, Parse(amount), Parse(total), Pending, NO_VOTES,
                                                    ev.ledger)];
      }
      NotifyMember(ev, borrower);
      r := Ok(());
    }

    method OnLoanEdit(ev: Event) returns (r: Outcome<()>)
      modifies this
      ensures Meets(LoanEdit(old(View()).core, ev), ev, r, old(View()), View())
    {
      var id :- RequireId(ev, "proposal_id");
      var amount :- RequireAmount(ev, "new_amount");
      var total :- RequireAmount(ev, "total_repayment");
      if id in loanProposals {
        loanProposals :=
          loanProposals[id := loanProposals[id].(amount := Parse(amount), totalRepayment := Parse(total))];
      }
      r := Ok(());
    }

    method OnLoanVote(ev: Event) returns (r: Outcome<()>)
      modifies this
      ensures Meets(LoanVote(old(View()).core, ev), ev, r, old(View()), View())
    {
      var id :- RequireId(ev, "proposal_id");
      var support :- RequireBool(ev, "support");
      var weight :- WeightOf(ev);
      if id in loanProposals {
        var p := loanProposals[id];
        if support {
          p := p.(tally := p.tally.(votesFor := p.tally.votesFor + weight));
        } else {
          p := p.(tally := p.tally.(votesAgainst := p.tally.votesAgainst + weight));
        }
        loanProposals := loanProposals[id := p.(tally := p.tally.(voters := p.tally.voters + 1))];
      }
      r := Ok(());
    }

    method OnLoanSettled(ev: Event, status: ProposalStatus) returns (r: Outcome<()>)
      modifies this
      ensures Meets(LoanSettled(old(View()).core, ev, status), ev, r, old(View()), View())
    {
      var id :- RequireId(ev, "id");
      if id in loanProposals && loanProposals[id].status == Pending {
        loanProposals := loanProposals[id := loanProposals[id].(status := status)];
        NotifyMember(ev, loanProposals[id].borrower);
      }
      r := Ok(());
    }

    method OnLoanExp(ev: Event) returns (r: Outcome<()>)
      modifies this
      ensures Meets(LoanExp(old(View()).core, ev), ev, r, old(View()), View())
    {
      var id :- RequireId(ev, "proposal_id");
      var borrower :- RequireAddr(ev, "borrower");
      if id !in loanProposals || loanProposals[id].status != Pending {
        return Ok(());
      }
      loanProposals := loanProposals[id := loanProposals[id].(status := Rejected)];
      NotifyMember(ev, borrower);
      r := Ok(());
    }

    method InsertLoan(ev: Event, id: int, borrower: Address, amount: nat)
      modifies this
      ensures View() == old(View()).(core := OpenLoan(old(View()).core, ev, id, borrower, amount))
    {
      var total := if id in loanProposals then loanProposals[id].totalRepayment else amount;
      var isNew := id !in loans;
      if isNew {
        loans := loans[id := Loan(borrower, amount, total, total, Active, ev.ledger, None, None)];
        totals := totals.(principalLent := totals.principalLent + amount);
        IncrementDailyLoanStats(ev.closedDay, Day(1, amount, 0, 0, 0));
      } else {
        loans := loans[id := loans[id].(status := Active, approvedLedger := ev.ledger)];
      }
    }

    method SetActiveLoan(borrower: Address, active: bool)
      modifies this
      ensures View() == old(View()).(core := WithActiveLoan(old(View()).core, borrower, active))
    {
      if borrower in members {
        members := members[borrower := members[borrower].(hasActiveLoan := active)];
      }
    }

    method OnLoanAppr(ev: Event) returns (r: Outcome<()>)
      modifies this
      ensures Meets(LoanAppr(old(View()).core, ev), ev, r, old(View()), View())
    {
      var id :- RequireId(ev, "id");
      var borrower :- RequireAddr(ev, "borrower");
      var amount :- RequireAmount(ev, "amount");
      if id in loanProposals {
        loanProposals := loanProposals[id := loanProposals[id].(status := Approved)];
      }
      InsertLoan(ev, id, borrower, Parse(amount));
      SetActiveLoan(borrower, true);
      NotifyMember(ev, borrower);
      r := Ok(());
    }

    method UpdateLoan(ev: Event, id: int, outstanding: Digits)
      modifies this
      ensures View() == old(View()).(core := PayLoan(old(View()).core, ev, id, outstanding))
    {
      if id in loans {
        var prev := loans[id];
        var status := if outstanding == "0" then Repaid else Active;
        loans := loans[id := prev.(outstanding := Parse(outstanding), status := status,
                                   repaidLedger := if status == Repaid then Some(ev.ledger) else prev.repaidLedger)];
        if status == Repaid && prev.status != Repaid {
          totals := totals.(principalRepaid := totals.principalRepaid + prev.amount);
          IncrementDailyLoanStats(ev.closedDay, Day(0, 0, prev.amount, 0, 0));
        }
      }
    }

    method OnLoanRpy(ev: Event) returns (r: Outcome<()>)
      modifies this
      ensures Meets(LoanRpy(old(View()).core, ev), ev, r, old(View()), View())
    {
      var id :- RequireId(ev, "loan_id");
      var borrower :- RequireAddr(ev, "borrower");
      var outstanding :- RequireAmount(ev, "outstanding");
      UpdateLoan(ev, id, outstanding);
      if outstanding == "0" {
        SetActiveLoan(borrower, false);
      }
      NotifyMember(ev, borrower);
      r := Ok(());
    }

    method MarkDefaulted(ev: Event, id: int)
      requires id in loans
      modifies this
      ensures View() == old(View()).(core := DefaultLoan(old(View()).core, ev, id))
    {
      var balance := loans[id].outstanding;
      loans := loans[id := loans[id].(status := Defaulted, defaultedLedger := Some(ev.ledger))];
      totals := totals.(valueDefaulted := totals.valueDefaulted + balance);
      IncrementDailyLoanStats(ev.closedDay, Day(0, 0, 0, 1, balance));
    }

    method ApplyPenalty(borrower: Address, penalty: nat)
      modifies this
      ensures View() == old(View()).(core := Penalize(old(View()).core, borrower, penalty))
    {
      if borrower in members {
        var m := members[borrower];
        var left := m.contribution - penalty;
        if left < 0 {
          left := 0;
        }
        members :=
          members[borrower := m.(contribution := left, hasActiveLoan := false, defaultsCount := m.defaultsCount + 1)];
      }
    }

    method OnLoanDflt(ev: Event) returns (r: Outcome<()>)
      modifies this
      ensures Meets(LoanDflt(old(View()).core, ev), ev, r, old(View()), View())
    {
      var id :- RequireId(ev, "loan_id");
      var borrower :- RequireAddr(ev, "borrower");
      var penalty :- RequireAmount(ev, "penalty");
      if id !in loans || loans[id].status == Defaulted {
        return Ok(());
      }
      MarkDefaulted(ev, id);
      ApplyPenalty(borrower, Parse(penalty));
      NotifyMember(ev, borrower);
      r := Ok(());
    }

    method OnInterest(ev: Event) returns (r: Outcome<()>)
      modifies this
      ensures Meets(Interest(old(View()).core, ev), ev, r, old(View()), View())
    {
      var amount :- RequireAmount(ev, "interest");
      var inserted := ev.id !in interest;
      if inserted {
        interest := interest[ev.id := Distribution(ev.ledger, Parse(amount))];
        totals := totals.(interestCollected := totals.interestCollected + Parse(amount));
      }
      r := Ok(());
    }

    method OnTreProp(ev: Event) returns (r: Outcome<()>)
      modifies this
      ensures Meets(TreProp(old(View()).core, ev), ev, r, old(View()), View())
    {
      var id :- RequireId(ev, "id");
      var amount :- RequireAmount(ev, "amount");
      var destination :- RequireAddr(ev, "destination");
      var secret := Field(ev, "private") == Bool(true);
      if id in treasury {
        treasury := treasury[id := treasury[id].(amount := Parse(amount), destination := destination,
                                                 isPrivate := secret)];
      } else {
        treasury := treasury[id := TreasuryProposal(Parse(amount), destination, secret, Pending, NO_VOTES, ev.ledger,
                                                    None)];
      }
      r := Ok(());
    }

    method OnTreVote(ev: Event, idField: string) returns (r: Outcome<()>)
      modifies this
      ensures Meets(TreVote(old(View()).core, ev, idField), ev, r, old(View()), View())
    {
      var id :- RequireId(ev, idField);
      var support :- RequireBool(ev, "support");
      var weight :- WeightOf(ev);
      if id in treasury {
        var p := treasury[id];
        if support {
          p := p.(tally := p.tally.(votesFor := p.tally.votesFor + weight));
        } else {
          p := p.(tally := p.tally.(votesAgainst := p.tally.votesAgainst + weight));
        }
        treasury := treasury[id := p.(tally := p.tally.(voters := p.tally.voters + 1))];
      }
      r := Ok(());
    }

    method OnTreSettled(ev: Event, status: ProposalStatus) returns (r: Outcome<()>)
      modifies this
      ensures Meets(TreSettled(old(View()).core, ev, status), ev, r, old(View()), View())
    {
      var id :- RequireId(ev, "id");
      if id in treasury && treasury[id].status == Pending {
        treasury := treasury[id := treasury[id].(status := status)];
        NotifyMember(ev, treasury[id].destination);
      }
      r := Ok(());
    }

    method OnTreExec(ev: Event) returns (r: Outcome<()>)
      modifies this
      ensures Meets(TreExec(old(View()).core, ev), ev, r, old(View()), View())
    {
      var id :- RequireId(ev, "id");
      var destination :- RequireAddr(ev, "destination");
      if id in treasury {
        treasury := treasury[id := treasury[id].(status := Executed, executedLedger := Some(ev.ledger))];
      }
      NotifyMember(ev, destination);
      r := Ok(());
    }

    method OnDocAttn(ev: Event) returns (r: Outcome<()>)
      modifies this
      ensures Meets(DocAttn(old(View()).core, ev), ev, r, old(View()), View())
    {
      var id :- RequireId(ev, "proposal_id");
      var caller :- RequireAddr(ev, "caller");
      var kind :- RequireProposalKind(ev, "kind");
      if ev.id !in documents {
        documents := documents[ev.id := Document(id, kind, caller, ev.ledger)];
      }
      r := Ok(());
    }

    /** `applyEvent`: dispatch on the symbol; an unknown symbol is a no-op. A throwing handler has written
        nothing. */
    method ApplyEvent(ev: Event) returns (r: Outcome<()>)
      modifies this
      ensures match Apply(old(View()), ev)
              case Ok(t) => r.Ok? && View() == t
              case Err(m) => r == Err(m) && View() == old(View())
    {
      r := Dispatch(ev);
      hide Handle;
    }

    method Dispatch(ev: Event) returns (r: Outcome<()>)
      modifies this
      ensures Meets(Handle(old(View()).core, ev), ev, r, old(View()), View())
    {
      match KindOf(ev.symbol) {
        case KJoined => r := OnJoined(ev);
        case KExited => r := OnExited(ev);
        case KClaimed => r := OnClaimed(ev);
        case KStaked => r := OnStakeSet(ev);
        case KUnstaked => r := OnStakeSet(ev);
        case KNameReg => r := OnNameReg(ev);
        case KLoanReq => r := OnLoanReq(ev);
        case KLoanEdit => r := OnLoanEdit(ev);
        case KLoanVote => r := OnLoanVote(ev);
        case KLoanWait => r := OnLoanSettled(ev, AwaitingFunds);
        case KLoanRej => r := OnLoanSettled(ev, Rejected);
        case KLoanExp => r := OnLoanExp(ev);
        case KLoanAppr => r := OnLoanAppr(ev);
        case KLoanRpy => r := OnLoanRpy(ev);
        case KLoanDflt => r := OnLoanDflt(ev);
        case KInterest => r := OnInterest(ev);
        case KTreProp => r := OnTreProp(ev);
        case KTreVote => r := OnTreVote(ev, "id");
        case KRevealed => r := OnTreVote(ev, "proposal_id");
        case KTreWait => r := OnTreSettled(ev, AwaitingFunds);
        case KTreRej => r := OnTreSettled(ev, Rejected);
        case KTreExec => r := OnTreExec(ev);
        case KCommitted =>
          NotifyMember(ev, Text(Field(ev, "voter")));
          r := Ok(());
        case KDocAttn => r := OnDocAttn(ev);
        case KOther => r := Ok(());
      }
    }
  }
}
