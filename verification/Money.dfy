/** Money is conserved by every sequence of events. */
module Money {
  import opened Outcomes
  import opened Events
  import opened Decimal
  import opened EventLog
  import opened Handlers
  import opened Frames
  import opened MapSums

  function LoanAmount(l: Loan): int { l.amount }
  function DistributionAmount(d: Distribution): int { d.amount }
  function DayOriginated(d: Day): int { d.originated }
  function DayLent(d: Day): int { d.lent }
  function DayRepaid(d: Day): int { d.repaid }
  function DayDefaulted(d: Day): int { d.defaulted }

  /** The principal of a loan that is repaid, the balance of one that is defaulted. */
  function RepaidAmount(l: Loan): int { if l.status == Repaid then l.amount else 0 }
  function DefaultedBalance(l: Loan): int { if l.status == Defaulted then l.outstanding else 0 }

  /** Every total is the sum of the rows it summarizes, and the daily figures add up to the totals. */
  ghost predicate Conserved(c: Core) {
    && c.totals.principalLent == SumBy(c.loans, LoanAmount)
    && c.totals.interestCollected == SumBy(c.interest, DistributionAmount)
    && SumBy(c.daily, DayLent) == c.totals.principalLent
    && SumBy(c.daily, DayRepaid) == c.totals.principalRepaid
    && SumBy(c.daily, DayDefaulted) == c.totals.valueDefaulted
    && SumBy(c.daily, DayOriginated) == |c.loans|
  }

  /** The tables a conservation law speaks of. */
  predicate SameMoney(c: Core, c': Core) {
    c'.loans == c.loans && c'.interest == c.interest && c'.daily == c.daily && c'.totals == c.totals
  }

  predicate MovesMoney(ev: Event) {
    var k := KindOf(ev.symbol);
    k == KLoanAppr || k == KLoanRpy || k == KLoanDflt || k == KInterest
  }

  /** Only four events move money. */
  lemma OthersLeaveMoney(c: Core, ev: Event)
    requires !MovesMoney(ev) && Handle(c, ev).Ok?
    ensures SameMoney(c, Handle(c, ev).value.core)
  {
    hide KindOf, Handle;
    HandlersKeep(c, ev);
  }

  lemma DayAdds(c: Core, day: int, d: Day)
    ensures var c' := AddToDay(c, day, d);
            && SumBy(c'.daily, DayLent) == SumBy(c.daily, DayLent) + d.lent
            && SumBy(c'.daily, DayRepaid) == SumBy(c.daily, DayRepaid) + d.repaid
            && SumBy(c'.daily, DayDefaulted) == SumBy(c.daily, DayDefaulted) + d.defaulted
            && SumBy(c'.daily, DayOriginated) == SumBy(c.daily, DayOriginated) + d.originated
            && c' == c.(daily := c'.daily)
  {
    hide SumBy;
    var row := AddToDay(c, day, d).daily[day];
    SumUpdate(c.daily, DayLent, day, row);
    SumUpdate(c.daily, DayRepaid, day, row);
    SumUpdate(c.daily, DayDefaulted, day, row);
    SumUpdate(c.daily, DayOriginated, day, row);
  }

  lemma UpdateSize<K, V>(m: map<K, V>, k: K, v: V)
    ensures |m[k := v]| == |m| + (if k in m then 0 else 1)
  {
    var m' := m[k := v];
    assert m'.Keys == m.Keys + {k};
    assert |m'| == |m'.Keys| && |m| == |m.Keys|;
  }

  lemma OpenConserves(c: Core, ev: Event, id: int, borrower: Address, amount: nat)
    requires Conserved(c)
    ensures Conserved(OpenLoan(c, ev, id, borrower, amount))
  {
    hide SumBy, AddToDay;
    if id in c.loans {
      var row := c.loans[id].(status := Active, approvedLedger := ev.ledger);
      SumUpdate(c.loans, LoanAmount, id, row);
      UpdateSize(c.loans, id, row);
    } else {
      var total := if id in c.loanProposals then c.loanProposals[id].totalRepayment else amount;
      var row := Loan(borrower, amount, total, total, Active, ev.ledger, None, None);
      var c1 := c.(loans := c.loans[id := row], totals := c.totals.(principalLent := c.totals.principalLent + amount));
      SumUpdate(c.loans, LoanAmount, id, row);
      UpdateSize(c.loans, id, row);
      DayAdds(c1, ev.closedDay, Day(1, amount, 0, 0, 0));
    }
  }

  lemma PayConserves(c: Core, ev: Event, id: int, outstanding: Digits)
    requires Conserved(c)
    ensures Conserved(PayLoan(c, ev, id, outstanding))
  {
    hide SumBy, AddToDay, Parse;
    if id in c.loans {
      var loan := c.loans[id];
      if outstanding != "0" {
        var row := loan.(outstanding := Parse(outstanding), status := Active);
        SumUpdate(c.loans, LoanAmount, id, row);
        UpdateSize(c.loans, id, row);
      } else {
        var row := loan.(outstanding := 0, status := Repaid, repaidLedger := Some(ev.ledger));
        var c1 := c.(loans := c.loans[id := row]);
        var c2 := c1.(totals := c1.totals.(principalRepaid := c1.totals.principalRepaid + loan.amount));
        SumUpdate(c.loans, LoanAmount, id, row);
        UpdateSize(c.loans, id, row);
        DayAdds(c2, ev.closedDay, Day(0, 0, loan.amount, 0, 0));
      }
    }
  }

  lemma DefaultConserves(c: Core, ev: Event, id: int)
    requires Conserved(c) && id in c.loans
    ensures Conserved(DefaultLoan(c, ev, id))
  {
    hide SumBy, AddToDay;
    var loan := c.loans[id];
    var row := loan.(status := Defaulted, defaultedLedger := Some(ev.ledger));
    var c1 := c.(loans := c.loans[id := row],
                 totals := c.totals.(valueDefaulted := c.totals.valueDefaulted + loan.outstanding));
    SumUpdate(c.loans, LoanAmount, id, row);
    UpdateSize(c.loans, id, row);
    DayAdds(c1, ev.closedDay, Day(0, 0, 0, 1, loan.outstanding));
  }

  lemma InterestConserves(c: Core, ev: Event)
    requires Conserved(c) && Interest(c, ev).Ok?
    ensures Conserved(Interest(c, ev).value.core)
  {
    hide SumBy;
    var c' := Interest(c, ev).value.core;
    if ev.id !in c.interest {
      SumUpdate(c.interest, DistributionAmount, ev.id, c'.interest[ev.id]);
    }
  }

  lemma SameMoneyConserves(c: Core, c': Core)
    requires Conserved(c) && SameMoney(c, c')
    ensures Conserved(c')
  {
    hide SumBy;
  }

  lemma HandleConserves(c: Core, ev: Event)
    requires Conserved(c) && Handle(c, ev).Ok?
    ensures Conserved(Handle(c, ev).value.core)
  {
    hide KindOf, Handle, Conserved, SameMoney, Interest, LoanAppr, LoanRpy, LoanDflt;
    LoanHandlers(c, ev);
    match KindOf(ev.symbol) {
      case KInterest => InterestConserves(c, ev);
      case KLoanAppr => ApprovalConserves(c, ev);
      case KLoanRpy => RepaymentConserves(c, ev);
      case KLoanDflt => DefaultEventConserves(c, ev);
      case _ =>
        OthersLeaveMoney(c, ev);
        SameMoneyConserves(c, Handle(c, ev).value.core);
    }
  }

  lemma ApprovalConserves(c: Core, ev: Event)
    requires Conserved(c) && LoanAppr(c, ev).Ok?
    ensures Conserved(LoanAppr(c, ev).value.core)
  {
    hide SumBy, OpenLoan;
    var id, borrower, amount := RequireId(ev, "id").value, RequireAddr(ev, "borrower").value,
      RequireAmount(ev, "amount").value;
    var c1 := if id !in c.loanProposals then c
              else c.(loanProposals := c.loanProposals[id := c.loanProposals[id].(status := Approved)]);
    OpenConserves(c1, ev, id, borrower, Parse(amount));
  }

  lemma RepaymentConserves(c: Core, ev: Event)
    requires Conserved(c) && LoanRpy(c, ev).Ok?
    ensures Conserved(LoanRpy(c, ev).value.core)
  {
    hide SumBy, PayLoan;
    PayConserves(c, ev, RequireId(ev, "loan_id").value, RequireAmount(ev, "outstanding").value);
  }

  lemma DefaultEventConserves(c: Core, ev: Event)
    requires Conserved(c) && LoanDflt(c, ev).Ok?
    ensures Conserved(LoanDflt(c, ev).value.core)
  {
    hide SumBy, DefaultLoan;
    var id := RequireId(ev, "loan_id").value;
    if id in c.loans {
      DefaultConserves(c, ev, id);
    }
  }

  /** For any sequence of events, whether or not some of them throw. */
  lemma {:induction false} MoneyIsConserved(evs: seq<Event>)
    ensures Conserved(FoldSkipping(Apply, EMPTY, evs).core)
  {
    if evs != [] {
      var n := |evs| - 1;
      MoneyIsConserved(evs[..n]);
      var c := FoldSkipping(Apply, EMPTY, evs[..n]).core;
      if Handle(c, evs[n]).Ok? {
        HandleConserves(c, evs[n]);
      }
    }
  }
}
