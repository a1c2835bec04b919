/**
 * The repaid and defaulted totals count every time a loan becomes repaid or defaulted; the rows only
 * show which loans are so now. The difference is exactly what later events reopened.
 */
module LoanTotals {
  import opened Outcomes
  import opened Events
  import opened Decimal
  import opened EventLog
  import opened Handlers
  import opened Frames
  import opened MapSums
  import opened Money

  /** The loan an approval, repayment or default names, when the event is well formed. */
  function LoanOf(ev: Event): Option<int> {
    match KindOf(ev.symbol)
    case KLoanAppr => IdOf(ev, LoanAppr(EMPTY_CORE, ev).Ok?, "id")
    case KLoanRpy => IdOf(ev, LoanRpy(EMPTY_CORE, ev).Ok?, "loan_id")
    case KLoanDflt => IdOf(ev, LoanDflt(EMPTY_CORE, ev).Ok?, "loan_id")
    case _ => None
  }

  function IdOf(ev: Event, valid: bool, field: string): Option<int> {
    match RequireId(ev, field)
    case Ok(id) => if valid then Some(id) else None
    case Err(_) => None
  }

  /** A repayment whose remaining balance is the text "0". */
  predicate ClearsLoan(ev: Event) {
    KindOf(ev.symbol) == KLoanRpy && RequireAmount(ev, "outstanding") == Ok("0")
  }

  predicate Hits(c: Core, ev: Event, status: LoanStatus) {
    match LoanOf(ev)
    case Some(id) => id in c.loans && c.loans[id].status == status
    case None => false
  }

  /** A loan event other than a clearing repayment takes a repaid loan out of that state. */
  function Reopened(c: Core, ev: Event): nat {
    if Hits(c, ev, Repaid) && !ClearsLoan(ev) then c.loans[LoanOf(ev).value].amount else 0
  }

  /** An approval or a repayment takes a defaulted loan out of that state. */
  function Recovered(c: Core, ev: Event): nat {
    if Hits(c, ev, Defaulted) && KindOf(ev.symbol) != KLoanDflt then c.loans[LoanOf(ev).value].outstanding else 0
  }

  /** The principal reopened, and the defaulted value recovered, over a whole history. */
  function ReopenedBy(evs: seq<Event>): nat {
    if evs == [] then 0
    else ReopenedBy(evs[..|evs| - 1]) + Reopened(FoldSkipping(Apply, EMPTY, evs[..|evs| - 1]).core, evs[|evs| - 1])
  }

  function RecoveredBy(evs: seq<Event>): nat {
    if evs == [] then 0
    else RecoveredBy(evs[..|evs| - 1]) + Recovered(FoldSkipping(Apply, EMPTY, evs[..|evs| - 1]).core, evs[|evs| - 1])
  }

  ghost predicate Balanced(c: Core, reopened: nat, recovered: nat) {
    && c.totals.principalRepaid == SumBy(c.loans, RepaidAmount) + reopened
    && c.totals.valueDefaulted == SumBy(c.loans, DefaultedBalance) + recovered
  }

  function OfStatus(c: Core, id: int, status: LoanStatus, value: Loan -> int): int {
    if id in c.loans && c.loans[id].status == status then value(c.loans[id]) else 0
  }

  function Outstanding(l: Loan): int { l.outstanding }

  lemma DayOnly(c: Core, day: int, d: Day)
    ensures AddToDay(c, day, d).loans == c.loans && AddToDay(c, day, d).totals == c.totals
  {
  }

  lemma OpenBalances(c: Core, ev: Event, id: int, borrower: Address, amount: nat)
    ensures var c' := OpenLoan(c, ev, id, borrower, amount);
            && c'.totals.principalRepaid == c.totals.principalRepaid
            && c'.totals.valueDefaulted == c.totals.valueDefaulted
            && SumBy(c'.loans, RepaidAmount) == SumBy(c.loans, RepaidAmount) - OfStatus(c, id, Repaid, LoanAmount)
            && SumBy(c'.loans, DefaultedBalance)
               == SumBy(c.loans, DefaultedBalance) - OfStatus(c, id, Defaulted, Outstanding)
  {
    hide SumBy, AddToDay;
    if id in c.loans {
      var row := c.loans[id].(status := Active, approvedLedger := ev.ledger);
      SumUpdate(c.loans, RepaidAmount, id, row);
      SumUpdate(c.loans, DefaultedBalance, id, row);
    } else {
      var total := if id in c.loanProposals then c.loanProposals[id].totalRepayment else amount;
      var row := Loan(borrower, amount, total, total, Active, ev.ledger, None, None);
      SumUpdate(c.loans, RepaidAmount, id, row);
      SumUpdate(c.loans, DefaultedBalance, id, row);
      DayOnly(c.(loans := c.loans[id := row], totals := c.totals.(principalLent := c.totals.principalLent + amount)),
              ev.closedDay, Day(1, amount, 0, 0, 0));
    }
  }

  lemma PayBalances(c: Core, ev: Event, id: int, outstanding: Digits)
    ensures var c' := PayLoan(c, ev, id, outstanding);
            var counted := if outstanding == "0" && id in c.loans && c.loans[id].status != Repaid
              then c.loans[id].amount else 0;
            var left := if outstanding == "0" then 0 else OfStatus(c, id, Repaid, LoanAmount);
            && c'.totals.principalRepaid == c.totals.principalRepaid + counted
            && c'.totals.valueDefaulted == c.totals.valueDefaulted
            && SumBy(c'.loans, RepaidAmount) == SumBy(c.loans, RepaidAmount) + counted - left
            && SumBy(c'.loans, DefaultedBalance)
               == SumBy(c.loans, DefaultedBalance) - OfStatus(c, id, Defaulted, Outstanding)
  {
    hide SumBy, Parse, AddToDay;
    if id in c.loans {
      var loan := c.loans[id];
      var row := if outstanding != "0" then loan.(outstanding := Parse(outstanding), status := Active)
                 else loan.(outstanding := 0, status := Repaid, repaidLedger := Some(ev.ledger));
      SumUpdate(c.loans, RepaidAmount, id, row);
      SumUpdate(c.loans, DefaultedBalance, id, row);
      if outstanding == "0" && loan.status != Repaid {
        var c1 := c.(loans := c.loans[id := row]);
        DayOnly(c1.(totals := c1.totals.(principalRepaid := c1.totals.principalRepaid + loan.amount)), ev.closedDay,
                Day(0, 0, loan.amount, 0, 0));
      }
    }
  }

  lemma DefaultBalances(c: Core, ev: Event, id: int)
    requires id in c.loans && c.loans[id].status != Defaulted
    ensures var c' := DefaultLoan(c, ev, id);
            && c'.totals.principalRepaid == c.totals.principalRepaid
            && c'.totals.valueDefaulted == c.totals.valueDefaulted + c.loans[id].outstanding
            && SumBy(c'.loans, RepaidAmount) == SumBy(c.loans, RepaidAmount) - OfStatus(c, id, Repaid, LoanAmount)
            && SumBy(c'.loans, DefaultedBalance) == SumBy(c.loans, DefaultedBalance) + c.loans[id].outstanding
  {
    hide SumBy, AddToDay;
    var loan := c.loans[id];
    var row := loan.(status := Defaulted, defaultedLedger := Some(ev.ledger));
    SumUpdate(c.loans, RepaidAmount, id, row);
    SumUpdate(c.loans, DefaultedBalance, id, row);
    var c1 := c.(loans := c.loans[id := row],
                 totals := c.totals.(valueDefaulted := c.totals.valueDefaulted + loan.outstanding));
    DayOnly(c1, ev.closedDay, Day(0, 0, 0, 1, loan.outstanding));
  }

  lemma ApprovalBalances(c: Core, ev: Event, r: nat, d: nat)
    requires Balanced(c, r, d) && KindOf(ev.symbol) == KLoanAppr && LoanAppr(c, ev).Ok?
    ensures Balanced(LoanAppr(c, ev).value.core, r + Reopened(c, ev), d + Recovered(c, ev))
  {
    hide SumBy, OpenLoan, KindOf;
    var id, borrower, amount := RequireId(ev, "id").value, RequireAddr(ev, "borrower").value,
      RequireAmount(ev, "amount").value;
    var c1 := if id !in c.loanProposals then c
              else c.(loanProposals := c.loanProposals[id := c.loanProposals[id].(status := Approved)]);
    OpenBalances(c1, ev, id, borrower, Parse(amount));
    assert LoanOf(ev) == Some(id);
  }

  lemma RepaymentBalances(c: Core, ev: Event, r: nat, d: nat)
    requires Balanced(c, r, d) && KindOf(ev.symbol) == KLoanRpy && LoanRpy(c, ev).Ok?
    ensures Balanced(LoanRpy(c, ev).value.core, r + Reopened(c, ev), d + Recovered(c, ev))
  {
    hide SumBy, PayLoan, KindOf;
    var id := RequireId(ev, "loan_id").value;
    PayBalances(c, ev, id, RequireAmount(ev, "outstanding").value);
    assert LoanOf(ev) == Some(id);
  }

  lemma DefaultEventBalances(c: Core, ev: Event, r: nat, d: nat)
    requires Balanced(c, r, d) && KindOf(ev.symbol) == KLoanDflt && LoanDflt(c, ev).Ok?
    ensures Balanced(LoanDflt(c, ev).value.core, r + Reopened(c, ev), d + Recovered(c, ev))
  {
    hide SumBy, DefaultLoan, KindOf;
    var id := RequireId(ev, "loan_id").value;
    if id in c.loans && c.loans[id].status != Defaulted {
      DefaultBalances(c, ev, id);
    }
    assert LoanOf(ev) == Some(id);
  }

  /** Approvals, repayments and defaults throw or not whatever the tables hold. */
  lemma ThrowsAlike(c: Core, ev: Event)
    ensures KindOf(ev.symbol) in {KLoanAppr, KLoanRpy, KLoanDflt} && Handle(c, ev).Err? ==> LoanOf(ev) == None
    ensures KindOf(ev.symbol) !in {KLoanAppr, KLoanRpy, KLoanDflt} ==> LoanOf(ev) == None
  {
    LoanHandlers(c, ev);
    hide KindOf, Handle, OpenLoan, PayLoan, DefaultLoan;
  }

  lemma InterestBalances(c: Core, ev: Event, r: nat, d: nat)
    requires Balanced(c, r, d) && Interest(c, ev).Ok?
    ensures Balanced(Interest(c, ev).value.core, r, d)
  {
    hide SumBy;
  }

  lemma QuietBalances(c: Core, ev: Event, r: nat, d: nat)
    requires Balanced(c, r, d) && KindOf(ev.symbol) !in {KLoanAppr, KLoanRpy, KLoanDflt} && Handle(c, ev).Ok?
    ensures Balanced(Handle(c, ev).value.core, r, d)
  {
    hide SumBy, KindOf, Handle, Interest;
    LoanHandlers(c, ev);
    if KindOf(ev.symbol) == KInterest {
      InterestBalances(c, ev, r, d);
    }
  }

  lemma StepBalances(c: Core, ev: Event, r: nat, d: nat)
    requires Balanced(c, r, d)
    ensures var c' := if Handle(c, ev).Ok? then Handle(c, ev).value.core else c;
            Balanced(c', r + Reopened(c, ev), d + Recovered(c, ev))
  {
    hide SumBy, KindOf, Handle, Balanced, LoanAppr, LoanRpy, LoanDflt, Interest, LoanOf;
    LoanHandlers(c, ev);
    ThrowsAlike(c, ev);
    if Handle(c, ev).Ok? {
      match KindOf(ev.symbol) {
        case KLoanAppr => ApprovalBalances(c, ev, r, d);
        case KLoanRpy => RepaymentBalances(c, ev, r, d);
        case KLoanDflt => DefaultEventBalances(c, ev, r, d);
        case _ => QuietBalances(c, ev, r, d);
      }
    }
  }

  /** For any sequence of events: the repaid total is the principal of the loans that are repaid now plus
      what was reopened since, and the defaulted total is the balance of the loans in default now plus what
      was recovered since. */
  lemma {:induction false} TotalsAccountForEveryLoan(evs: seq<Event>)
    ensures Balanced(FoldSkipping(Apply, EMPTY, evs).core, ReopenedBy(evs), RecoveredBy(evs))
  {
    if evs != [] {
      var n := |evs| - 1;
      TotalsAccountForEveryLoan(evs[..n]);
      hide Apply, Reopened, Recovered, Balanced;
      StepBalances(FoldSkipping(Apply, EMPTY, evs[..n]).core, evs[n], ReopenedBy(evs[..n]), RecoveredBy(evs[..n]));
    }
  }

  /** No loan event arrives for a loan that is already repaid or in default. */
  predicate FinalStatesAreFinal(evs: seq<Event>) {
    forall i :: 0 <= i < |evs| ==>
      var c := FoldSkipping(Apply, EMPTY, evs[..i]).core;
      !Hits(c, evs[i], Repaid) && !Hits(c, evs[i], Defaulted)
  }

  lemma FinalPrefix(evs: seq<Event>)
    requires FinalStatesAreFinal(evs) && evs != []
    ensures var n := |evs| - 1;
            var c := FoldSkipping(Apply, EMPTY, evs[..n]).core;
            FinalStatesAreFinal(evs[..n]) && !Hits(c, evs[n], Repaid) && !Hits(c, evs[n], Defaulted)
  {
    hide Apply, Hits, FoldSkipping;
    var n := |evs| - 1;
    assert forall i :: 0 <= i < n ==> evs[..n][..i] == evs[..i];
  }

  lemma {:induction false} NothingReopened(evs: seq<Event>)
    requires FinalStatesAreFinal(evs)
    ensures ReopenedBy(evs) == 0 && RecoveredBy(evs) == 0
  {
    if evs != [] {
      hide FinalStatesAreFinal, Apply, Hits, FoldSkipping;
      FinalPrefix(evs);
      NothingReopened(evs[..|evs| - 1]);
    }
  }

  /** The totals are never below what the rows show; each is equal exactly when nothing was reopened or
      recovered, and so whenever final states are final. */
  lemma TotalsBoundRows(evs: seq<Event>)
    ensures var c := FoldSkipping(Apply, EMPTY, evs).core;
            && c.totals.principalRepaid >= SumBy(c.loans, RepaidAmount)
            && c.totals.valueDefaulted >= SumBy(c.loans, DefaultedBalance)
            && (c.totals.principalRepaid == SumBy(c.loans, RepaidAmount) <==> ReopenedBy(evs) == 0)
            && (c.totals.valueDefaulted == SumBy(c.loans, DefaultedBalance) <==> RecoveredBy(evs) == 0)
    ensures FinalStatesAreFinal(evs) ==> ReopenedBy(evs) == 0 && RecoveredBy(evs) == 0
  {
    TotalsAccountForEveryLoan(evs);
    if FinalStatesAreFinal(evs) {
      NothingReopened(evs);
    }
  }
}
