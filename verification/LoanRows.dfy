/**
 * The loans table against the log: the row of a loan is told by the events that name it, whatever else happens
 * (src/indexer/handlers.ts:250-277, 346-489).
 */
module LoanRows {
  import opened Outcomes
  import opened Events
  import opened Decimal
  import opened EventLog
  import opened Handlers
  import opened Frames

  datatype Word =
    | Requests(id: int, total: nat)
    | Edits(id: int, total: nat)
    | Approves(id: int, borrower: Address, amount: nat)
    | Repays(id: int, left: Digits)
    | Defaults(id: int)
    | Silent

  /** What a well-formed event says about a loan or its proposal. */
  function Says(ev: Event): Word {
    match ev.symbol
    case "loan_req" => (
      match (RequireId(ev, "id"), RequireAddr(ev, "borrower"), RequireAmount(ev, "amount"),
             RequireAmount(ev, "total_repayment"))
      case (Ok(id), Ok(_), Ok(_), Ok(total)) => Requests(id, Parse(total))
      case _ => Silent)
    case "loan_edit" => (
      match (RequireId(ev, "proposal_id"), RequireAmount(ev, "new_amount"), RequireAmount(ev, "total_repayment"))
      case (Ok(id), Ok(_), Ok(total)) => Edits(id, Parse(total))
      case _ => Silent)
    case "loan_appr" => (
      match (RequireId(ev, "id"), RequireAddr(ev, "borrower"), RequireAmount(ev, "amount"))
      case (Ok(id), Ok(b), Ok(n)) => Approves(id, b, Parse(n))
      case _ => Silent)
    case "loan_rpy" => (
      match (RequireId(ev, "loan_id"), RequireAddr(ev, "borrower"), RequireAmount(ev, "outstanding"))
      case (Ok(id), Ok(_), Ok(left)) => Repays(id, left)
      case _ => Silent)
    case "loan_dflt" => (
      match (RequireId(ev, "loan_id"), RequireAddr(ev, "borrower"), RequireAmount(ev, "penalty"))
      case (Ok(id), Ok(_), Ok(_)) => Defaults(id)
      case _ => Silent)
    case _ => Silent
  }

  /** The repayment total of a proposal: the one published last, once it has been requested. */
  function NextTotal(total: Option<nat>, w: Word, id: int): Option<nat> {
    match w
    case Requests(p, t) => if p == id then Some(t) else total
    case Edits(p, t) => if p == id && total.Some? then Some(t) else total
    case _ => total
  }

  datatype Card = Card(borrower: Address, amount: nat, total: nat, outstanding: nat, status: LoanStatus)

  /** A loan: opened by its first approval with the total of its proposal outstanding; every repayment since sets the
      balance it publishes, and the last approval, repayment or default tells the status. */
  function NextCard(card: Option<Card>, total: Option<nat>, w: Word, id: int): Option<Card> {
    match w
    case Approves(p, b, n) =>
      if p != id then card
      else if card.Some? then Some(card.value.(status := Active))
      else
        var t := if total.Some? then total.value else n;
        Some(Card(b, n, t, t, Active))
    case Repays(p, left) =>
      if p != id || card.None? then card
      else Some(card.value.(outstanding := Parse(left), status := if left == "0" then Repaid else Active))
    case Defaults(p) => if p != id || card.None? then card else Some(card.value.(status := Defaulted))
    case _ => card
  }

  function TotalOf(evs: seq<Event>, id: int): Option<nat> {
    if evs == [] then None else NextTotal(TotalOf(evs[..|evs| - 1], id), Says(evs[|evs| - 1]), id)
  }

  function CardOf(evs: seq<Event>, id: int): Option<Card> {
    if evs == [] then None
    else
      var before := evs[..|evs| - 1];
      NextCard(CardOf(before, id), TotalOf(before, id), Says(evs[|evs| - 1]), id)
  }

  predicate ShowsTotal(m: map<int, LoanProposal>, id: int, total: Option<nat>) {
    (total.Some? <==> id in m) && (total.Some? ==> m[id].totalRepayment == total.value)
  }

  predicate ShowsLoan(m: map<int, Loan>, id: int, card: Option<Card>) {
    && (card.Some? <==> id in m)
    && (card.Some? ==>
          var l, k := m[id], card.value;
          && l.borrower == k.borrower && l.amount == k.amount && l.totalRepayment == k.total
          && l.outstanding == k.outstanding && l.status == k.status)
  }

  // Proposals

  /** The same proposals, with the same totals. */
  predicate TotalsKept(m: map<int, LoanProposal>, m': map<int, LoanProposal>) {
    m'.Keys == m.Keys && forall p :: p in m ==> m'[p].totalRepayment == m[p].totalRepayment
  }

  lemma VoteKeepsTotals(c: Core, ev: Event)
    ensures TotalsKept(c.loanProposals, Next(c, LoanVote(c, ev)).loanProposals)
  {
    hide RequireId, RequireBool, WeightOf;
  }

  lemma SettledKeepsTotals(c: Core, ev: Event, status: ProposalStatus)
    ensures TotalsKept(c.loanProposals, Next(c, LoanSettled(c, ev, status)).loanProposals)
  {
    hide RequireId;
  }

  lemma ExpiryKeepsTotals(c: Core, ev: Event)
    ensures TotalsKept(c.loanProposals, Next(c, LoanExp(c, ev)).loanProposals)
  {
    hide RequireId, RequireAddr;
  }

  lemma ApprovalKeepsTotals(c: Core, ev: Event)
    ensures TotalsKept(c.loanProposals, Next(c, LoanAppr(c, ev)).loanProposals)
  {
    hide RequireId, RequireAddr, RequireAmount, OpenLoan, WithActiveLoan, Parse;
  }

  lemma RequestSays(c: Core, ev: Event)
    requires ev.symbol == "loan_req"
    ensures Says(ev) == if LoanReq(c, ev).Ok?
                        then Requests(RequireId(ev, "id").value, Parse(RequireAmount(ev, "total_repayment").value))
                        else Silent
  {
    hide RequireId, RequireAddr, RequireAmount, Parse;
  }

  lemma RequestTotals(c: Core, ev: Event, id: int, total: Option<nat>)
    requires ev.symbol == "loan_req" && ShowsTotal(c.loanProposals, id, total)
    ensures ShowsTotal(Next(c, LoanReq(c, ev)).loanProposals, id, NextTotal(total, Says(ev), id))
  {
    RequestSays(c, ev);
    hide Says, RequireId, RequireAddr, RequireAmount, Parse;
  }

  lemma EditSays(c: Core, ev: Event)
    requires ev.symbol == "loan_edit"
    ensures Says(ev) == if LoanEdit(c, ev).Ok?
                        then Edits(RequireId(ev, "proposal_id").value,
                                   Parse(RequireAmount(ev, "total_repayment").value))
                        else Silent
  {
    hide RequireId, RequireAddr, RequireAmount, Parse;
  }

  lemma EditTotals(c: Core, ev: Event, id: int, total: Option<nat>)
    requires ev.symbol == "loan_edit" && ShowsTotal(c.loanProposals, id, total)
    ensures ShowsTotal(Next(c, LoanEdit(c, ev)).loanProposals, id, NextTotal(total, Says(ev), id))
  {
    EditSays(c, ev);
    hide Says, RequireId, RequireAddr, RequireAmount, Parse;
  }

  lemma KindSymbols(ev: Event)
    ensures KindOf(ev.symbol) == KLoanReq <==> ev.symbol == "loan_req"
    ensures KindOf(ev.symbol) == KLoanEdit <==> ev.symbol == "loan_edit"
    ensures KindOf(ev.symbol) == KLoanAppr <==> ev.symbol == "loan_appr"
    ensures KindOf(ev.symbol) == KLoanRpy <==> ev.symbol == "loan_rpy"
    ensures KindOf(ev.symbol) == KLoanDflt <==> ev.symbol == "loan_dflt"
  {
  }

  lemma OthersKeepTotal(ev: Event, total: Option<nat>, id: int)
    requires ev.symbol != "loan_req" && ev.symbol != "loan_edit"
    ensures NextTotal(total, Says(ev), id) == total
  {
    hide RequireId, RequireAddr, RequireAmount, Parse;
  }

  lemma StepShowsTotal(c: Core, ev: Event, id: int, total: Option<nat>)
    requires ShowsTotal(c.loanProposals, id, total)
    ensures ShowsTotal(Next(c, Handle(c, ev)).loanProposals, id, NextTotal(total, Says(ev), id))
  {
    KindSymbols(ev);
    hide KindOf, Handle, Next, Says, NextTotal, LoanReq, LoanEdit, LoanVote, LoanSettled, LoanExp, LoanAppr;
    LoanProposalHandlers(c, ev);
    if ev.symbol == "loan_req" {
      RequestTotals(c, ev, id, total);
    } else if ev.symbol == "loan_edit" {
      EditTotals(c, ev, id, total);
    } else {
      OthersKeepTotal(ev, total, id);
      match KindOf(ev.symbol) {
        case KLoanVote => VoteKeepsTotals(c, ev);
        case KLoanWait => SettledKeepsTotals(c, ev, AwaitingFunds);
        case KLoanRej => SettledKeepsTotals(c, ev, Rejected);
        case KLoanExp => ExpiryKeepsTotals(c, ev);
        case KLoanAppr => ApprovalKeepsTotals(c, ev);
        case _ =>
      }
    }
  }

  // Loans

  lemma ZeroIsZero()
    ensures Parse("0") == 0
  {
  }

  lemma OpeningShows(c: Core, ev: Event, id: int, total: Option<nat>, card: Option<Card>, p: int, b: Address, n: nat)
    requires ShowsTotal(c.loanProposals, id, total) && ShowsLoan(c.loans, id, card)
    ensures ShowsLoan(OpenLoan(c, ev, p, b, n).loans, id, NextCard(card, total, Approves(p, b, n), id))
  {
    hide AddToDay;
  }

  lemma ApprovalShows(c: Core, ev: Event, id: int, total: Option<nat>, card: Option<Card>)
    requires ev.symbol == "loan_appr" && ShowsTotal(c.loanProposals, id, total) && ShowsLoan(c.loans, id, card)
    ensures ShowsLoan(Next(c, LoanAppr(c, ev)).loans, id, NextCard(card, total, Says(ev), id))
  {
    hide RequireId, RequireAddr, RequireAmount, Parse, OpenLoan, NextCard, ShowsLoan, WithActiveLoan;
    if LoanAppr(c, ev).Ok? {
      var p, b, n := RequireId(ev, "id").value, RequireAddr(ev, "borrower").value, RequireAmount(ev, "amount").value;
      var c1 := if p !in c.loanProposals then c
                else c.(loanProposals := c.loanProposals[p := c.loanProposals[p].(status := Approved)]);
      OpeningShows(c1, ev, id, total, card, p, b, Parse(n));
    } else {
      SilentKeeps(card, total, id);
    }
  }

  lemma SilentKeeps(card: Option<Card>, total: Option<nat>, id: int)
    ensures NextCard(card, total, Silent, id) == card
  {
  }

  lemma PaymentShows(c: Core, ev: Event, id: int, total: Option<nat>, card: Option<Card>, p: int, left: Digits)
    requires ShowsLoan(c.loans, id, card)
    ensures ShowsLoan(PayLoan(c, ev, p, left).loans, id, NextCard(card, total, Repays(p, left), id))
  {
    ZeroIsZero();
    hide AddToDay, Parse;
  }

  lemma RepaymentShows(c: Core, ev: Event, id: int, total: Option<nat>, card: Option<Card>)
    requires ev.symbol == "loan_rpy" && ShowsLoan(c.loans, id, card)
    ensures ShowsLoan(Next(c, LoanRpy(c, ev)).loans, id, NextCard(card, total, Says(ev), id))
  {
    hide RequireId, RequireAddr, RequireAmount, PayLoan, NextCard, ShowsLoan, WithActiveLoan;
    if LoanRpy(c, ev).Ok? {
      PaymentShows(c, ev, id, total, card, RequireId(ev, "loan_id").value, RequireAmount(ev, "outstanding").value);
    } else {
      SilentKeeps(card, total, id);
    }
  }

  lemma DefaultingShows(c: Core, ev: Event, id: int, total: Option<nat>, card: Option<Card>, p: int)
    requires ShowsLoan(c.loans, id, card)
    ensures ShowsLoan(if p !in c.loans || c.loans[p].status == Defaulted then c.loans
                      else DefaultLoan(c, ev, p).loans, id,
                      NextCard(card, total, Defaults(p), id))
  {
    hide AddToDay;
  }

  lemma DefaultShows(c: Core, ev: Event, id: int, total: Option<nat>, card: Option<Card>)
    requires ev.symbol == "loan_dflt" && ShowsLoan(c.loans, id, card)
    ensures ShowsLoan(Next(c, LoanDflt(c, ev)).loans, id, NextCard(card, total, Says(ev), id))
  {
    hide RequireId, RequireAddr, RequireAmount, Parse, DefaultLoan, Penalize, NextCard, ShowsLoan;
    if LoanDflt(c, ev).Ok? {
      DefaultingShows(c, ev, id, total, card, RequireId(ev, "loan_id").value);
    } else {
      SilentKeeps(card, total, id);
    }
  }

  lemma OthersKeepCard(ev: Event, card: Option<Card>, total: Option<nat>, id: int)
    requires ev.symbol != "loan_appr" && ev.symbol != "loan_rpy" && ev.symbol != "loan_dflt"
    ensures NextCard(card, total, Says(ev), id) == card
  {
    hide RequireId, RequireAddr, RequireAmount, Parse;
  }

  lemma InterestKeepsLoans(c: Core, ev: Event)
    ensures Next(c, Interest(c, ev)).loans == c.loans
  {
  }

  lemma StepShowsLoan(c: Core, ev: Event, id: int, total: Option<nat>, card: Option<Card>)
    requires ShowsTotal(c.loanProposals, id, total) && ShowsLoan(c.loans, id, card)
    ensures ShowsLoan(Next(c, Handle(c, ev)).loans, id, NextCard(card, total, Says(ev), id))
  {
    KindSymbols(ev);
    InterestKeepsLoans(c, ev);
    hide KindOf, Handle, Next, Says, NextCard, ShowsLoan, ShowsTotal, LoanAppr, LoanRpy, LoanDflt, Interest;
    LoanHandlers(c, ev);
    match KindOf(ev.symbol) {
      case KLoanAppr => ApprovalShows(c, ev, id, total, card);
      case KLoanRpy => RepaymentShows(c, ev, id, total, card);
      case KLoanDflt => DefaultShows(c, ev, id, total, card);
      case _ => OthersKeepCard(ev, card, total, id);
    }
  }

  /** After any history, whichever events threw and whatever else happened: a loan has a row if and only if it was
      approved, and its borrower, amount, repayment total, balance and status are those that the log tells. In
      particular its balance is the one published by the last repayment naming it since it was opened, or its whole
      total if there was none. */
  lemma {:induction false} LoansAgreeWithLog(evs: seq<Event>, id: int)
    ensures var c := FoldSkipping(Apply, EMPTY, evs).core;
            ShowsTotal(c.loanProposals, id, TotalOf(evs, id)) && ShowsLoan(c.loans, id, CardOf(evs, id))
  {
    if evs != [] {
      hide Attempt, Next, Handle, Says, NextCard, NextTotal;
      var n := |evs| - 1;
      LoansAgreeWithLog(evs[..n], id);
      hide ShowsTotal, ShowsLoan;
      var c := FoldSkipping(Apply, EMPTY, evs[..n]).core;
      AttemptIsNext(FoldSkipping(Apply, EMPTY, evs[..n]), evs[n]);
      StepShowsTotal(c, evs[n], id, TotalOf(evs[..n], id));
      StepShowsLoan(c, evs[n], id, TotalOf(evs[..n], id), CardOf(evs[..n], id));
    }
  }

  /** The balances that a stretch of the log publishes for a loan, the last one counting. */
  function LastBalance(evs: seq<Event>, id: int, otherwise: nat): nat {
    if evs == [] then otherwise
    else
      match Says(evs[|evs| - 1])
      case Repays(p, left) => if p == id then Parse(left) else LastBalance(evs[..|evs| - 1], id, otherwise)
      case _ => LastBalance(evs[..|evs| - 1], id, otherwise)
  }

  lemma CardSnoc(evs: seq<Event>, ev: Event, id: int)
    ensures CardOf(evs + [ev], id) == NextCard(CardOf(evs, id), TotalOf(evs, id), Says(ev), id)
  {
    hide Says, NextCard;
    assert (evs + [ev])[..|evs|] == evs;
  }

  lemma {:induction false} CardKeepsBalance(before: seq<Event>, after: seq<Event>, id: int)
    requires CardOf(before, id).Some?
    ensures CardOf(before + after, id).Some? && CardOf(before + after, id).value.total == CardOf(before, id).value.total
    ensures CardOf(before + after, id).value.outstanding == LastBalance(after, id, CardOf(before, id).value.outstanding)
    decreases |after|
  {
    hide Says, CardOf;
    if after == [] {
      assert before + after == before;
    } else {
      var n := |after| - 1;
      assert before + after == before + after[..n] + [after[n]];
      CardSnoc(before + after[..n], after[n], id);
      CardKeepsBalance(before, after[..n], id);
    }
  }

  /** From the approval that opens a loan on, its balance is the last one published since, or its total. */
  lemma BalanceIsTheLastPublished(before: seq<Event>, approval: Event, after: seq<Event>, id: int)
    requires CardOf(before, id).None? && Says(approval).Approves? && Says(approval).id == id
    ensures var loans := FoldSkipping(Apply, EMPTY, before + [approval] + after).core.loans;
            && id in loans
            && loans[id].totalRepayment ==
               (if TotalOf(before, id).Some? then TotalOf(before, id).value else Says(approval).amount)
            && loans[id].outstanding == LastBalance(after, id, loans[id].totalRepayment)
  {
    hide Says, FoldSkipping;
    assert (before + [approval])[..|before|] == before;
    CardKeepsBalance(before + [approval], after, id);
    LoansAgreeWithLog(before + [approval] + after, id);
  }
}
