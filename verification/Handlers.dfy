/**
 * The derived tables and what each event does to them (src/indexer/handlers.ts). A handler either
 * gives the new tables or throws before it has written anything, since every required field is
 * validated first; an unknown symbol changes nothing.
 */
module Handlers {
  import opened Outcomes
  import opened Events
  import opened Decimal

  datatype Member = Member(
    joinedLedger: nat,
    contribution: nat,
    exited: bool,
    exitShare: Option<nat>,
    exitedLedger: Option<nat>,
    pendingClaimed: nat,
    stake: nat,
    hasActiveLoan: bool,
    name: Option<string>,
    defaultsCount: nat)

  datatype ProposalStatus = Pending | AwaitingFunds | Approved | Rejected | Executed

  datatype Tally = Tally(votesFor: nat, votesAgainst: nat, voters: nat)

  datatype LoanProposal = LoanProposal(
    borrower: Address, amount: nat, totalRepayment: nat, status: ProposalStatus, tally: Tally, createdLedger: nat)

  datatype TreasuryProposal = TreasuryProposal(
    amount: nat, destination: Address, isPrivate: bool, status: ProposalStatus, tally: Tally,
    createdLedger: nat, executedLedger: Option<nat>)

  datatype LoanStatus = Active | Repaid | Defaulted

  datatype Loan = Loan(
    borrower: Address, amount: nat, outstanding: nat, totalRepayment: nat, status: LoanStatus,
    approvedLedger: nat, repaidLedger: Option<nat>, defaultedLedger: Option<nat>)

  datatype Notification = Notification(ledger: nat, read: bool)

  datatype Distribution = Distribution(ledger: nat, amount: nat)

  datatype Document = Document(proposalId: int, kind: ProposalKind, caller: Address, ledger: nat)

  datatype ProposalKind = LoanKind | TreasuryKind

  datatype Day = Day(originated: nat, lent: nat, repaid: nat, defaults: nat, defaulted: nat)

  datatype Totals = Totals(interestCollected: nat, principalLent: nat, principalRepaid: nat, valueDefaulted: nat)

  type Notes = map<(EventId, Address), Notification>

  /** The derived tables other than `notifications`. */
  datatype Core = Core(
    members: map<Address, Member>,
    loanProposals: map<int, LoanProposal>,
    loans: map<int, Loan>,
    treasury: map<int, TreasuryProposal>,
    interest: map<EventId, Distribution>,
    daily: map<int, Day>,
    documents: map<EventId, Document>,
    totals: Totals)

  datatype Tables = Tables(core: Core, notifications: Notes)

  /** What a handler does: the new tables, and as its last statement a notification to one address, or to
      nobody when the address is empty. */
  datatype Effect = Effect(core: Core, told: Address)

  const NO_TOTALS := Totals(0, 0, 0, 0)

  /** DERIVED_TABLES truncated and the totals row zeroed by `resetDaoTotals`. */
  const EMPTY_CORE := Core(map[], map[], map[], map[], map[], map[], map[], NO_TOTALS)
  const EMPTY := Tables(EMPTY_CORE, map[])

  // Field validation

  function Field(ev: Event, field: string): Json {
    if field in ev.fields then ev.fields[field] else Null
  }

  function Invalid<T>(ev: Event, field: string, reason: string): Outcome<T> {
    Err("event " + ev.id + " (" + ev.symbol + "): field \"" + field + "\" " + reason)
  }

  function RequireAddr(ev: Event, field: string): Outcome<Address> {
    match Field(ev, field)
    case Str(s) => if s != "" then Ok(s) else Invalid(ev, field, "must be a non-empty address string")
    case _ => Invalid(ev, field, "must be a non-empty address string")
  }

  function RequireId(ev: Event, field: string): Outcome<int> {
    match Field(ev, field)
    case Int(n) => Ok(n)
    case Str(s) => if IsDigits(s) then Ok(Parse(s)) else Invalid(ev, field, "must be a finite integer id")
    case _ => Invalid(ev, field, "must be a finite integer id")
  }

  /** `String(v)` of a number is a plain digit string only below this bound; above it has an exponent. */
  const EXPONENT_FROM: int := 1_000_000_000_000_000_000_000

  function AmountText(v: Json): Option<Digits> {
    match v
    case Int(n) => if 0 <= n < EXPONENT_FROM then Some(Print(n)) else None
    case Str(s) => if IsDigits(s) then Some(s) else None
    case _ => None
  }

  function RequireAmount(ev: Event, field: string): Outcome<Digits> {
    match AmountText(Field(ev, field))
    case Some(s) => Ok(s)
    case None => Invalid(ev, field, "must be a non-negative decimal-integer amount")
  }

  function RequireBool(ev: Event, field: string): Outcome<bool> {
    match Field(ev, field)
    case Bool(b) => Ok(b)
    case _ => Invalid(ev, field, "must be a boolean")
  }

  function Lower(s: string): string {
    seq(|s|, i requires 0 <= i < |s| => if 'A' <= s[i] <= 'Z' then s[i] + ('a' - 'A') else s[i])
  }

  function Lookup(entries: seq<(string, Json)>, key: string): Json {
    if entries == [] then Null
    else if entries[|entries| - 1].0 == key then entries[|entries| - 1].1
    else Lookup(entries[..|entries| - 1], key)
  }

  /** A bare symbol, a one-element array or a `{ tag, values }` object. */
  function NormalizeProposalKind(v: Json): Option<ProposalKind> {
    var tag := match v
      case Arr(items) => if items == [] then Null else items[0]
      case Obj(entries) => Lookup(entries, "tag")
      case _ => v;
    match tag
    case Str(s) => if Lower(s) == "loan" then Some(LoanKind) else if Lower(s) == "treasury" then Some(TreasuryKind)
      else None
    case _ => None
  }

  function RequireProposalKind(ev: Event, field: string): Outcome<ProposalKind> {
    match NormalizeProposalKind(Field(ev, field))
    case Some(kind) => Ok(kind)
    case None => Invalid(ev, field, "must be a ProposalKind")
  }

  /** One vote per ballot until the contract publishes a weight; a malformed weight throws. */
  function WeightOf(ev: Event): Outcome<nat> {
    match Field(ev, "weight")
    case Null => Ok(1)
    case v => (
      match AmountText(v)
      case Some(s) => Ok(Parse(s))
      case None => Invalid(ev, "weight", "must be a non-negative decimal-integer amount"))
  }

  /** `String(v ?? '')`, as used for a registered name and for the optional voter of `committed`. */
  function Text(v: Json): string
    decreases v
  {
    match v
    case Null => ""
    case Bool(b) => if b then "true" else "false"
    case Int(n) => PrintInt(n)
    case Frac(t) => t
    case Str(s) => s
    case Arr(items) => JoinText(items)
    case Obj(_) => "[object Object]"
  }

  function JoinText(items: seq<Json>): string
    decreases items
  {
    if items == [] then ""
    else if |items| == 1 then Text(items[0])
    else Text(items[0]) + "," + JoinText(items[1..])
  }

  // Row updates

  /** ON CONFLICT (event_id, address) DO NOTHING; an empty address is nobody. */
  function Notify(n: Notes, ev: Event, address: Address): Notes {
    if address == "" || (ev.id, address) in n then n
    else n[(ev.id, address) := Notification(ev.ledger, false)]
  }

  function AddToDay(c: Core, day: int, d: Day): (c': Core)
    ensures c' == c.(daily := c'.daily)
  {
    var was := if day in c.daily then c.daily[day] else Day(0, 0, 0, 0, 0);
    c.(daily := c.daily[day := Day(was.originated + d.originated, was.lent + d.lent, was.repaid + d.repaid,
                                   was.defaults + d.defaults, was.defaulted + d.defaulted)])
  }

  function Counted(tally: Tally, support: bool, weight: nat): Tally {
    if support then tally.(votesFor := tally.votesFor + weight, voters := tally.voters + 1)
    else tally.(votesAgainst := tally.votesAgainst + weight, voters := tally.voters + 1)
  }

  const NO_VOTES := Tally(0, 0, 0)

  // Which tables a handler may change

  predicate MembersOnly(c: Core, r: Outcome<Effect>) {
    r.Ok? ==> r.value.core == c.(members := r.value.core.members)
  }

  predicate LoanProposalsOnly(c: Core, r: Outcome<Effect>) {
    r.Ok? ==> r.value.core == c.(loanProposals := r.value.core.loanProposals)
  }

  predicate LoansOnly(c: Core, r: Outcome<Effect>) {
    r.Ok? ==>
      var c' := r.value.core;
      c' == c.(members := c'.members, loans := c'.loans, daily := c'.daily, totals := c'.totals)
  }

  predicate InterestOnly(c: Core, r: Outcome<Effect>) {
    r.Ok? ==> r.value.core == c.(interest := r.value.core.interest, totals := r.value.core.totals)
  }

  predicate TreasuryOnly(c: Core, r: Outcome<Effect>) {
    r.Ok? ==> r.value.core == c.(treasury := r.value.core.treasury)
  }

  predicate DocumentsOnly(c: Core, r: Outcome<Effect>) {
    r.Ok? ==> r.value.core == c.(documents := r.value.core.documents)
  }

  // Members

  function MemberJoined(c: Core, ev: Event): (r: Outcome<Effect>)
    ensures MembersOnly(c, r)
  {
    var member :- RequireAddr(ev, "member");
    var fee :- RequireAmount(ev, "fee");
    var row := if member in c.members then c.members[member]
               else Member(ev.ledger, 0, false, None, None, 0, 0, false, None, 0);
    var renewed := row.(joinedLedger := ev.ledger, contribution := Parse(fee), exited := false,
                      exitShare := None, exitedLedger := None, hasActiveLoan := false);
    Ok(Effect(c.(members := c.members[member := renewed]), member))
  }

  function MemberExited(c: Core, ev: Event): (r: Outcome<Effect>)
    ensures MembersOnly(c, r)
  {
    var member :- RequireAddr(ev, "member");
    var share :- RequireAmount(ev, "share");
    var c' := if member !in c.members then c
              else c.(members := c.members[member := c.members[member].(
                exited := true, exitShare := Some(Parse(share)), exitedLedger := Some(ev.ledger),
                stake := 0, hasActiveLoan := false)]);
    Ok(Effect(c', member))
  }

  function MemberClaimed(c: Core, ev: Event): (r: Outcome<Effect>)
    ensures MembersOnly(c, r)
  {
    var member :- RequireAddr(ev, "member");
    var pending :- RequireAmount(ev, "pending");
    var c' := if member !in c.members then c
              else c.(members := c.members[member := c.members[member].(
                pendingClaimed := c.members[member].pendingClaimed + Parse(pending))]);
    Ok(Effect(c', member))
  }

  /** `staked` and `unstaked`. */
  function StakeSet(c: Core, ev: Event): (r: Outcome<Effect>)
    ensures MembersOnly(c, r)
  {
    var member :- RequireAddr(ev, "member");
    var stake :- RequireAmount(ev, "new_stake");
    Ok(Effect(if member !in c.members then c
              else c.(members := c.members[member := c.members[member].(stake := Parse(stake))]), ""))
  }

  function NameReg(c: Core, ev: Event): (r: Outcome<Effect>)
    ensures MembersOnly(c, r)
  {
    var owner :- RequireAddr(ev, "owner");
    Ok(Effect(if owner !in c.members then c
              else c.(members := c.members[owner := c.members[owner].(name := Some(Text(Field(ev, "name"))))]), ""))
  }

  // Loan proposals

  function LoanReq(c: Core, ev: Event): (r: Outcome<Effect>)
    ensures LoanProposalsOnly(c, r)
  {
    var id :- RequireId(ev, "id");
    var borrower :- RequireAddr(ev, "borrower");
    var amount :- RequireAmount(ev, "amount");
    var total :- RequireAmount(ev, "total_repayment");
    var row := if id in c.loanProposals
               then c.loanProposals[id].(amount := Parse(amount), totalRepayment := Parse(total))
               else LoanProposal(borrower, Parse(amount), Parse(total), Pending, NO_VOTES, ev.ledger);
    Ok(Effect(c.(loanProposals := c.loanProposals[id := row]), borrower))
  }

  function LoanEdit(c: Core, ev: Event): (r: Outcome<Effect>)
    ensures LoanProposalsOnly(c, r)
  {
    var id :- RequireId(ev, "proposal_id");
    var amount :- RequireAmount(ev, "new_amount");
    var total :- RequireAmount(ev, "total_repayment");
    Ok(Effect(if id !in c.loanProposals then c
              else c.(loanProposals := c.loanProposals[id := c.loanProposals[id].(
                amount := Parse(amount), totalRepayment := Parse(total))]), ""))
  }

  function LoanVote(c: Core, ev: Event): (r: Outcome<Effect>)
    ensures LoanProposalsOnly(c, r)
  {
    var id :- RequireId(ev, "proposal_id");
    var support :- RequireBool(ev, "support");
    var weight :- WeightOf(ev);
    Ok(Effect(if id !in c.loanProposals then c
              else c.(loanProposals := c.loanProposals[id := c.loanProposals[id].(
                tally := Counted(c.loanProposals[id].tally, support, weight))]), ""))
  }

  /** `loan_wait` and `loan_rej`: only a pending proposal moves, and its borrower is told. */
  function LoanSettled(c: Core, ev: Event, status: ProposalStatus): (r: Outcome<Effect>)
    ensures LoanProposalsOnly(c, r)
  {
    var id :- RequireId(ev, "id");
    Ok(if id !in c.loanProposals || c.loanProposals[id].status != Pending then Effect(c, "")
       else Effect(c.(loanProposals := c.loanProposals[id := c.loanProposals[id].(status := status)]),
                   c.loanProposals[id].borrower))
  }

  function LoanExp(c: Core, ev: Event): (r: Outcome<Effect>)
    ensures LoanProposalsOnly(c, r)
  {
    var id :- RequireId(ev, "proposal_id");
    var borrower :- RequireAddr(ev, "borrower");
    Ok(if id !in c.loanProposals || c.loanProposals[id].status != Pending then Effect(c, "")
       else Effect(c.(loanProposals := c.loanProposals[id := c.loanProposals[id].(status := Rejected)]), borrower))
  }

  // Loans

  function WithActiveLoan(c: Core, borrower: Address, active: bool): (c': Core)
    ensures c' == c.(members := c'.members)
  {
    if borrower !in c.members then c
    else c.(members := c.members[borrower := c.members[borrower].(hasActiveLoan := active)])
  }

  /** A first approval opens the loan and counts its principal; a later one only reactivates the row. */
  function OpenLoan(c: Core, ev: Event, id: int, borrower: Address, amount: nat): (c': Core)
    ensures c' == c.(loans := c'.loans, totals := c'.totals, daily := c'.daily)
  {
    var total := if id in c.loanProposals then c.loanProposals[id].totalRepayment else amount;
    if id in c.loans then
      c.(loans := c.loans[id := c.loans[id].(status := Active, approvedLedger := ev.ledger)])
    else
      AddToDay(
        c.(loans := c.loans[id := Loan(borrower, amount, total, total, Active, ev.ledger, None, None)],
           totals := c.totals.(principalLent := c.totals.principalLent + amount)),
        ev.closedDay, Day(1, amount, 0, 0, 0))
  }

  function LoanAppr(c: Core, ev: Event): (r: Outcome<Effect>)
    ensures r.Ok? ==> LoansOnly(c.(loanProposals := r.value.core.loanProposals), r)
  {
    var id :- RequireId(ev, "id");
    var borrower :- RequireAddr(ev, "borrower");
    var amount :- RequireAmount(ev, "amount");
    var c1 := if id !in c.loanProposals then c
              else c.(loanProposals := c.loanProposals[id := c.loanProposals[id].(status := Approved)]);
    var c2 := OpenLoan(c1, ev, id, borrower, Parse(amount));
    Ok(Effect(WithActiveLoan(c2, borrower, true), borrower))
  }

  /** The balance is cleared when its text is "0". The principal counts as repaid when the loan was not yet. */
  function PayLoan(c: Core, ev: Event, id: int, outstanding: Digits): (c': Core)
    ensures c' == c.(loans := c'.loans, totals := c'.totals, daily := c'.daily)
  {
    if id !in c.loans then c
    else
      var loan := c.loans[id];
      if outstanding != "0" then
        c.(loans := c.loans[id := loan.(outstanding := Parse(outstanding), status := Active)])
      else
        var c1 :=
          c.(loans := c.loans[id := loan.(outstanding := 0, status := Repaid, repaidLedger := Some(ev.ledger))]);
        if loan.status == Repaid then c1
        else AddToDay(c1.(totals := c1.totals.(principalRepaid := c1.totals.principalRepaid + loan.amount)),
                      ev.closedDay, Day(0, 0, loan.amount, 0, 0))
  }

  function LoanRpy(c: Core, ev: Event): (r: Outcome<Effect>)
    ensures LoansOnly(c, r)
  {
    var id :- RequireId(ev, "loan_id");
    var borrower :- RequireAddr(ev, "borrower");
    var outstanding :- RequireAmount(ev, "outstanding");
    var c1 := PayLoan(c, ev, id, outstanding);
    Ok(Effect(if outstanding == "0" then WithActiveLoan(c1, borrower, false) else c1, borrower))
  }

  function DefaultLoan(c: Core, ev: Event, id: int): (c': Core)
    ensures c' == c.(loans := c'.loans, totals := c'.totals, daily := c'.daily)
    requires id in c.loans
  {
    var loan := c.loans[id];
    AddToDay(
      c.(loans := c.loans[id := loan.(status := Defaulted, defaultedLedger := Some(ev.ledger))],
         totals := c.totals.(valueDefaulted := c.totals.valueDefaulted + loan.outstanding)),
      ev.closedDay, Day(0, 0, 0, 1, loan.outstanding))
  }

  function Penalize(c: Core, borrower: Address, penalty: nat): (c': Core)
    ensures c' == c.(members := c'.members)
  {
    if borrower !in c.members then c
    else
      var m := c.members[borrower];
      c.(members := c.members[borrower := m.(
        contribution := if m.contribution >= penalty then m.contribution - penalty else 0,
        hasActiveLoan := false, defaultsCount := m.defaultsCount + 1)])
  }

  function LoanDflt(c: Core, ev: Event): (r: Outcome<Effect>)
    ensures LoansOnly(c, r)
  {
    var id :- RequireId(ev, "loan_id");
    var borrower :- RequireAddr(ev, "borrower");
    var penalty :- RequireAmount(ev, "penalty");
    Ok(if id !in c.loans || c.loans[id].status == Defaulted then Effect(c, "")
       else Effect(Penalize(DefaultLoan(c, ev, id), borrower, Parse(penalty)), borrower))
  }

  function Interest(c: Core, ev: Event): (r: Outcome<Effect>)
    ensures InterestOnly(c, r)
  {
    var amount :- RequireAmount(ev, "interest");
    Ok(Effect(if ev.id in c.interest then c
              else c.(interest := c.interest[ev.id := Distribution(ev.ledger, Parse(amount))],
                      totals := c.totals.(interestCollected := c.totals.interestCollected + Parse(amount))), ""))
  }

  // Treasury proposals and documents

  function TreProp(c: Core, ev: Event): (r: Outcome<Effect>)
    ensures TreasuryOnly(c, r)
  {
    var id :- RequireId(ev, "id");
    var amount :- RequireAmount(ev, "amount");
    var destination :- RequireAddr(ev, "destination");
    var secret := Field(ev, "private") == Bool(true);
    var row := if id in c.treasury
               then c.treasury[id].(amount := Parse(amount), destination := destination, isPrivate := secret)
               else TreasuryProposal(Parse(amount), destination, secret, Pending, NO_VOTES, ev.ledger, None);
    Ok(Effect(c.(treasury := c.treasury[id := row]), ""))
  }

  /** `tre_vote` reads the id from `id`, `revealed` from `proposal_id`. */
  function TreVote(c: Core, ev: Event, idField: string): (r: Outcome<Effect>)
    ensures TreasuryOnly(c, r)
  {
    var id :- RequireId(ev, idField);
    var support :- RequireBool(ev, "support");
    var weight :- WeightOf(ev);
    Ok(Effect(if id !in c.treasury then c
              else c.(treasury := c.treasury[id := c.treasury[id].(
                tally := Counted(c.treasury[id].tally, support, weight))]), ""))
  }

  /** `tre_wait` and `tre_rej`. */
  function TreSettled(c: Core, ev: Event, status: ProposalStatus): (r: Outcome<Effect>)
    ensures TreasuryOnly(c, r)
  {
    var id :- RequireId(ev, "id");
    Ok(if id !in c.treasury || c.treasury[id].status != Pending then Effect(c, "")
       else Effect(c.(treasury := c.treasury[id := c.treasury[id].(status := status)]), c.treasury[id].destination))
  }

  function TreExec(c: Core, ev: Event): (r: Outcome<Effect>)
    ensures TreasuryOnly(c, r)
  {
    var id :- RequireId(ev, "id");
    var destination :- RequireAddr(ev, "destination");
    var c' := if id !in c.treasury then c
              else c.(treasury := c.treasury[id := c.treasury[id].(
                status := Executed, executedLedger := Some(ev.ledger))]);
    Ok(Effect(c', destination))
  }

  function Committed(c: Core, ev: Event): (r: Outcome<Effect>)
    ensures r.Ok? && r.value.core == c
  {
    Ok(Effect(c, Text(Field(ev, "voter"))))
  }

  function DocAttn(c: Core, ev: Event): (r: Outcome<Effect>)
    ensures DocumentsOnly(c, r)
  {
    var id :- RequireId(ev, "proposal_id");
    var caller :- RequireAddr(ev, "caller");
    var kind :- RequireProposalKind(ev, "kind");
    Ok(Effect(if ev.id in c.documents then c
              else c.(documents := c.documents[ev.id := Document(id, kind, caller, ev.ledger)]), ""))
  }

  /** The handler table is keyed by symbol; a symbol without a handler is `KOther`. */
  datatype Kind =
    | KJoined | KExited | KClaimed | KStaked | KUnstaked | KNameReg | KLoanReq | KLoanEdit
    | KLoanVote | KLoanWait | KLoanRej | KLoanExp | KLoanAppr | KLoanRpy | KLoanDflt | KInterest
    | KTreProp | KTreVote | KRevealed | KTreWait | KTreRej | KTreExec | KCommitted | KDocAttn | KOther

  function KindOf(symbol: string): Kind {
    match symbol
    case "joined" => KJoined
    case "exited" => KExited
    case "claimed" => KClaimed
    case "staked" => KStaked
    case "unstaked" => KUnstaked
    case "name_reg" => KNameReg
    case "loan_req" => KLoanReq
    case "loan_edit" => KLoanEdit
    case "loan_vote" => KLoanVote
    case "loan_wait" => KLoanWait
    case "loan_rej" => KLoanRej
    case "loan_exp" => KLoanExp
    case "loan_appr" => KLoanAppr
    case "loan_rpy" => KLoanRpy
    case "loan_dflt" => KLoanDflt
    case "interest" => KInterest
    case "tre_prop" => KTreProp
    case "tre_vote" => KTreVote
    case "revealed" => KRevealed
    case "tre_wait" => KTreWait
    case "tre_rej" => KTreRej
    case "tre_exec" => KTreExec
    case "committed" => KCommitted
    case "doc_attn" => KDocAttn
    case _ => KOther
  }

  /** The handler of an event's symbol; an unknown symbol does nothing. */
  function Handle(c: Core, ev: Event): Outcome<Effect> {
    match KindOf(ev.symbol)
    case KJoined => MemberJoined(c, ev)
    case KExited => MemberExited(c, ev)
    case KClaimed => MemberClaimed(c, ev)
    case KStaked => StakeSet(c, ev)
    case KUnstaked => StakeSet(c, ev)
    case KNameReg => NameReg(c, ev)
    case KLoanReq => LoanReq(c, ev)
    case KLoanEdit => LoanEdit(c, ev)
    case KLoanVote => LoanVote(c, ev)
    case KLoanWait => LoanSettled(c, ev, AwaitingFunds)
    case KLoanRej => LoanSettled(c, ev, Rejected)
    case KLoanExp => LoanExp(c, ev)
    case KLoanAppr => LoanAppr(c, ev)
    case KLoanRpy => LoanRpy(c, ev)
    case KLoanDflt => LoanDflt(c, ev)
    case KInterest => Interest(c, ev)
    case KTreProp => TreProp(c, ev)
    case KTreVote => TreVote(c, ev, "id")
    case KRevealed => TreVote(c, ev, "proposal_id")
    case KTreWait => TreSettled(c, ev, AwaitingFunds)
    case KTreRej => TreSettled(c, ev, Rejected)
    case KTreExec => TreExec(c, ev)
    case KCommitted => Committed(c, ev)
    case KDocAttn => DocAttn(c, ev)
    case KOther => Ok(Effect(c, ""))
  }

  /** `applyEvent`. */
  function Apply(t: Tables, ev: Event): Outcome<Tables> {
    var e :- Handle(t.core, ev);
    Ok(Tables(e.core, Notify(t.notifications, ev, e.told)))
  }
}
