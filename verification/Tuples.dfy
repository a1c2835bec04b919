/**
 * What each published tuple does, from the contract's own values to the rows: the catalog position of every
 * field, the reading of its value, the handler of the symbol and the row it writes, in one statement per event
 * (src/stellar/events.ts:15-96, src/indexer/handlers.ts:193-716).
 */
module Tuples {
  import opened Outcomes
  import opened Events
  import opened Handlers
  import Decimal
  import Frames
  import Readings

  // Values as the decoder hands them over: small numbers, big amounts, text and flags

  function Num(n: int): Native { Plain(Int(n)) }
  function Amt(n: nat): Native { BigInt(n) }
  function Txt(s: string): Native { Plain(Str(s)) }
  function Flag(b: bool): Native { Plain(Bool(b)) }

  predicate Tuple(raw: Raw, symbol: string, elems: seq<Native>) {
    raw.symbol == symbol && raw.value == List(elems)
  }

  /** The event is decoded, and its handler gives these tables and tells this address. */
  predicate Does(c: Core, raw: Raw, c': Core, told: Address) {
    Decode(raw).Ok? && Handle(c, Decode(raw).value) == Ok(Effect(c', told))
  }

  function At(raw: Raw, i: nat): Json
    requires raw.value.List?
  {
    if i < |raw.value.elems| then ToJsonSafe(raw.value.elems[i]) else Null
  }

  /** Every catalogued name finds the value at its own position of the tuple. */
  lemma ReadTuple(raw: Raw, names: seq<string>)
    requires raw.value.List? && FieldNames(raw.symbol) == Some(names)
    requires forall j, k :: 0 <= j < k < |names| ==> names[j] != names[k]
    ensures Decode(raw).Ok?
    ensures var ev := Decode(raw).value;
            && ev.id == raw.id && ev.ledger == raw.ledger && ev.closedDay == raw.closedDay && ev.symbol == raw.symbol
            && forall i :: 0 <= i < |names| ==> names[i] in ev.fields && ev.fields[names[i]] == At(raw, i)
  {
    var ev := Decode(raw).value;
    forall i | 0 <= i < |names|
      ensures names[i] in ev.fields && ev.fields[names[i]] == At(raw, i)
    {
      NamesFindTheirEntries(names, ev.data, |names|, i);
    }
  }

  lemma ReadTwo(raw: Raw, a: string, b: string)
    requires raw.value.List? && FieldNames(raw.symbol) == Some([a, b]) && a != b
    ensures Reads(raw, a, At(raw, 0)) && Reads(raw, b, At(raw, 1))
  {
    ReadTuple(raw, [a, b]);
    assert [a, b][0] == a && [a, b][1] == b;
  }

  lemma ReadThree(raw: Raw, a: string, b: string, d: string)
    requires raw.value.List? && FieldNames(raw.symbol) == Some([a, b, d]) && a != b && a != d && b != d
    ensures Reads(raw, a, At(raw, 0)) && Reads(raw, b, At(raw, 1)) && Reads(raw, d, At(raw, 2))
  {
    ReadTuple(raw, [a, b, d]);
    assert [a, b, d][0] == a && [a, b, d][1] == b && [a, b, d][2] == d;
  }

  lemma ReadFour(raw: Raw, a: string, b: string, d: string, e: string)
    requires raw.value.List? && FieldNames(raw.symbol) == Some([a, b, d, e])
    requires a != b && a != d && a != e && b != d && b != e && d != e
    ensures Reads(raw, a, At(raw, 0)) && Reads(raw, b, At(raw, 1)) && Reads(raw, d, At(raw, 2))
            && Reads(raw, e, At(raw, 3))
  {
    ReadTuple(raw, [a, b, d, e]);
    assert [a, b, d, e][0] == a && [a, b, d, e][1] == b && [a, b, d, e][2] == d && [a, b, d, e][3] == e;
  }

  /** The event is decoded with the header of the raw one. */
  predicate Header(raw: Raw) {
    Decode(raw).Ok? &&
    var ev := Decode(raw).value;
    ev.id == raw.id && ev.ledger == raw.ledger && ev.closedDay == raw.closedDay && ev.symbol == raw.symbol
  }

  /** And it has this value in this field. */
  predicate Reads(raw: Raw, field: string, v: Json) {
    Header(raw) && field in Decode(raw).value.fields && Decode(raw).value.fields[field] == v
  }

  lemma ReadsId(raw: Raw, field: string, n: int)
    requires Reads(raw, field, Int(n))
    ensures RequireId(Decode(raw).value, field) == Ok(n)
  {
    hide Decode;
    Readings.IdIsRead(Decode(raw).value, field, n);
  }

  lemma ReadsAddress(raw: Raw, field: string, a: Address)
    requires Reads(raw, field, Str(a)) && a != ""
    ensures RequireAddr(Decode(raw).value, field) == Ok(a)
  {
    hide Decode;
    Readings.AddressIsRead(Decode(raw).value, field, a);
  }

  lemma ReadsAmount(raw: Raw, field: string, n: nat)
    requires Reads(raw, field, Str(Decimal.Print(n)))
    ensures RequireAmount(Decode(raw).value, field) == Ok(Decimal.Print(n)) && Decimal.Parse(Decimal.Print(n)) == n
  {
    hide Decode;
    Decimal.PrintParses(n);
    Readings.AmountIsRead(Decode(raw).value, field, n);
  }

  lemma ReadsFlag(raw: Raw, field: string, b: bool)
    requires Reads(raw, field, Bool(b))
    ensures RequireBool(Decode(raw).value, field) == Ok(b)
  {
    hide Decode;
    Readings.FlagIsRead(Decode(raw).value, field, b);
  }

  lemma ReadsWeight(raw: Raw, v: Json, n: nat)
    requires Reads(raw, "weight", v) && (if v == Null then n == 1 else v == Str(Decimal.Print(n)))
    ensures WeightOf(Decode(raw).value) == Ok(n)
  {
    hide Decode;
    Decimal.PrintParses(n);
    Readings.WeightIsRead(Decode(raw).value, n);
  }

  /** The handler of each symbol. */
  lemma Handles(c: Core, ev: Event)
    ensures match ev.symbol
            case "joined" => Handle(c, ev) == MemberJoined(c, ev)
            case "exited" => Handle(c, ev) == MemberExited(c, ev)
            case "claimed" => Handle(c, ev) == MemberClaimed(c, ev)
            case "staked" => Handle(c, ev) == StakeSet(c, ev)
            case "unstaked" => Handle(c, ev) == StakeSet(c, ev)
            case "name_reg" => Handle(c, ev) == NameReg(c, ev)
            case "loan_req" => Handle(c, ev) == LoanReq(c, ev)
            case "loan_edit" => Handle(c, ev) == LoanEdit(c, ev)
            case "loan_vote" => Handle(c, ev) == LoanVote(c, ev)
            case "loan_wait" => Handle(c, ev) == LoanSettled(c, ev, AwaitingFunds)
            case "loan_rej" => Handle(c, ev) == LoanSettled(c, ev, Rejected)
            case "loan_exp" => Handle(c, ev) == LoanExp(c, ev)
            case "loan_appr" => Handle(c, ev) == LoanAppr(c, ev)
            case "loan_rpy" => Handle(c, ev) == LoanRpy(c, ev)
            case "loan_dflt" => Handle(c, ev) == LoanDflt(c, ev)
            case "interest" => Handle(c, ev) == Interest(c, ev)
            case "tre_prop" => Handle(c, ev) == TreProp(c, ev)
            case "tre_vote" => Handle(c, ev) == TreVote(c, ev, "id")
            case "revealed" => Handle(c, ev) == TreVote(c, ev, "proposal_id")
            case "tre_wait" => Handle(c, ev) == TreSettled(c, ev, AwaitingFunds)
            case "tre_rej" => Handle(c, ev) == TreSettled(c, ev, Rejected)
            case "tre_exec" => Handle(c, ev) == TreExec(c, ev)
            case "committed" => Handle(c, ev) == Committed(c, ev)
            case "doc_attn" => Handle(c, ev) == DocAttn(c, ev)
            case _ => Handle(c, ev) == Ok(Effect(c, ""))
  {
    hide MemberJoined, MemberExited, MemberClaimed, StakeSet, NameReg, LoanReq, LoanEdit, LoanVote, LoanSettled,
         LoanExp, LoanAppr, LoanRpy, LoanDflt, Interest, TreProp, TreVote, TreSettled, TreExec, Committed, DocAttn;
  }

  // Members

  /** A join starts the membership afresh and keeps what was claimed, staked, named and defaulted before. */
  lemma JoinedTuple(c: Core, raw: Raw, a: Address, fee: nat)
    requires Tuple(raw, "joined", [Txt(a), Amt(fee)]) && a != ""
    ensures var was := if a in c.members then c.members[a] else Member(0, 0, false, None, None, 0, 0, false, None, 0);
            Does(c, raw,
                 c.(members := c.members[a := was.(joinedLedger := raw.ledger, contribution := fee, exited := false,
                                                   exitShare := None, exitedLedger := None, hasActiveLoan := false)]),
                 a)
  {
    ReadTwo(raw, "member", "fee");
    ReadsAddress(raw, "member", a);
    ReadsAmount(raw, "fee", fee);
    hide Handle, Decode, FieldNames, Decimal.Print, Decimal.Parse, RequireId, RequireAddr, RequireAmount, RequireBool,
         WeightOf;
    Handles(c, Decode(raw).value);
  }

  /** An exit of a known member records its share and clears its stake and active loan. */
  lemma ExitedTuple(c: Core, raw: Raw, a: Address, share: nat)
    requires Tuple(raw, "exited", [Txt(a), Amt(share)]) && a != ""
    ensures var c' := if a !in c.members then c
                      else c.(members := c.members[a := c.members[a].(
                exited := true, exitShare := Some(share), exitedLedger := Some(raw.ledger), stake := 0,
                hasActiveLoan := false)]);
            Does(c, raw, c', a)
  {
    ReadTwo(raw, "member", "share");
    ReadsAddress(raw, "member", a);
    ReadsAmount(raw, "share", share);
    hide Handle, Decode, FieldNames, Decimal.Print, Decimal.Parse, RequireId, RequireAddr, RequireAmount, RequireBool,
         WeightOf;
    Handles(c, Decode(raw).value);
  }

  lemma ClaimedTuple(c: Core, raw: Raw, a: Address, n: nat)
    requires Tuple(raw, "claimed", [Txt(a), Amt(n)]) && a != ""
    ensures var c' := if a !in c.members then c
                      else c.(members := c.members[a := c.members[a].(
                pendingClaimed := c.members[a].pendingClaimed + n)]);
            Does(c, raw, c', a)
  {
    ReadTwo(raw, "member", "pending");
    ReadsAddress(raw, "member", a);
    ReadsAmount(raw, "pending", n);
    hide Handle, Decode, FieldNames, Decimal.Print, Decimal.Parse, RequireId, RequireAddr, RequireAmount, RequireBool,
         WeightOf;
    Handles(c, Decode(raw).value);
  }

  /** The stake is the published new one, not a sum. */
  lemma StakedTuple(c: Core, raw: Raw, a: Address, n: nat, stake: nat)
    requires Tuple(raw, "staked", [Txt(a), Amt(n), Amt(stake)]) && a != ""
    ensures var c' := if a !in c.members then c
                      else c.(members := c.members[a := c.members[a].(stake := stake)]);
            Does(c, raw, c', "")
  {
    ReadThree(raw, "member", "amount", "new_stake");
    ReadsAddress(raw, "member", a);
    ReadsAmount(raw, "amount", n);
    ReadsAmount(raw, "new_stake", stake);
    hide Handle, Decode, FieldNames, Decimal.Print, Decimal.Parse, RequireId, RequireAddr, RequireAmount, RequireBool,
         WeightOf;
    Handles(c, Decode(raw).value);
  }

  lemma UnstakedTuple(c: Core, raw: Raw, a: Address, n: nat, stake: nat)
    requires Tuple(raw, "unstaked", [Txt(a), Amt(n), Amt(stake)]) && a != ""
    ensures var c' := if a !in c.members then c
                      else c.(members := c.members[a := c.members[a].(stake := stake)]);
            Does(c, raw, c', "")
  {
    ReadThree(raw, "member", "amount", "new_stake");
    ReadsAddress(raw, "member", a);
    ReadsAmount(raw, "amount", n);
    ReadsAmount(raw, "new_stake", stake);
    hide Handle, Decode, FieldNames, Decimal.Print, Decimal.Parse, RequireId, RequireAddr, RequireAmount, RequireBool,
         WeightOf;
    Handles(c, Decode(raw).value);
  }

  /** A name is registered for the owner, the second entry. */
  lemma NameTuple(c: Core, raw: Raw, name: string, a: Address)
    requires Tuple(raw, "name_reg", [Txt(name), Txt(a)]) && a != ""
    ensures var c' := if a !in c.members then c
                      else c.(members := c.members[a := c.members[a].(name := Some(name))]);
            Does(c, raw, c', "")
  {
    ReadTwo(raw, "name", "owner");
    ReadsAddress(raw, "owner", a);
    hide Handle, Decode, FieldNames, Decimal.Print, Decimal.Parse, RequireId, RequireAddr, RequireAmount, RequireBool,
         WeightOf;
    Handles(c, Decode(raw).value);
  }

  // Loan proposals

  lemma RequestReads(raw: Raw, id: int, b: Address, n: nat, total: nat)
    requires Tuple(raw, "loan_req", [Num(id), Txt(b), Amt(n), Amt(total)]) && b != ""
    ensures Header(raw) && RequireId(Decode(raw).value, "id") == Ok(id)
            && RequireAddr(Decode(raw).value, "borrower") == Ok(b)
            && RequireAmount(Decode(raw).value, "amount") == Ok(Decimal.Print(n))
               && Decimal.Parse(Decimal.Print(n)) == n
            && RequireAmount(Decode(raw).value, "total_repayment") == Ok(Decimal.Print(total))
            && Decimal.Parse(Decimal.Print(total)) == total
  {
    ReadFour(raw, "id", "borrower", "amount", "total_repayment");
    ReadsId(raw, "id", id);
    ReadsAddress(raw, "borrower", b);
    ReadsAmount(raw, "amount", n);
    ReadsAmount(raw, "total_repayment", total);
    hide Decode, FieldNames, RequireId, RequireAddr, RequireAmount, Decimal.Print, Decimal.Parse;
  }

  lemma EditReads(raw: Raw, id: int, b: Address, n: nat, total: nat)
    requires Tuple(raw, "loan_edit", [Num(id), Txt(b), Amt(n), Amt(total)])
    ensures Header(raw) && RequireId(Decode(raw).value, "proposal_id") == Ok(id)
            && RequireAmount(Decode(raw).value, "new_amount") == Ok(Decimal.Print(n))
               && Decimal.Parse(Decimal.Print(n)) == n
            && RequireAmount(Decode(raw).value, "total_repayment") == Ok(Decimal.Print(total))
            && Decimal.Parse(Decimal.Print(total)) == total
  {
    ReadFour(raw, "proposal_id", "borrower", "new_amount", "total_repayment");
    ReadsId(raw, "proposal_id", id);
    ReadsAmount(raw, "new_amount", n);
    ReadsAmount(raw, "total_repayment", total);
    hide Decode, FieldNames, RequireId, RequireAddr, RequireAmount, Decimal.Print, Decimal.Parse;
  }

  /** A first request opens a pending proposal without votes; a later one only changes the amounts. */
  lemma LoanRequestTuple(c: Core, raw: Raw, id: int, b: Address, n: nat, total: nat)
    requires Tuple(raw, "loan_req", [Num(id), Txt(b), Amt(n), Amt(total)]) && b != ""
    ensures var row := if id in c.loanProposals then c.loanProposals[id].(amount := n, totalRepayment := total)
                       else LoanProposal(b, n, total, Pending, Tally(0, 0, 0), raw.ledger);
            Does(c, raw, c.(loanProposals := c.loanProposals[id := row]), b)
  {
    RequestReads(raw, id, b, n, total);
    assert KindOf(raw.symbol) == KLoanReq;
    hide KindOf, Tuple, Handle, Decode, FieldNames, Decimal.Print, Decimal.Parse, RequireId, RequireAddr,
         RequireAmount, RequireBool, WeightOf, LoanEdit, LoanVote, LoanSettled, LoanExp, LoanAppr;
    Frames.LoanProposalHandlers(c, Decode(raw).value);
  }

  lemma LoanEditTuple(c: Core, raw: Raw, id: int, b: Address, n: nat, total: nat)
    requires Tuple(raw, "loan_edit", [Num(id), Txt(b), Amt(n), Amt(total)])
    ensures var c' := if id !in c.loanProposals then c
                      else c.(loanProposals := c.loanProposals[id :=
                                                               c.loanProposals[id].(amount := n,
                                                                   totalRepayment := total)]);
            Does(c, raw, c', "")
  {
    EditReads(raw, id, b, n, total);
    assert KindOf(raw.symbol) == KLoanEdit;
    hide KindOf, Tuple, Handle, Decode, FieldNames, Decimal.Print, Decimal.Parse, RequireId, RequireAddr,
         RequireAmount, RequireBool, WeightOf, LoanReq, LoanVote, LoanSettled, LoanExp, LoanAppr;
    Frames.LoanProposalHandlers(c, Decode(raw).value);
  }

  lemma BallotReads(raw: Raw, idField: string, id: int, voter: Address, support: bool)
    requires raw.value == List([Num(id), Txt(voter), Flag(support)]) && idField in ["id", "proposal_id"]
    requires FieldNames(raw.symbol) == Some([idField, "voter", "support", "weight"])
    ensures Header(raw) && RequireId(Decode(raw).value, idField) == Ok(id)
            && RequireBool(Decode(raw).value, "support") == Ok(support) && WeightOf(Decode(raw).value) == Ok(1)
  {
    ReadFour(raw, idField, "voter", "support", "weight");
    ReadsId(raw, idField, id);
    ReadsFlag(raw, "support", support);
    ReadsWeight(raw, Null, 1);
    hide Decode, FieldNames, RequireId, RequireBool, WeightOf;
  }

  lemma WeightedBallotReads(raw: Raw, idField: string, id: int, voter: Address, support: bool, weight: nat)
    requires raw.value == List([Num(id), Txt(voter), Flag(support), Amt(weight)]) && idField in ["id", "proposal_id"]
    requires FieldNames(raw.symbol) == Some([idField, "voter", "support", "weight"])
    ensures Header(raw) && RequireId(Decode(raw).value, idField) == Ok(id)
            && RequireBool(Decode(raw).value, "support") == Ok(support) && WeightOf(Decode(raw).value) == Ok(weight)
  {
    ReadFour(raw, idField, "voter", "support", "weight");
    ReadsId(raw, idField, id);
    ReadsFlag(raw, "support", support);
    ReadsWeight(raw, Str(Decimal.Print(weight)), weight);
    hide Decode, FieldNames, RequireId, RequireBool, WeightOf;
  }

  /** A ballot in favour adds its weight to the votes for, one against to the votes against; either adds a voter. */
  function Cast(tally: Tally, support: bool, weight: nat): Tally {
    Tally(tally.votesFor + (if support then weight else 0), tally.votesAgainst + (if support then 0 else weight),
          tally.voters + 1)
  }

  function LoanBalloted(c: Core, id: int, support: bool, weight: nat): Core {
    if id !in c.loanProposals then c
    else
      var row := c.loanProposals[id];
      c.(loanProposals := c.loanProposals[id := row.(tally := Cast(row.tally, support, weight))])
  }

  function TreasuryBalloted(c: Core, id: int, support: bool, weight: nat): Core {
    if id !in c.treasury then c
    else
      var row := c.treasury[id];
      c.(treasury := c.treasury[id := row.(tally := Cast(row.tally, support, weight))])
  }

  /** What the two voting handlers do with the ballot they read. */
  lemma BallotDoes(c: Core, ev: Event, idField: string, id: int, support: bool, weight: nat)
    requires RequireId(ev, idField) == Ok(id) && RequireBool(ev, "support") == Ok(support) && WeightOf(ev) == Ok(weight)
    ensures TreVote(c, ev, idField) == Ok(Effect(TreasuryBalloted(c, id, support, weight), ""))
    ensures idField == "proposal_id" ==> LoanVote(c, ev) == Ok(Effect(LoanBalloted(c, id, support, weight), ""))
  {
    hide RequireId, RequireBool, WeightOf;
  }

  /** A ballot on a loan proposal counts on the side it names, one without a weight as one. */
  lemma LoanVoteTuple(c: Core, raw: Raw, id: int, voter: Address, support: bool)
    requires Tuple(raw, "loan_vote", [Num(id), Txt(voter), Flag(support)])
    ensures Does(c, raw, LoanBalloted(c, id, support, 1), "")
  {
    assert FieldNames(raw.symbol) == Some(["proposal_id", "voter", "support", "weight"]);
    BallotReads(raw, "proposal_id", id, voter, support);
    assert KindOf(raw.symbol) == KLoanVote;
    hide KindOf, Tuple, Handle, Decode, FieldNames, RequireId, RequireBool, WeightOf, LoanVote, TreVote, LoanBalloted,
         TreasuryBalloted;
    BallotDoes(c, Decode(raw).value, "proposal_id", id, support, 1);
    Frames.LoanProposalHandlers(c, Decode(raw).value);
  }

  lemma WeightedLoanVoteTuple(c: Core, raw: Raw, id: int, voter: Address, support: bool, weight: nat)
    requires Tuple(raw, "loan_vote", [Num(id), Txt(voter), Flag(support), Amt(weight)])
    ensures Does(c, raw, LoanBalloted(c, id, support, weight), "")
  {
    assert FieldNames(raw.symbol) == Some(["proposal_id", "voter", "support", "weight"]);
    WeightedBallotReads(raw, "proposal_id", id, voter, support, weight);
    assert KindOf(raw.symbol) == KLoanVote;
    hide KindOf, Tuple, Handle, Decode, FieldNames, RequireId, RequireBool, WeightOf, LoanVote, TreVote, LoanBalloted,
         TreasuryBalloted;
    BallotDoes(c, Decode(raw).value, "proposal_id", id, support, weight);
    Frames.LoanProposalHandlers(c, Decode(raw).value);
  }

  /** Only a pending proposal moves, and only then is its borrower told. */
  lemma LoanWaitTuple(c: Core, raw: Raw, id: int, n: nat)
    requires Tuple(raw, "loan_wait", [Num(id), Amt(n)])
    ensures if id in c.loanProposals && c.loanProposals[id].status == Pending
            then Does(c, raw, c.(loanProposals := c.loanProposals[id := c.loanProposals[id].(status := AwaitingFunds)]),
                      c.loanProposals[id].borrower)
            else Does(c, raw, c, "")
  {
    ReadTwo(raw, "id", "amount");
    ReadsId(raw, "id", id);
    ReadsAmount(raw, "amount", n);
    hide Handle, Decode, FieldNames, Decimal.Print, Decimal.Parse, RequireId, RequireAddr, RequireAmount, RequireBool,
         WeightOf;
    Handles(c, Decode(raw).value);
  }

  lemma LoanRejectTuple(c: Core, raw: Raw, id: int, yes: nat, no: nat)
    requires Tuple(raw, "loan_rej", [Num(id), Amt(yes), Amt(no)])
    ensures if id in c.loanProposals && c.loanProposals[id].status == Pending
            then Does(c, raw, c.(loanProposals := c.loanProposals[id := c.loanProposals[id].(status := Rejected)]),
                      c.loanProposals[id].borrower)
            else Does(c, raw, c, "")
  {
    ReadThree(raw, "id", "for_votes", "against_votes");
    ReadsId(raw, "id", id);
    hide Handle, Decode, FieldNames, Decimal.Print, Decimal.Parse, RequireId, RequireAddr, RequireAmount, RequireBool,
         WeightOf;
    Handles(c, Decode(raw).value);
  }

  lemma LoanExpiryTuple(c: Core, raw: Raw, id: int, b: Address)
    requires Tuple(raw, "loan_exp", [Num(id), Txt(b)]) && b != ""
    ensures if id in c.loanProposals && c.loanProposals[id].status == Pending
            then Does(c, raw, c.(loanProposals := c.loanProposals[id := c.loanProposals[id].(status := Rejected)]), b)
            else Does(c, raw, c, "")
  {
    ReadTwo(raw, "proposal_id", "borrower");
    ReadsId(raw, "proposal_id", id);
    ReadsAddress(raw, "borrower", b);
    hide Handle, Decode, FieldNames, Decimal.Print, Decimal.Parse, RequireId, RequireAddr, RequireAmount, RequireBool,
         WeightOf;
    Handles(c, Decode(raw).value);
  }

  // Loans

  function DayBefore(c: Core, day: int): Day {
    if day in c.daily then c.daily[day] else Day(0, 0, 0, 0, 0)
  }

  function SetActive(members: map<Address, Member>, b: Address, active: bool): map<Address, Member> {
    if b in members then members[b := members[b].(hasActiveLoan := active)] else members
  }

  function Approve(proposals: map<int, LoanProposal>, id: int): map<int, LoanProposal> {
    if id in proposals then proposals[id := proposals[id].(status := Approved)] else proposals
  }

  lemma ApprovalReads(raw: Raw, id: int, b: Address, n: nat)
    requires Tuple(raw, "loan_appr", [Num(id), Txt(b), Amt(n)]) && b != ""
    ensures Header(raw) && RequireId(Decode(raw).value, "id") == Ok(id)
            && RequireAddr(Decode(raw).value, "borrower") == Ok(b)
            && RequireAmount(Decode(raw).value, "amount") == Ok(Decimal.Print(n))
               && Decimal.Parse(Decimal.Print(n)) == n
  {
    ReadFour(raw, "id", "borrower", "amount", "due_time");
    ReadsId(raw, "id", id);
    ReadsAddress(raw, "borrower", b);
    ReadsAmount(raw, "amount", n);
    hide Decode, FieldNames, RequireId, RequireAddr, RequireAmount, Decimal.Print, Decimal.Parse;
  }

  lemma RepaymentReads(raw: Raw, id: int, b: Address, left: nat)
    requires Tuple(raw, "loan_rpy", [Num(id), Txt(b), Amt(left)]) && b != ""
    ensures Header(raw) && RequireId(Decode(raw).value, "loan_id") == Ok(id)
            && RequireAddr(Decode(raw).value, "borrower") == Ok(b)
            && RequireAmount(Decode(raw).value, "outstanding") == Ok(Decimal.Print(left))
            && Decimal.Parse(Decimal.Print(left)) == left && (Decimal.Print(left) == "0" <==> left == 0)
  {
    ReadThree(raw, "loan_id", "borrower", "outstanding");
    ReadsId(raw, "loan_id", id);
    ReadsAddress(raw, "borrower", b);
    ReadsAmount(raw, "outstanding", left);
    Decimal.PrintZero(left);
    hide Decode, FieldNames, RequireId, RequireAddr, RequireAmount, Decimal.Print, Decimal.Parse;
  }

  lemma DefaultReads(raw: Raw, id: int, b: Address, penalty: nat)
    requires Tuple(raw, "loan_dflt", [Num(id), Txt(b), Amt(penalty)]) && b != ""
    ensures Header(raw) && RequireId(Decode(raw).value, "loan_id") == Ok(id)
            && RequireAddr(Decode(raw).value, "borrower") == Ok(b)
            && RequireAmount(Decode(raw).value, "penalty") == Ok(Decimal.Print(penalty))
               && Decimal.Parse(Decimal.Print(penalty)) == penalty
  {
    ReadThree(raw, "loan_id", "borrower", "penalty");
    ReadsId(raw, "loan_id", id);
    ReadsAddress(raw, "borrower", b);
    ReadsAmount(raw, "penalty", penalty);
    hide Decode, FieldNames, RequireId, RequireAddr, RequireAmount, Decimal.Print, Decimal.Parse;
  }

  lemma InterestReads(raw: Raw, n: nat, active: int)
    requires Tuple(raw, "interest", [Amt(n), Num(active)])
    ensures Header(raw) && RequireAmount(Decode(raw).value, "interest") == Ok(Decimal.Print(n))
            && Decimal.Parse(Decimal.Print(n)) == n
  {
    ReadTwo(raw, "interest", "active");
    ReadsAmount(raw, "interest", n);
    hide Decode, FieldNames, RequireId, RequireAddr, RequireAmount, Decimal.Print, Decimal.Parse;
  }

  lemma FirstOpening(c: Core, ev: Event, id: int, b: Address, n: nat)
    requires id !in c.loans
    ensures var total := if id in c.loanProposals then c.loanProposals[id].totalRepayment else n;
            var day := DayBefore(c, ev.closedDay);
            OpenLoan(c, ev, id, b, n)
            == c.(loans := c.loans[id := Loan(b, n, total, total, Active, ev.ledger, None, None)],
                  totals := c.totals.(principalLent := c.totals.principalLent + n),
                  daily := c.daily[ev.closedDay := day.(originated := day.originated + 1, lent := day.lent + n)])
  {
  }

  lemma SameDay(c: Core, c': Core, day: int)
    requires c'.daily == c.daily
    ensures DayBefore(c', day) == DayBefore(c, day)
  {
  }

  lemma ApprovalKeepsTotal(proposals: map<int, LoanProposal>, id: int)
    ensures id in Approve(proposals, id) <==> id in proposals
    ensures id in proposals ==> Approve(proposals, id)[id].totalRepayment == proposals[id].totalRepayment
  {
  }

  lemma ApprovalEffect(c: Core, ev: Event, id: int, b: Address, s: Decimal.Digits)
    requires RequireId(ev, "id") == Ok(id) && RequireAddr(ev, "borrower") == Ok(b)
             && RequireAmount(ev, "amount") == Ok(s)
    ensures var c2 := OpenLoan(c.(loanProposals := Approve(c.loanProposals, id)), ev, id, b, Decimal.Parse(s));
            LoanAppr(c, ev) == Ok(Effect(c2.(members := SetActive(c2.members, b, true)), b))
  {
    hide RequireId, RequireAddr, RequireAmount, OpenLoan, Decimal.Parse;
  }

  lemma FirstApproval(c: Core, ev: Event, id: int, b: Address, n: nat)
    requires RequireId(ev, "id") == Ok(id) && RequireAddr(ev, "borrower") == Ok(b) && id !in c.loans
    requires RequireAmount(ev, "amount").Ok? && Decimal.Parse(RequireAmount(ev, "amount").value) == n
    ensures var total := if id in c.loanProposals then c.loanProposals[id].totalRepayment else n;
            var day := DayBefore(c, ev.closedDay);
            LoanAppr(c, ev) ==
            Ok(Effect(c.(loanProposals := Approve(c.loanProposals, id), members := SetActive(c.members, b, true),
                         loans := c.loans[id := Loan(b, n, total, total, Active, ev.ledger, None, None)],
                         totals := c.totals.(principalLent := c.totals.principalLent + n),
                         daily := c.daily[ev.closedDay :=
                                          day.(originated := day.originated + 1, lent := day.lent + n)]),
                      b))
  {
    hide RequireId, RequireAddr, RequireAmount, LoanAppr, OpenLoan, Approve, SetActive, DayBefore, Decimal.Parse;
    var c1 := c.(loanProposals := Approve(c.loanProposals, id));
    ApprovalEffect(c, ev, id, b, RequireAmount(ev, "amount").value);
    FirstOpening(c1, ev, id, b, n);
    ApprovalKeepsTotal(c.loanProposals, id);
    SameDay(c, c1, ev.closedDay);
  }

  lemma DefaultEffect(c: Core, ev: Event, id: int, b: Address, s: Decimal.Digits)
    requires RequireId(ev, "loan_id") == Ok(id) && RequireAddr(ev, "borrower") == Ok(b)
    requires RequireAmount(ev, "penalty") == Ok(s)
    ensures LoanDflt(c, ev) ==
            if id !in c.loans || c.loans[id].status == Defaulted then Ok(Effect(c, ""))
            else
              var c' := DefaultLoan(c, ev, id);
              Ok(Effect(c'.(members := Penalized(c'.members, b, Decimal.Parse(s))), b))
  {
    hide RequireId, RequireAddr, RequireAmount, DefaultLoan, Decimal.Parse;
  }

  lemma Defaulting(c: Core, ev: Event, id: int)
    requires id in c.loans
    ensures var loan, day := c.loans[id], DayBefore(c, ev.closedDay);
            DefaultLoan(c, ev, id)
            == c.(loans := c.loans[id := loan.(status := Defaulted, defaultedLedger := Some(ev.ledger))],
                  totals := c.totals.(valueDefaulted := c.totals.valueDefaulted + loan.outstanding),
                  daily := c.daily[ev.closedDay := day.(defaults := day.defaults + 1,
                                                        defaulted := day.defaulted + loan.outstanding)])
  {
  }

  /** A first approval opens the loan with the whole repayment total of its proposal outstanding, and counts its
      principal on the day it closed. */
  lemma FirstApprovalTuple(c: Core, raw: Raw, id: int, b: Address, n: nat)
    requires Tuple(raw, "loan_appr", [Num(id), Txt(b), Amt(n)]) && b != "" && id !in c.loans
    ensures var total := if id in c.loanProposals then c.loanProposals[id].totalRepayment else n;
            var day := DayBefore(c, raw.closedDay);
            Does(c, raw,
                 c.(loanProposals := Approve(c.loanProposals, id), members := SetActive(c.members, b, true),
                    loans := c.loans[id := Loan(b, n, total, total, Active, raw.ledger, None, None)],
                    totals := c.totals.(principalLent := c.totals.principalLent + n),
                    daily := c.daily[raw.closedDay := day.(originated := day.originated + 1, lent := day.lent + n)]),
                 b)
  {
    ApprovalReads(raw, id, b, n);
    assert KindOf(raw.symbol) == KLoanAppr;
    hide KindOf, Tuple, Handle, Decode, FieldNames, Decimal.Print, Decimal.Parse, RequireId, RequireAddr,
         RequireAmount, RequireBool, WeightOf, LoanRpy, LoanDflt, Interest, LoanAppr, OpenLoan, Approve, SetActive,
         DayBefore;
    var ev := Decode(raw).value;
    Frames.LoanHandlers(c, ev);
    FirstApproval(c, ev, id, b, n);
  }

  lemma RepeatedApprovalTuple(c: Core, raw: Raw, id: int, b: Address, n: nat)
    requires Tuple(raw, "loan_appr", [Num(id), Txt(b), Amt(n)]) && b != "" && id in c.loans
    ensures Does(c, raw,
                 c.(loanProposals := Approve(c.loanProposals, id), members := SetActive(c.members, b, true),
                    loans := c.loans[id := c.loans[id].(status := Active, approvedLedger := raw.ledger)]),
                 b)
  {
    ApprovalReads(raw, id, b, n);
    assert KindOf(raw.symbol) == KLoanAppr;
    hide KindOf, Tuple, Handle, Decode, FieldNames, Decimal.Print, Decimal.Parse, RequireId, RequireAddr,
         RequireAmount, RequireBool, WeightOf, LoanRpy, LoanDflt, Interest, LoanAppr, Approve, SetActive, AddToDay;
    var ev := Decode(raw).value;
    Frames.LoanHandlers(c, ev);
    ApprovalEffect(c, ev, id, b, Decimal.Print(n));
  }

  /** A repayment leaves the published balance. */
  lemma RepaymentTuple(c: Core, raw: Raw, id: int, b: Address, left: nat)
    requires Tuple(raw, "loan_rpy", [Num(id), Txt(b), Amt(left)]) && b != "" && left > 0
    ensures var c' := if id !in c.loans then c
                      else c.(loans := c.loans[id := c.loans[id].(outstanding := left, status := Active)]);
            Does(c, raw, c', b)
  {
    RepaymentReads(raw, id, b, left);
    assert KindOf(raw.symbol) == KLoanRpy;
    hide KindOf, Tuple, Handle, Decode, FieldNames, Decimal.Print, Decimal.Parse, RequireId, RequireAddr,
         RequireAmount, RequireBool, WeightOf, LoanAppr, LoanDflt, Interest;
    Frames.LoanHandlers(c, Decode(raw).value);
  }

  /** A balance of zero clears the loan and counts its principal, once. */
  lemma ClearingTuple(c: Core, raw: Raw, id: int, b: Address)
    requires Tuple(raw, "loan_rpy", [Num(id), Txt(b), Amt(0)]) && b != "" && id in c.loans
             && c.loans[id].status != Repaid
    ensures var loan, day := c.loans[id], DayBefore(c, raw.closedDay);
            Does(c, raw,
                 c.(loans := c.loans[id := loan.(outstanding := 0, status := Repaid, repaidLedger := Some(raw.ledger))],
                    members := SetActive(c.members, b, false),
                    totals := c.totals.(principalRepaid := c.totals.principalRepaid + loan.amount),
                    daily := c.daily[raw.closedDay := day.(repaid := day.repaid + loan.amount)]),
                 b)
  {
    RepaymentReads(raw, id, b, 0);
    assert KindOf(raw.symbol) == KLoanRpy;
    hide KindOf, Tuple, Handle, Decode, FieldNames, Decimal.Print, Decimal.Parse, RequireId, RequireAddr,
         RequireAmount, RequireBool, WeightOf, LoanAppr, LoanDflt, Interest;
    Frames.LoanHandlers(c, Decode(raw).value);
  }

  lemma ClearedAgainTuple(c: Core, raw: Raw, id: int, b: Address)
    requires Tuple(raw, "loan_rpy", [Num(id), Txt(b), Amt(0)]) && b != ""
    requires id in c.loans ==> c.loans[id].status == Repaid
    ensures var loans := if id !in c.loans then c.loans
                         else c.loans[id := c.loans[id].(outstanding := 0, repaidLedger := Some(raw.ledger))];
            Does(c, raw, c.(loans := loans, members := SetActive(c.members, b, false)), b)
  {
    RepaymentReads(raw, id, b, 0);
    assert KindOf(raw.symbol) == KLoanRpy;
    hide KindOf, Tuple, Handle, Decode, FieldNames, Decimal.Print, Decimal.Parse, RequireId, RequireAddr,
         RequireAmount, RequireBool, WeightOf, LoanAppr, LoanDflt, Interest;
    Frames.LoanHandlers(c, Decode(raw).value);
  }

  function Penalized(members: map<Address, Member>, b: Address, penalty: nat): map<Address, Member> {
    if b !in members then members
    else
      var was := members[b];
      members[b := was.(contribution := if was.contribution < penalty then 0 else was.contribution - penalty,
                        hasActiveLoan := false, defaultsCount := was.defaultsCount + 1)]
  }

  /** A default counts the balance once and takes the penalty from the contribution, down to zero. */
  lemma DefaultTuple(c: Core, raw: Raw, id: int, b: Address, penalty: nat)
    requires Tuple(raw, "loan_dflt", [Num(id), Txt(b), Amt(penalty)]) && b != ""
    ensures if id in c.loans && c.loans[id].status != Defaulted
            then
              var loan, day := c.loans[id], DayBefore(c, raw.closedDay);
              Does(c, raw,
                   c.(loans := c.loans[id := loan.(status := Defaulted, defaultedLedger := Some(raw.ledger))],
                      members := Penalized(c.members, b, penalty),
                      totals := c.totals.(valueDefaulted := c.totals.valueDefaulted + loan.outstanding),
                      daily := c.daily[raw.closedDay := day.(defaults := day.defaults + 1,
                                                             defaulted := day.defaulted + loan.outstanding)]),
                   b)
            else Does(c, raw, c, "")
  {
    DefaultReads(raw, id, b, penalty);
    assert KindOf(raw.symbol) == KLoanDflt;
    hide KindOf, Tuple, Handle, Decode, FieldNames, Decimal.Print, Decimal.Parse, RequireId, RequireAddr,
         RequireAmount, RequireBool, WeightOf, LoanAppr, LoanAppr, LoanRpy, Interest, LoanDflt, DefaultLoan, Penalized,
         DayBefore;
    var ev := Decode(raw).value;
    Frames.LoanHandlers(c, ev);
    DefaultEffect(c, ev, id, b, Decimal.Print(penalty));
    if id in c.loans {
      Defaulting(c, ev, id);
    }
  }

  /** A distribution counts once per event id. */
  lemma InterestTuple(c: Core, raw: Raw, n: nat, active: int)
    requires Tuple(raw, "interest", [Amt(n), Num(active)])
    ensures var c' := if raw.id in c.interest then c
                      else c.(interest := c.interest[raw.id := Distribution(raw.ledger, n)],
                              totals := c.totals.(interestCollected := c.totals.interestCollected + n));
            Does(c, raw, c', "")
  {
    InterestReads(raw, n, active);
    assert KindOf(raw.symbol) == KInterest;
    hide KindOf, Tuple, Handle, Decode, FieldNames, Decimal.Print, Decimal.Parse, RequireId, RequireAddr,
         RequireAmount, RequireBool, WeightOf, LoanAppr, LoanRpy, LoanDflt;
    Frames.LoanHandlers(c, Decode(raw).value);
  }

  // Treasury proposals and documents

  lemma TreasuryProposalTuple(c: Core, raw: Raw, id: int, n: nat, d: Address, secret: bool)
    requires Tuple(raw, "tre_prop", [Num(id), Amt(n), Txt(d), Flag(secret)]) && d != ""
    ensures var row := if id in c.treasury then c.treasury[id].(amount := n, destination := d, isPrivate := secret)
                       else TreasuryProposal(n, d, secret, Pending, Tally(0, 0, 0), raw.ledger, None);
            Does(c, raw, c.(treasury := c.treasury[id := row]), "")
  {
    ReadFour(raw, "id", "amount", "destination", "private");
    ReadsId(raw, "id", id);
    ReadsAmount(raw, "amount", n);
    ReadsAddress(raw, "destination", d);
    hide Handle, Decode, FieldNames, Decimal.Print, Decimal.Parse, RequireId, RequireAddr, RequireAmount, RequireBool,
         WeightOf;
    Handles(c, Decode(raw).value);
  }

  /** An open ballot and a revealed one count alike. */
  lemma TreasuryVoteTuple(c: Core, raw: Raw, id: int, voter: Address, support: bool)
    requires Tuple(raw, "tre_vote", [Num(id), Txt(voter), Flag(support)])
    ensures Does(c, raw, TreasuryBalloted(c, id, support, 1), "")
  {
    assert FieldNames(raw.symbol) == Some(["id", "voter", "support", "weight"]);
    BallotReads(raw, "id", id, voter, support);
    assert KindOf(raw.symbol) == KTreVote;
    hide KindOf, Tuple, Handle, Decode, FieldNames, RequireId, RequireBool, WeightOf, LoanVote, TreVote, LoanBalloted,
         TreasuryBalloted;
    BallotDoes(c, Decode(raw).value, "id", id, support, 1);
    Frames.TreasuryHandlers(c, Decode(raw).value);
  }

  lemma WeightedTreasuryVoteTuple(c: Core, raw: Raw, id: int, voter: Address, support: bool, weight: nat)
    requires Tuple(raw, "tre_vote", [Num(id), Txt(voter), Flag(support), Amt(weight)])
    ensures Does(c, raw, TreasuryBalloted(c, id, support, weight), "")
  {
    assert FieldNames(raw.symbol) == Some(["id", "voter", "support", "weight"]);
    WeightedBallotReads(raw, "id", id, voter, support, weight);
    assert KindOf(raw.symbol) == KTreVote;
    hide KindOf, Tuple, Handle, Decode, FieldNames, RequireId, RequireBool, WeightOf, LoanVote, TreVote, LoanBalloted,
         TreasuryBalloted;
    BallotDoes(c, Decode(raw).value, "id", id, support, weight);
    Frames.TreasuryHandlers(c, Decode(raw).value);
  }

  lemma RevealedTuple(c: Core, raw: Raw, id: int, voter: Address, support: bool)
    requires Tuple(raw, "revealed", [Num(id), Txt(voter), Flag(support)])
    ensures Does(c, raw, TreasuryBalloted(c, id, support, 1), "")
  {
    assert FieldNames(raw.symbol) == Some(["proposal_id", "voter", "support", "weight"]);
    BallotReads(raw, "proposal_id", id, voter, support);
    assert KindOf(raw.symbol) == KRevealed;
    hide KindOf, Tuple, Handle, Decode, FieldNames, RequireId, RequireBool, WeightOf, LoanVote, TreVote, LoanBalloted,
         TreasuryBalloted;
    BallotDoes(c, Decode(raw).value, "proposal_id", id, support, 1);
    Frames.TreasuryHandlers(c, Decode(raw).value);
  }

  lemma WeightedRevealedTuple(c: Core, raw: Raw, id: int, voter: Address, support: bool, weight: nat)
    requires Tuple(raw, "revealed", [Num(id), Txt(voter), Flag(support), Amt(weight)])
    ensures Does(c, raw, TreasuryBalloted(c, id, support, weight), "")
  {
    assert FieldNames(raw.symbol) == Some(["proposal_id", "voter", "support", "weight"]);
    WeightedBallotReads(raw, "proposal_id", id, voter, support, weight);
    assert KindOf(raw.symbol) == KRevealed;
    hide KindOf, Tuple, Handle, Decode, FieldNames, RequireId, RequireBool, WeightOf, LoanVote, TreVote, LoanBalloted,
         TreasuryBalloted;
    BallotDoes(c, Decode(raw).value, "proposal_id", id, support, weight);
    Frames.TreasuryHandlers(c, Decode(raw).value);
  }

  lemma TreasuryWaitTuple(c: Core, raw: Raw, id: int, n: nat)
    requires Tuple(raw, "tre_wait", [Num(id), Amt(n)])
    ensures if id in c.treasury && c.treasury[id].status == Pending
            then Does(c, raw, c.(treasury := c.treasury[id := c.treasury[id].(status := AwaitingFunds)]),
                      c.treasury[id].destination)
            else Does(c, raw, c, "")
  {
    ReadTwo(raw, "id", "amount");
    ReadsId(raw, "id", id);
    ReadsAmount(raw, "amount", n);
    hide Handle, Decode, FieldNames, Decimal.Print, Decimal.Parse, RequireId, RequireAddr, RequireAmount, RequireBool,
         WeightOf;
    Handles(c, Decode(raw).value);
  }

  lemma TreasuryRejectTuple(c: Core, raw: Raw, id: int, yes: nat, no: nat)
    requires Tuple(raw, "tre_rej", [Num(id), Amt(yes), Amt(no)])
    ensures if id in c.treasury && c.treasury[id].status == Pending
            then Does(c, raw, c.(treasury := c.treasury[id := c.treasury[id].(status := Rejected)]),
                      c.treasury[id].destination)
            else Does(c, raw, c, "")
  {
    ReadThree(raw, "id", "for_votes", "against_votes");
    ReadsId(raw, "id", id);
    hide Handle, Decode, FieldNames, Decimal.Print, Decimal.Parse, RequireId, RequireAddr, RequireAmount, RequireBool,
         WeightOf;
    Handles(c, Decode(raw).value);
  }

  lemma ExecutionTuple(c: Core, raw: Raw, id: int, n: nat, d: Address)
    requires Tuple(raw, "tre_exec", [Num(id), Amt(n), Txt(d)]) && d != ""
    ensures var c' := if id !in c.treasury then c
                      else c.(treasury := c.treasury[id := c.treasury[id].(
                status := Executed, executedLedger := Some(raw.ledger))]);
            Does(c, raw, c', d)
  {
    ReadThree(raw, "id", "amount", "destination");
    ReadsId(raw, "id", id);
    ReadsAmount(raw, "amount", n);
    ReadsAddress(raw, "destination", d);
    hide Handle, Decode, FieldNames, Decimal.Print, Decimal.Parse, RequireId, RequireAddr, RequireAmount, RequireBool,
         WeightOf;
    Handles(c, Decode(raw).value);
  }

  /** A commitment only tells its voter. */
  lemma CommittedTuple(c: Core, raw: Raw, id: int, voter: Address)
    requires Tuple(raw, "committed", [Num(id), Txt(voter)])
    ensures Does(c, raw, c, voter)
  {
    ReadTwo(raw, "proposal_id", "voter");
    ReadsId(raw, "proposal_id", id);
    hide Handle, Decode, FieldNames, Decimal.Print, Decimal.Parse, RequireId, RequireAddr, RequireAmount, RequireBool,
         WeightOf;
    Handles(c, Decode(raw).value);
  }

  /** A document is recorded once per event id, under the kind it names. */
  lemma DocumentTuple(c: Core, raw: Raw, kind: ProposalKind, id: int, caller: Address)
    requires Tuple(raw, "doc_attn", [Txt(if kind == LoanKind then "Loan" else "Treasury"), Num(id), Txt(caller)])
             && caller != ""
    ensures var c' := if raw.id in c.documents then c
                      else c.(documents := c.documents[raw.id := Document(id, kind, caller, raw.ledger)]);
            Does(c, raw, c', "")
  {
    ReadThree(raw, "kind", "proposal_id", "caller");
    ReadsId(raw, "proposal_id", id);
    ReadsAddress(raw, "caller", caller);
    Readings.KindNamesAreRead();
    hide NormalizeProposalKind, Handle, Decode, FieldNames, Decimal.Print, Decimal.Parse, RequireId, RequireAddr,
         RequireAmount, RequireBool, WeightOf;
    Handles(c, Decode(raw).value);
  }

  // Who is told

  /** A told address has, after the event, a notification of its own: the one it already had for this event, or a
      new unread one with the event's ledger; nothing else in the notifications changes. */
  lemma ToldIsNotified(t: Tables, ev: Event, c': Core, told: Address)
    requires Handle(t.core, ev) == Ok(Effect(c', told))
    ensures var r := Apply(t, ev);
            && r.Ok? && r.value.core == c'
            && (told != "" ==> (ev.id, told) in r.value.notifications)
            && (forall k :: k in r.value.notifications <==> k in t.notifications || (told != "" && k == (ev.id, told)))
            && (forall k :: k in t.notifications ==> r.value.notifications[k] == t.notifications[k])
            && (told != "" && (ev.id, told) !in t.notifications ==>
                  r.value.notifications[(ev.id, told)] == Notification(ev.ledger, false))
  {
    hide Handle;
  }
}
