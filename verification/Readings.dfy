/**
 * What the fields of an event must hold to be read, and as what: exactly the values the validators of
 * src/indexer/handlers.ts let through, told on the decoded fields themselves.
 */
module Readings {
  import opened Outcomes
  import opened Events
  import opened Handlers
  import Decimal

  /** The field is there and holds this value. */
  predicate Holds(ev: Event, field: string, v: Json) {
    field in ev.fields && ev.fields[field] == v
  }

  /** The field holds a whole amount: a digit string of any length, or a number too small for an exponent. */
  predicate HoldsAmount(ev: Event, field: string, n: nat) {
    field in ev.fields &&
    match ev.fields[field]
    case Str(s) => Decimal.IsDigits(s) && Decimal.Parse(s) == n
    case Int(i) => i == n && i < 1_000_000_000_000_000_000_000
    case _ => false
  }

  predicate HoldsId(ev: Event, field: string, n: int) {
    field in ev.fields &&
    match ev.fields[field]
    case Str(s) => Decimal.IsDigits(s) && Decimal.Parse(s) == n
    case Int(i) => i == n
    case _ => false
  }

  /** An address is read exactly from a non-empty string, and as that string. */
  lemma AddressIsRead(ev: Event, field: string, a: Address)
    ensures RequireAddr(ev, field) == Ok(a) <==> Holds(ev, field, Str(a)) && a != ""
  {
  }

  lemma IdIsRead(ev: Event, field: string, n: int)
    ensures RequireId(ev, field) == Ok(n) <==> HoldsId(ev, field, n)
  {
  }

  /** A flag is read exactly from a boolean, and as that boolean. */
  lemma FlagIsRead(ev: Event, field: string, b: bool)
    ensures RequireBool(ev, field) == Ok(b) <==> Holds(ev, field, Bool(b))
  {
  }

  /** An amount is read exactly from digits or a small number, and means that number. */
  lemma AmountIsRead(ev: Event, field: string, n: nat)
    ensures (RequireAmount(ev, field).Ok? && Decimal.Parse(RequireAmount(ev, field).value) == n)
            <==> HoldsAmount(ev, field, n)
    ensures forall s :: Holds(ev, field, Str(s)) && Decimal.IsDigits(s) ==> RequireAmount(ev, field) == Ok(s)
  {
    if field in ev.fields && ev.fields[field].Int? && 0 <= ev.fields[field].n < EXPONENT_FROM {
      Decimal.PrintParses(ev.fields[field].n);
    }
  }

  /** A ballot without a weight counts one; otherwise it counts the amount it publishes. */
  lemma WeightIsRead(ev: Event, n: nat)
    ensures WeightOf(ev) == Ok(n) <==>
            if "weight" !in ev.fields || ev.fields["weight"] == Null then n == 1 else HoldsAmount(ev, "weight", n)
  {
    if "weight" in ev.fields && ev.fields["weight"].Int? && 0 <= ev.fields["weight"].n < EXPONENT_FROM {
      Decimal.PrintParses(ev.fields["weight"].n);
    }
  }

  /** A name of a proposal kind, in any case of letters. */
  lemma KindNamesAreRead()
    ensures NormalizeProposalKind(Str("Loan")) == Some(LoanKind) == NormalizeProposalKind(Str("loan"))
    ensures NormalizeProposalKind(Str("Treasury")) == Some(TreasuryKind) == NormalizeProposalKind(Str("treasury"))
    ensures NormalizeProposalKind(Str("")) == None
  {
    assert Lower("Loan") == "loan" && Lower("loan") == "loan";
    assert Lower("Treasury") == "treasury" && Lower("treasury") == "treasury";
    assert |Lower("")| == 0;
  }

  /** The three encodings of a proposal kind are read alike. */
  lemma KindEncodingsAgree(tag: string, more: seq<Json>, values: Json)
    ensures NormalizeProposalKind(Arr([Str(tag)] + more)) == NormalizeProposalKind(Str(tag))
    ensures NormalizeProposalKind(Obj([("tag", Str(tag)), ("values", values)])) == NormalizeProposalKind(Str(tag))
    ensures NormalizeProposalKind(Arr([])) == None && NormalizeProposalKind(Null) == None
  {
    assert ([Str(tag)] + more)[0] == Str(tag);
    var entries := [("tag", Str(tag)), ("values", values)];
    assert entries[..1] == [("tag", Str(tag))];
    assert Lookup(entries, "tag") == Lookup(entries[..1], "tag");
  }

  /** What `String(v ?? '')` gives for a field that is missing, null or text. */
  lemma TextIsRead(ev: Event, field: string, s: string)
    ensures Holds(ev, field, Str(s)) ==> Text(Field(ev, field)) == s
    ensures field !in ev.fields || ev.fields[field] == Null ==> Text(Field(ev, field)) == ""
  {
  }

  lemma MemberAndLoanKinds(symbol: string)
    ensures KindOf(symbol) == KJoined <==> symbol == "joined"
    ensures KindOf(symbol) == KExited <==> symbol == "exited"
    ensures KindOf(symbol) == KClaimed <==> symbol == "claimed"
    ensures KindOf(symbol) == KStaked <==> symbol == "staked"
    ensures KindOf(symbol) == KUnstaked <==> symbol == "unstaked"
    ensures KindOf(symbol) == KNameReg <==> symbol == "name_reg"
    ensures KindOf(symbol) == KLoanReq <==> symbol == "loan_req"
    ensures KindOf(symbol) == KLoanEdit <==> symbol == "loan_edit"
    ensures KindOf(symbol) == KLoanVote <==> symbol == "loan_vote"
    ensures KindOf(symbol) == KLoanWait <==> symbol == "loan_wait"
    ensures KindOf(symbol) == KLoanRej <==> symbol == "loan_rej"
    ensures KindOf(symbol) == KLoanExp <==> symbol == "loan_exp"
  {
  }

  lemma LaterLoanKinds(symbol: string)
    ensures KindOf(symbol) == KLoanAppr <==> symbol == "loan_appr"
    ensures KindOf(symbol) == KLoanRpy <==> symbol == "loan_rpy"
    ensures KindOf(symbol) == KLoanDflt <==> symbol == "loan_dflt"
    ensures KindOf(symbol) == KInterest <==> symbol == "interest"
  {
  }

  lemma TreasuryKinds(symbol: string)
    ensures KindOf(symbol) == KTreProp <==> symbol == "tre_prop"
    ensures KindOf(symbol) == KTreVote <==> symbol == "tre_vote"
    ensures KindOf(symbol) == KRevealed <==> symbol == "revealed"
  {
  }

  lemma LaterKinds(symbol: string)
    ensures KindOf(symbol) == KTreWait <==> symbol == "tre_wait"
    ensures KindOf(symbol) == KTreRej <==> symbol == "tre_rej"
    ensures KindOf(symbol) == KTreExec <==> symbol == "tre_exec"
    ensures KindOf(symbol) == KCommitted <==> symbol == "committed"
    ensures KindOf(symbol) == KDocAttn <==> symbol == "doc_attn"
  {
  }

  /** Each kind of event has exactly one symbol. */
  lemma KindsAreSymbols(symbol: string)
    ensures KindOf(symbol) == KJoined <==> symbol == "joined"
    ensures KindOf(symbol) == KExited <==> symbol == "exited"
    ensures KindOf(symbol) == KClaimed <==> symbol == "claimed"
    ensures KindOf(symbol) == KStaked <==> symbol == "staked"
    ensures KindOf(symbol) == KUnstaked <==> symbol == "unstaked"
    ensures KindOf(symbol) == KNameReg <==> symbol == "name_reg"
    ensures KindOf(symbol) == KLoanReq <==> symbol == "loan_req"
    ensures KindOf(symbol) == KLoanEdit <==> symbol == "loan_edit"
    ensures KindOf(symbol) == KLoanVote <==> symbol == "loan_vote"
    ensures KindOf(symbol) == KLoanWait <==> symbol == "loan_wait"
    ensures KindOf(symbol) == KLoanRej <==> symbol == "loan_rej"
    ensures KindOf(symbol) == KLoanExp <==> symbol == "loan_exp"
    ensures KindOf(symbol) == KLoanAppr <==> symbol == "loan_appr"
    ensures KindOf(symbol) == KLoanRpy <==> symbol == "loan_rpy"
    ensures KindOf(symbol) == KLoanDflt <==> symbol == "loan_dflt"
    ensures KindOf(symbol) == KInterest <==> symbol == "interest"
    ensures KindOf(symbol) == KTreProp <==> symbol == "tre_prop"
    ensures KindOf(symbol) == KTreVote <==> symbol == "tre_vote"
    ensures KindOf(symbol) == KRevealed <==> symbol == "revealed"
    ensures KindOf(symbol) == KTreWait <==> symbol == "tre_wait"
    ensures KindOf(symbol) == KTreRej <==> symbol == "tre_rej"
    ensures KindOf(symbol) == KTreExec <==> symbol == "tre_exec"
    ensures KindOf(symbol) == KCommitted <==> symbol == "committed"
    ensures KindOf(symbol) == KDocAttn <==> symbol == "doc_attn"
  {
    hide KindOf;
    MemberAndLoanKinds(symbol);
    LaterLoanKinds(symbol);
    TreasuryKinds(symbol);
    LaterKinds(symbol);
  }
}
