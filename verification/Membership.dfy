/**
 * The member table against the log: what the record of a member holds is told by the join, exit, claim and
 * stake events of that address alone, whatever else happens. A join overwrites, a claim accumulates
 * (src/indexer/handlers.ts:164-171).
 */
module Membership {
  import opened Outcomes
  import opened Events
  import opened Decimal
  import opened EventLog
  import opened Handlers
  import opened Frames

  datatype MemberEvent =
    | Joins(who: Address, fee: nat)
    | Leaves(who: Address)
    | Claims(who: Address, amount: nat)
    | Stakes(who: Address, amount: nat)
    | Nothing

  /** An address and an amount, when both fields are well formed. */
  function AddressAndAmount(ev: Event, amountField: string): Option<(Address, nat)> {
    match (RequireAddr(ev, "member"), RequireAmount(ev, amountField))
    case (Ok(a), Ok(n)) => Some((a, Parse(n)))
    case _ => None
  }

  /** What a well-formed event says about a member. */
  function Says(ev: Event): MemberEvent {
    match KindOf(ev.symbol)
    case KJoined => (match AddressAndAmount(ev, "fee") case Some((a, n)) => Joins(a, n) case None => Nothing)
    case KExited => (match AddressAndAmount(ev, "share") case Some((a, _)) => Leaves(a) case None => Nothing)
    case KClaimed => (match AddressAndAmount(ev, "pending") case Some((a, n)) => Claims(a, n) case None => Nothing)
    case KStaked => (match AddressAndAmount(ev, "new_stake") case Some((a, n)) => Stakes(a, n) case None => Nothing)
    case KUnstaked => (match AddressAndAmount(ev, "new_stake") case Some((a, n)) => Stakes(a, n) case None => Nothing)
    case _ => Nothing
  }

  /** What the log tells of one member: claims over all memberships, the stake, whether it has left, and the
      fee of the current membership. */
  datatype Card = Card(claimed: nat, stake: nat, left: bool, fee: nat)

  function After(card: Option<Card>, e: MemberEvent, a: Address): Option<Card> {
    if e.Nothing? || e.who != a then card
    else
      match card
      case None => if e.Joins? then Some(Card(0, 0, false, e.fee)) else None
      case Some(k) => (
        match e
        case Joins(_, fee) => Some(k.(left := false, fee := fee))
        case Leaves(_) => Some(k.(left := true, stake := 0))
        case Claims(_, n) => Some(k.(claimed := k.claimed + n))
        case Stakes(_, n) => Some(k.(stake := n))
        case Nothing => card)
  }

  function CardOf(evs: seq<Event>, a: Address): Option<Card> {
    if evs == [] then None else After(CardOf(evs[..|evs| - 1], a), Says(evs[|evs| - 1]), a)
  }

  /** A row shows a card; penalties may have lowered the contribution, but never raised it. */
  predicate Shows(members: map<Address, Member>, a: Address, card: Option<Card>) {
    match card
    case None => a !in members
    case Some(k) =>
      && a in members
      && members[a].pendingClaimed == k.claimed && members[a].stake == k.stake
      && members[a].exited == k.left && members[a].contribution <= k.fee
  }

  ghost predicate Follows(m: map<Address, Member>, m': map<Address, Member>, e: MemberEvent) {
    forall a, card :: Shows(m, a, card) ==> Shows(m', a, After(card, e, a))
  }

  /** A member event writes one row, as the card says, and only a join adds one. */
  predicate Writes(m: map<Address, Member>, m': map<Address, Member>, e: MemberEvent) {
    && !e.Nothing?
    && if e.who !in m && !e.Joins? then m' == m
       else
         && e.who in m' && m' == m[e.who := m'[e.who]]
         && var row := m'[e.who];
            match e
            case Joins(_, fee) =>
              && row.contribution == fee && !row.exited
              && (if e.who in m then row.pendingClaimed == m[e.who].pendingClaimed && row.stake == m[e.who].stake
                  else row.pendingClaimed == 0 && row.stake == 0)
            case Leaves(_) =>
              row == m[e.who].(exited := true, stake := 0, exitShare := row.exitShare,
                               exitedLedger := row.exitedLedger, hasActiveLoan := row.hasActiveLoan)
            case Claims(_, n) => row == m[e.who].(pendingClaimed := m[e.who].pendingClaimed + n)
            case Stakes(_, n) => row == m[e.who].(stake := n)
            case Nothing => false
  }

  lemma WritesFollows(m: map<Address, Member>, m': map<Address, Member>, e: MemberEvent)
    requires Writes(m, m', e)
    ensures Follows(m, m', e)
  {
  }

  /** Another event at most touches one row, leaving claims, stake and membership and not raising the
      contribution. */
  predicate Touches(m: map<Address, Member>, m': map<Address, Member>, who: Address) {
    m' == m
    || (&& who in m && who in m' && m' == m[who := m'[who]]
        && m'[who].pendingClaimed == m[who].pendingClaimed && m'[who].stake == m[who].stake
        && m'[who].exited == m[who].exited && m'[who].contribution <= m[who].contribution)
  }

  lemma TouchesFollows(m: map<Address, Member>, m': map<Address, Member>, who: Address)
    requires Touches(m, m', who)
    ensures Follows(m, m', Nothing)
  {
  }

  lemma JoinFollows(c: Core, ev: Event)
    requires KindOf(ev.symbol) == KJoined
    ensures Follows(c.members, Next(c, MemberJoined(c, ev)).members, Says(ev))
  {
    hide KindOf, Parse, Follows;
    TouchesFollows(c.members, c.members, "");
    if Says(ev) != Nothing {
      WritesFollows(c.members, Next(c, MemberJoined(c, ev)).members, Says(ev));
    }
  }

  lemma ExitFollows(c: Core, ev: Event)
    requires KindOf(ev.symbol) == KExited
    ensures Follows(c.members, Next(c, MemberExited(c, ev)).members, Says(ev))
  {
    hide KindOf, Parse, Follows;
    TouchesFollows(c.members, c.members, "");
    if Says(ev) != Nothing {
      WritesFollows(c.members, Next(c, MemberExited(c, ev)).members, Says(ev));
    }
  }

  lemma ClaimFollows(c: Core, ev: Event)
    requires KindOf(ev.symbol) == KClaimed
    ensures Follows(c.members, Next(c, MemberClaimed(c, ev)).members, Says(ev))
  {
    hide KindOf, Parse, Follows;
    TouchesFollows(c.members, c.members, "");
    if Says(ev) != Nothing {
      WritesFollows(c.members, Next(c, MemberClaimed(c, ev)).members, Says(ev));
    }
  }

  lemma StakeFollows(c: Core, ev: Event)
    requires KindOf(ev.symbol) == KStaked || KindOf(ev.symbol) == KUnstaked
    ensures Follows(c.members, Next(c, StakeSet(c, ev)).members, Says(ev))
  {
    hide KindOf, Parse, Follows;
    TouchesFollows(c.members, c.members, "");
    if Says(ev) != Nothing {
      WritesFollows(c.members, Next(c, StakeSet(c, ev)).members, Says(ev));
    }
  }

  lemma NameTouches(c: Core, ev: Event)
    requires NameReg(c, ev).Ok?
    ensures RequireAddr(ev, "owner").Ok?
    ensures Touches(c.members, NameReg(c, ev).value.core.members, RequireAddr(ev, "owner").value)
  {
  }

  lemma ActiveLoanTouches(c: Core, borrower: Address, active: bool)
    ensures Touches(c.members, WithActiveLoan(c, borrower, active).members, borrower)
  {
  }

  lemma PenaltyTouches(c: Core, borrower: Address, penalty: nat)
    ensures Touches(c.members, Penalize(c, borrower, penalty).members, borrower)
  {
  }

  lemma ApprovalTouches(c: Core, ev: Event)
    requires LoanAppr(c, ev).Ok?
    ensures RequireAddr(ev, "borrower").Ok?
    ensures Touches(c.members, LoanAppr(c, ev).value.core.members, RequireAddr(ev, "borrower").value)
  {
    hide OpenLoan, Touches, WithActiveLoan, Parse;
    var id, borrower, amount := RequireId(ev, "id").value, RequireAddr(ev, "borrower").value,
      RequireAmount(ev, "amount").value;
    var c1 := if id !in c.loanProposals then c
              else c.(loanProposals := c.loanProposals[id := c.loanProposals[id].(status := Approved)]);
    ActiveLoanTouches(OpenLoan(c1, ev, id, borrower, Parse(amount)), borrower, true);
  }

  lemma RepaymentTouches(c: Core, ev: Event)
    requires LoanRpy(c, ev).Ok?
    ensures RequireAddr(ev, "borrower").Ok?
    ensures Touches(c.members, LoanRpy(c, ev).value.core.members, RequireAddr(ev, "borrower").value)
  {
    hide PayLoan, WithActiveLoan;
    ActiveLoanTouches(PayLoan(c, ev, RequireId(ev, "loan_id").value, RequireAmount(ev, "outstanding").value),
                      RequireAddr(ev, "borrower").value, false);
  }

  lemma DefaultTouches(c: Core, ev: Event)
    requires LoanDflt(c, ev).Ok?
    ensures RequireAddr(ev, "borrower").Ok?
    ensures Touches(c.members, LoanDflt(c, ev).value.core.members, RequireAddr(ev, "borrower").value)
  {
    hide DefaultLoan, Penalize, Parse;
    var id := RequireId(ev, "loan_id").value;
    if id in c.loans {
      PenaltyTouches(DefaultLoan(c, ev, id), RequireAddr(ev, "borrower").value,
                     Parse(RequireAmount(ev, "penalty").value));
    }
  }

  predicate MemberKind(k: Kind) {
    k.KJoined? || k.KExited? || k.KClaimed? || k.KStaked? || k.KUnstaked?
  }

  /** Events that are not about a member leave the table alone, or touch the borrower or owner they name. */
  lemma OthersTouch(c: Core, ev: Event) returns (who: Address)
    requires !MemberKind(KindOf(ev.symbol))
    ensures Touches(c.members, Next(c, Handle(c, ev)).members, who)
  {
    hide KindOf, Handle, RequireAddr, MemberJoined, MemberExited, MemberClaimed, StakeSet, NameReg, LoanAppr, LoanRpy,
         LoanDflt;
    who := "";
    assert Touches(c.members, c.members, who);
    hide Touches;
    MemberHandlers(c, ev);
    if Handle(c, ev).Ok? {
      match KindOf(ev.symbol) {
        case KNameReg =>
          NameTouches(c, ev);
          who := RequireAddr(ev, "owner").value;
        case KLoanAppr =>
          ApprovalTouches(c, ev);
          who := RequireAddr(ev, "borrower").value;
        case KLoanRpy =>
          RepaymentTouches(c, ev);
          who := RequireAddr(ev, "borrower").value;
        case KLoanDflt =>
          DefaultTouches(c, ev);
          who := RequireAddr(ev, "borrower").value;
        case _ =>
      }
    }
  }

  lemma QuietSays(ev: Event)
    requires !MemberKind(KindOf(ev.symbol))
    ensures Says(ev) == Nothing
  {
    hide KindOf;
  }

  lemma StepFollows(c: Core, ev: Event)
    ensures Follows(c.members, Next(c, Handle(c, ev)).members, Says(ev))
  {
    if !MemberKind(KindOf(ev.symbol)) {
      hide *;
      QuietSays(ev);
      var who := OthersTouch(c, ev);
      TouchesFollows(c.members, Next(c, Handle(c, ev)).members, who);
    } else {
      hide KindOf, Handle, Next, Says, Follows, MemberJoined, MemberExited, MemberClaimed, StakeSet, NameReg, LoanAppr,
           LoanRpy, LoanDflt;
      MemberHandlers(c, ev);
      match KindOf(ev.symbol) {
        case KJoined => JoinFollows(c, ev);
        case KExited => ExitFollows(c, ev);
        case KClaimed => ClaimFollows(c, ev);
        case KStaked => StakeFollows(c, ev);
        case KUnstaked => StakeFollows(c, ev);
      }
    }
  }

  /** After any history, whatever else happened and whichever events threw, the member table shows exactly the
      cards that the log tells: an address has a row if and only if it has ever joined, claims add up across
      memberships, the stake is the last one published unless the member left since, the row is marked exited
      exactly while the last of its joins and exits is an exit, and the contribution never exceeds the fee of
      the current membership. */
  lemma {:induction false} MembersAgreeWithLog(evs: seq<Event>, a: Address)
    ensures Shows(FoldSkipping(Apply, EMPTY, evs).core.members, a, CardOf(evs, a))
  {
    if evs != [] {
      hide Attempt, Next, Handle, Says, After;
      var n := |evs| - 1;
      MembersAgreeWithLog(evs[..n], a);
      hide Shows;
      AttemptIsNext(FoldSkipping(Apply, EMPTY, evs[..n]), evs[n]);
      StepFollows(FoldSkipping(Apply, EMPTY, evs[..n]).core, evs[n]);
    }
  }
}
