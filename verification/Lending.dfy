/** Figures derived at read time: a loan's repayment progress (src/api/loan-derived.ts) and a member's share
    of the active contributions or stake (src/api/routes/index.ts). */
module Lending {
  import opened Outcomes
  import opened Events
  import opened Handlers
  import opened Frames
  import opened MapSums
  import Decimal

  // Repayment progress

  const MAX_SAFE: int := 9_007_199_254_740_991

  /** `parseIntegerAmount`: a safe integer number, or an optionally negative digit string. */
  function ParseIntegerAmount(v: Json): Option<int> {
    match v
    case Int(n) => if -MAX_SAFE <= n <= MAX_SAFE then Some(n) else None
    case Str(s) =>
      if Decimal.IsDigits(s) then Some(Decimal.Parse(s))
      else if s != "" && s[0] == '-' && Decimal.IsDigits(s[1..]) then
        var n: int := Decimal.Parse(s[1..]);
        Some(-n)
      else None
    case _ => None
  }

  /** BigInt division truncates toward zero. */
  function Truncate(a: int, b: int): int
    requires b > 0
  {
    if a >= 0 then a / b else -((-a) / b)
  }

  function ProgressBps(repaid: int, total: int): int {
    if total <= 0 then 0
    else
      var bps := Truncate(repaid * 10000, total);
      if bps < 0 then 0 else if bps > 10000 then 10000 else bps
  }

  datatype LoanFigures = LoanFigures(interestCharge: Option<int>, repaidAmount: Option<int>, progressBps: Option<int>)

  /** `withLoanDerived`: a malformed column costs that row its derived figures. */
  function WithLoanDerived(total: Json, amount: Json, outstanding: Json): LoanFigures {
    match (ParseIntegerAmount(total), ParseIntegerAmount(amount), ParseIntegerAmount(outstanding))
    case (Some(t), Some(a), Some(o)) => LoanFigures(Some(t - a), Some(t - o), Some(ProgressBps(t - o, t)))
    case _ => LoanFigures(None, None, None)
  }

  /** A column as the driver returns it. */
  function Column(n: nat): Json {
    Str(Decimal.Print(n))
  }

  function Progress(l: Loan): int {
    ProgressBps(l.totalRepayment - l.outstanding, l.totalRepayment)
  }

  lemma DivReaches(k: nat, a: nat, d: nat)
    requires d > 0
    ensures a / d >= k <==> a >= k * d
  {
    var q := a / d;
    FloorRounds(a, d);
    if q >= k {
      MulMonotone(k, q, d);
    } else {
      MulMonotone(q + 1, k, d);
      assert (q + 1) * d == q * d + d;
    }
  }

  lemma FloorRounds(x: nat, d: nat)
    requires d > 0
    ensures (x / d) * d <= x <= (x / d) * d + (d - 1)
  {
  }

  /** What reported progress is: nothing without a positive total or before anything is repaid, 10000 from the total on,
      and in between the repaid part in ten-thousandths, rounded down. */
  lemma ProgressIsThePart(repaid: int, total: int)
    ensures total <= 0 || repaid <= 0 ==> ProgressBps(repaid, total) == 0
    ensures 0 < total <= repaid ==> ProgressBps(repaid, total) == 10000
    ensures 0 <= repaid < total ==>
              var bps := ProgressBps(repaid, total); bps * total <= repaid * 10000 < (bps + 1) * total
  {
    if total > 0 {
      if repaid <= 0 {
        assert Truncate(repaid * 10000, total) <= 0 by {
          DivReaches(0, -repaid * 10000, total);
        }
      } else {
        DivReaches(10000, repaid * 10000, total);
        FloorRounds(repaid * 10000, total);
        var q := repaid * 10000 / total;
        assert (q + 1) * total == q * total + total;
        if repaid >= total {
          MulMonotone(total, repaid, 10000);
        }
      }
    }
  }

  lemma {:induction false} MulMonotone(x: nat, y: nat, d: nat)
    requires x <= y
    ensures x * d <= y * d
    decreases y - x
  {
    if x < y {
      MulMonotone(x, y - 1, d);
      assert (y - 1) * d + d == y * d;
    }
  }

  /** Which columns count as amounts, in numbers, and what they are. */
  lemma AmountColumnIsRead(v: Json, n: nat)
    ensures ParseIntegerAmount(v).Some? <==>
            || (v.Int? && -9007199254740991 <= v.n <= 9007199254740991)
            || (v.Str? && v.s != "" && (Decimal.IsDigits(v.s) || (v.s[0] == '-' && Decimal.IsDigits(v.s[1..]))))
    ensures ParseIntegerAmount(Str(Decimal.Print(n))) == Some(n)
    ensures ParseIntegerAmount(Str("-" + Decimal.Print(n))) == Some(0 - n)
    ensures v.Int? && ParseIntegerAmount(v).Some? ==> ParseIntegerAmount(v).value == v.n
  {
    Decimal.PrintParses(n);
    var s := "-" + Decimal.Print(n);
    assert s[1..] == Decimal.Print(n) && s[0] == '-';
  }

  /** The derived figures of a stored row: the charge is the total less the principal, what is repaid is the total less
      the balance, however large, and progress is the repaid part in ten-thousandths, rounded down. */
  lemma FiguresOfRow(l: Loan)
    ensures var f := WithLoanDerived(Column(l.totalRepayment), Column(l.amount), Column(l.outstanding));
            && f.interestCharge == Some(l.totalRepayment - l.amount)
            && f.repaidAmount == Some(l.totalRepayment - l.outstanding)
            && f.progressBps == Some(Progress(l))
            && (l.outstanding >= l.totalRepayment ==> Progress(l) == 0)
            && (l.outstanding < l.totalRepayment ==>
                  && Progress(l) * l.totalRepayment <= (l.totalRepayment - l.outstanding) * 10000
                  && (l.totalRepayment - l.outstanding) * 10000 < (Progress(l) + 1) * l.totalRepayment)
  {
    hide ProgressBps;
    Decimal.PrintParses(l.totalRepayment);
    Decimal.PrintParses(l.amount);
    Decimal.PrintParses(l.outstanding);
    ProgressIsThePart(l.totalRepayment - l.outstanding, l.totalRepayment);
    if l.outstanding == 0 && l.totalRepayment > 0 {
      assert 10000 * l.totalRepayment < (10000 + 1) * l.totalRepayment;
    }
  }

  /** A row has all of its figures or none, and none exactly if one of its three columns is no amount. */
  lemma MalformedColumnCostsTheFigures(total: Json, amount: Json, outstanding: Json)
    ensures WithLoanDerived(total, amount, outstanding) == LoanFigures(None, None, None) <==>
            || ParseIntegerAmount(total).None? || ParseIntegerAmount(amount).None?
              || ParseIntegerAmount(outstanding).None?
  {
  }

  /** Within a loan whose balance does not exceed its total: progress is between 0 and 10000, it is 0 at the
      start, 10000 exactly when nothing is outstanding, and a lower balance never means less progress. */
  lemma ProgressIsSane(total: nat, outstanding: nat, lower: nat)
    requires total > 0 && lower <= outstanding <= total
    ensures 0 <= ProgressBps(total - outstanding, total) <= ProgressBps(total - lower, total) <= 10000
    ensures ProgressBps(0, total) == 0
    ensures ProgressBps(total - outstanding, total) == 10000 <==> outstanding == 0
  {
    var x, y := (total - outstanding) * 10000, (total - lower) * 10000;
    FloorRounds(x, total);
    DivReaches(x / total, y, total);
    DivReaches(10000, x, total);
    DivReaches(10001, y, total);
  }

  // A loan over its life

  /** A loan keeps its principal and total, and a new one starts with everything outstanding. */
  predicate RowKept(loans: map<int, Loan>, loans': map<int, Loan>, id: int) {
    && (id in loans ==>
          && id in loans' && loans'[id].totalRepayment == loans[id].totalRepayment
          && loans'[id].amount == loans[id].amount)
    && (id in loans' && id !in loans ==> loans'[id].outstanding == loans'[id].totalRepayment)
  }

  lemma OpenKeepsRow(c: Core, ev: Event, loan: int, borrower: Address, amount: nat, id: int)
    ensures RowKept(c.loans, OpenLoan(c, ev, loan, borrower, amount).loans, id)
  {
    hide AddToDay;
  }

  lemma ApprovalKeepsRow(c: Core, ev: Event, id: int)
    requires LoanAppr(c, ev).Ok?
    ensures RowKept(c.loans, LoanAppr(c, ev).value.core.loans, id)
  {
    hide OpenLoan, RowKept, Decimal.Parse;
    var loan, borrower, amount := RequireId(ev, "id").value, RequireAddr(ev, "borrower").value,
      RequireAmount(ev, "amount").value;
    var c1 := if loan !in c.loanProposals then c
              else c.(loanProposals := c.loanProposals[loan := c.loanProposals[loan].(status := Approved)]);
    OpenKeepsRow(c1, ev, loan, borrower, Decimal.Parse(amount), id);
  }

  lemma PayKeepsRow(c: Core, ev: Event, paid: int, outstanding: Decimal.Digits, id: int)
    ensures RowKept(c.loans, PayLoan(c, ev, paid, outstanding).loans, id)
  {
    hide AddToDay, Decimal.Parse, Decimal.IsDigits;
    if paid != id {
      assert PayLoan(c, ev, paid, outstanding).loans - {paid} == c.loans - {paid};
    }
  }

  lemma RepaymentKeepsRow(c: Core, ev: Event, id: int)
    requires LoanRpy(c, ev).Ok?
    ensures RowKept(c.loans, LoanRpy(c, ev).value.core.loans, id)
  {
    hide PayLoan, RowKept;
    PayKeepsRow(c, ev, RequireId(ev, "loan_id").value, RequireAmount(ev, "outstanding").value, id);
  }

  lemma DefaultKeepsRow(c: Core, ev: Event, id: int)
    requires LoanDflt(c, ev).Ok?
    ensures RowKept(c.loans, LoanDflt(c, ev).value.core.loans, id)
  {
    hide AddToDay;
  }

  lemma NothingKeepsRow(loans: map<int, Loan>, id: int)
    ensures RowKept(loans, loans, id)
  {
  }

  /** No event changes a loan's principal or total, and a new loan starts with its whole total outstanding. */
  lemma EventKeepsRow(c: Core, ev: Event, id: int)
    ensures RowKept(c.loans, Next(c, Handle(c, ev)).loans, id)
  {
    hide KindOf, Handle, LoanAppr, LoanRpy, LoanDflt, RowKept;
    LoanHandlers(c, ev);
    NothingKeepsRow(c.loans, id);
    if Handle(c, ev).Ok? {
      match KindOf(ev.symbol) {
        case KLoanAppr => ApprovalKeepsRow(c, ev, id);
        case KLoanRpy => RepaymentKeepsRow(c, ev, id);
        case KLoanDflt => DefaultKeepsRow(c, ev, id);
        case _ =>
      }
    }
  }

  /** The loans table after the first `k` events of a history. */
  function LoansAfter(evs: seq<Event>, k: nat): map<int, Loan>
    requires k <= |evs|
  {
    CoreAfter(evs, k).loans
  }

  lemma StepKeepsRow(evs: seq<Event>, k: nat, id: int)
    requires k < |evs|
    ensures RowKept(LoansAfter(evs, k), LoansAfter(evs, k + 1), id)
  {
    hide Handle, Next, CoreAfter, RowKept;
    CoreSteps(evs, k);
    EventKeepsRow(CoreAfter(evs, k), evs[k], id);
  }

  /** No event of the history raises the balance of the loan. */
  ghost predicate BalanceNeverRises(evs: seq<Event>, id: int) {
    forall k :: 0 <= k < |evs| && id in LoansAfter(evs, k) && id in LoansAfter(evs, k + 1)
                ==> LoansAfter(evs, k + 1)[id].outstanding <= LoansAfter(evs, k)[id].outstanding
  }

  /** One event: the total is fixed, a new balance is the whole total, and an old one does not rise. */
  lemma BalanceStep(evs: seq<Event>, k: nat, id: int)
    requires BalanceNeverRises(evs, id) && k < |evs|
    ensures id in LoansAfter(evs, k + 1) && id !in LoansAfter(evs, k) ==>
              LoansAfter(evs, k + 1)[id].outstanding == LoansAfter(evs, k + 1)[id].totalRepayment
    ensures id in LoansAfter(evs, k) ==>
              && id in LoansAfter(evs, k + 1)
              && LoansAfter(evs, k + 1)[id].totalRepayment == LoansAfter(evs, k)[id].totalRepayment
              && LoansAfter(evs, k + 1)[id].outstanding <= LoansAfter(evs, k)[id].outstanding
  {
    hide LoansAfter;
    StepKeepsRow(evs, k, id);
  }

  /** Nothing is outstanding before the first event. */
  lemma NoLoansAtFirst(evs: seq<Event>)
    ensures LoansAfter(evs, 0) == map[]
  {
    assert evs[..0] == [];
  }

  lemma {:induction false} BalanceWithinTotal(evs: seq<Event>, k: nat, id: int)
    requires BalanceNeverRises(evs, id) && k <= |evs| && id in LoansAfter(evs, k)
    ensures LoansAfter(evs, k)[id].outstanding <= LoansAfter(evs, k)[id].totalRepayment
  {
    hide LoansAfter, BalanceNeverRises;
    NoLoansAtFirst(evs);
    if k > 0 {
      BalanceStep(evs, k - 1, id);
      if id in LoansAfter(evs, k - 1) {
        BalanceWithinTotal(evs, k - 1, id);
      }
    }
  }

  lemma {:induction false} BalanceFalls(evs: seq<Event>, i: nat, j: nat, id: int)
    requires BalanceNeverRises(evs, id) && i <= j <= |evs| && id in LoansAfter(evs, i)
    ensures id in LoansAfter(evs, j)
    ensures LoansAfter(evs, j)[id].totalRepayment == LoansAfter(evs, i)[id].totalRepayment
    ensures LoansAfter(evs, j)[id].outstanding <= LoansAfter(evs, i)[id].outstanding
  {
    hide LoansAfter, BalanceNeverRises;
    if i < j {
      BalanceFalls(evs, i, j - 1, id);
      BalanceStep(evs, j - 1, id);
    }
  }

  /** Over any history in which a loan's balance never rises, and whatever else happens: the loan stays,
      its reported progress starts at 0, never decreases, stays within [0, 10000] and is 10000 exactly when
      nothing is outstanding. */
  lemma ProgressOverALife(evs: seq<Event>, i: nat, j: nat, id: int)
    requires BalanceNeverRises(evs, id) && i <= j <= |evs|
    requires id in LoansAfter(evs, i) && LoansAfter(evs, i)[id].totalRepayment > 0
    ensures id in LoansAfter(evs, j)
    ensures 0 <= Progress(LoansAfter(evs, i)[id]) <= Progress(LoansAfter(evs, j)[id]) <= 10000
    ensures Progress(LoansAfter(evs, j)[id]) == 10000 <==> LoansAfter(evs, j)[id].outstanding == 0
    ensures i > 0 && id !in LoansAfter(evs, i - 1) ==> Progress(LoansAfter(evs, i)[id]) == 0
  {
    hide LoansAfter, ProgressBps;
    BalanceWithinTotal(evs, i, id);
    BalanceFalls(evs, i, j, id);
    var l, l' := LoansAfter(evs, i)[id], LoansAfter(evs, j)[id];
    ProgressIsSane(l.totalRepayment, l.outstanding, l'.outstanding);
    ProgressIsSane(l.totalRepayment, l'.outstanding, l'.outstanding);
    if i > 0 {
      StepKeepsRow(evs, i - 1, id);
    }
  }

  // Shares

  /** The share of one member when the active members together have `total`, in basis points. */
  function ShareBps(value: nat, exited: bool, total: nat): nat {
    if total > 0 && !exited then value * 10000 / total else 0
  }

  function ContributionShare(total: nat): Member -> int {
    (m: Member) => ShareBps(m.contribution, m.exited, total)
  }

  function StakeShare(total: nat): Member -> int {
    (m: Member) => ShareBps(m.stake, m.exited, total)
  }

  function ActiveContribution(m: Member): int { if m.exited then 0 else m.contribution }
  function ActiveStake(m: Member): int { if m.exited then 0 else m.stake }
  function ActiveOne(m: Member): int { if m.exited then 0 else 1 }

  /** Scaled back up by the total, shares are the value up to less than one unit for each of `count` members. */
  predicate InBounds(share: int, value: int, count: int, total: int) {
    share * total <= value * 10000 <= share * total + count * (total - 1)
  }

  ghost predicate Rounds(share: Member -> int, value: Member -> int, total: int) {
    forall m: Member :: InBounds(share(m), value(m), ActiveOne(m), total)
  }

  lemma SharesRound(total: nat)
    requires total > 0
    ensures Rounds(ContributionShare(total), ActiveContribution, total)
    ensures Rounds(StakeShare(total), ActiveStake, total)
  {
    forall m: Member
      ensures InBounds(ContributionShare(total)(m), ActiveContribution(m), ActiveOne(m), total)
      ensures InBounds(StakeShare(total)(m), ActiveStake(m), ActiveOne(m), total)
    {
      FloorRounds(m.contribution * 10000, total);
      FloorRounds(m.stake * 10000, total);
    }
  }

  /** The share of one member: its part of the active total in ten-thousandths, rounded down, and nothing for a member
      that has exited; while nothing is held at all, every share is nothing. */
  lemma ShareOfMember(m: Member, total: nat)
    ensures total == 0 || m.exited ==> ContributionShare(total)(m) == 0 && StakeShare(total)(m) == 0
    ensures total > 0 && !m.exited ==>
              var c, s := ContributionShare(total)(m), StakeShare(total)(m);
              && c * total <= m.contribution * 10000 < (c + 1) * total
              && s * total <= m.stake * 10000 < (s + 1) * total
  {
    if total > 0 && !m.exited {
      FloorRounds(m.contribution * 10000, total);
      FloorRounds(m.stake * 10000, total);
      Distribute(m.contribution * 10000 / total, 1, total);
      Distribute(m.stake * 10000 / total, 1, total);
    }
  }

  lemma AddBounds(s: int, v: int, one: int, ss: int, vs: int, ones: int, total: int)
    requires InBounds(s, v, one, total) && InBounds(ss, vs, ones, total)
    ensures InBounds(s + ss, v + vs, one + ones, total)
  {
    Distribute(s, ss, total);
    Distribute(one, ones, total - 1);
  }

  lemma {:induction false} SharesBound(members: map<Address, Member>, share: Member -> int, value: Member -> int,
                                       total: int)
    requires Rounds(share, value, total)
    ensures InBounds(SumBy(members, share), SumBy(members, value), SumBy(members, ActiveOne), total)
    decreases |members|
  {
    if members != map[] {
      hide SumBy, ActiveOne, InBounds;
      var k :| k in members;
      var rest, m := members - {k}, members[k];
      assert rest.Keys == members.Keys - {k};
      assert |rest.Keys| < |members.Keys|;
      SharesBound(rest, share, value, total);
      SumRemove(members, share, k);
      SumRemove(members, value, k);
      SumRemove(members, ActiveOne, k);
      AddBounds(share(m), value(m), ActiveOne(m), SumBy(rest, share), SumBy(rest, value), SumBy(rest, ActiveOne),
                total);
    }
  }

  lemma Distribute(a: int, b: int, d: int)
    ensures (a + b) * d == a * d + b * d
  {
  }

  lemma Cancel(a: int, b: int, d: int)
    requires d > 0
    ensures a * d <= b * d ==> a <= b
    ensures a * d < b * d ==> a < b
  {
    Distribute(a - b, b, d);
    if a > b {
      ProductGrows(a - b, d);
    }
  }

  lemma ProductGrows(x: int, d: int)
    requires x > 0 && d > 0
    ensures x * d >= d
  {
    Distribute(x - 1, 1, d);
  }

  lemma BoundsFromScaled(s: int, n: int, total: int)
    requires total > 0 && n >= 1
    requires InBounds(s, total, n, total)
    ensures 10000 - n < s <= 10000
  {
    Cancel(s, 10000, total);
    Distribute(s, n, total);
    assert n * (total - 1) == n * total - n;
    Cancel(10000, s + n, total);
  }

  /** With at least one active member and a positive total, the truncated shares of all members add up to at
      most 10000 and to more than 10000 less one per active member; exited members have none. */
  lemma SharesAddUp(members: map<Address, Member>)
    requires SumBy(members, ActiveOne) >= 1 && SumBy(members, ActiveContribution) > 0
    ensures var total := SumBy(members, ActiveContribution);
            10000 - SumBy(members, ActiveOne) < SumBy(members, ContributionShare(total)) <= 10000
  {
    hide SumBy, Rounds;
    var total := SumBy(members, ActiveContribution);
    SharesRound(total);
    SharesBound(members, ContributionShare(total), ActiveContribution, total);
    BoundsFromScaled(SumBy(members, ContributionShare(total)), SumBy(members, ActiveOne), total);
  }

  /** The same for stake. */
  lemma StakeSharesAddUp(members: map<Address, Member>)
    requires SumBy(members, ActiveOne) >= 1 && SumBy(members, ActiveStake) > 0
    ensures var total := SumBy(members, ActiveStake);
            10000 - SumBy(members, ActiveOne) < SumBy(members, StakeShare(total)) <= 10000
  {
    hide SumBy, Rounds;
    var total := SumBy(members, ActiveStake);
    SharesRound(total);
    SharesBound(members, StakeShare(total), ActiveStake, total);
    BoundsFromScaled(SumBy(members, StakeShare(total)), SumBy(members, ActiveOne), total);
  }
}
