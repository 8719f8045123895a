/**
 Compounding with monthly contributions. The twelfth roots of the source are parameters: step is the
 monthly growth 1 + r with step^12 = 1 + annual rate, and deflator the monthly inflation factor.
 */
module Savings {
  import opened Common
  import opened Arith

  datatype PlanError = NegativeAmount | NoMonths | InflationTooLow | UnknownCompounding | NotReal

  datatype TimelineEntry = TimelineEntry(month: nat, nominal: real, realValue: real)

  datatype CompoundResult = CompoundResult(
    finalNominal: real, finalReal: real, totalContributions: real, nominalProfit: real,
    timeline: seq<TimelineEntry>)

  datatype Compounding = Monthly | Annual

  function Pow(x: real, n: nat): real {
    if n == 0 then 1.0 else x * Pow(x, n - 1)
  }

  /** The balance after n months: contributions arrive first, then interest is credited. */
  function Balance(mode: Compounding, principal: real, contribution: real, step: real, annual: real, n: nat): real {
    if n == 0 then principal
    else
      var paidIn := Balance(mode, principal, contribution, step, annual, n - 1) + contribution;
      if mode == Monthly then paidIn * step
      else if n % 12 == 0 then paidIn * (1.0 + annual)
      else paidIn
  }

  lemma {:induction false} PowPositive(x: real, n: nat)
    requires x > 0.0
    ensures Pow(x, n) > 0.0
  {
    if n > 0 { PowPositive(x, n - 1); MulPos(x, Pow(x, n - 1)); }
  }

  /** The timeline entry of month m: the balance, and the balance in today's money. */
  function EntryAt(mode: Compounding, principal: real, contribution: real, step: real, annual: real,
                   deflator: real, m: nat): TimelineEntry
    requires deflator > 0.0
  {
    PowPositive(deflator, m);
    var balance := Balance(mode, principal, contribution, step, annual, m);
    TimelineEntry(m, balance, balance / Pow(deflator, m))
  }

  lemma BalanceStep(mode: Compounding, principal: real, contribution: real, step: real, annual: real, n: nat)
    ensures Balance(mode, principal, contribution, step, annual, n + 1)
      == var paidIn := Balance(mode, principal, contribution, step, annual, n) + contribution;
         if mode == Monthly then paidIn * step
         else if (n + 1) % 12 == 0 then paidIn * (1.0 + annual)
         else paidIn
  {}

  lemma FirstEntry(mode: Compounding, principal: real, contribution: real, step: real, annual: real, deflator: real)
    requires deflator > 0.0
    ensures EntryAt(mode, principal, contribution, step, annual, deflator, 0) == TimelineEntry(0, principal, principal)
    ensures Balance(mode, principal, contribution, step, annual, 0) == principal && Pow(deflator, 0) == 1.0
  {}

  /**
   What a refused plan is told: the first of its faults, in this order. The last one is not an argument check:
   the twelfth root of a negative growth factor is complex, and the monthly balance cannot be reported.
   */
  function FirstFault(principal: real, contribution: real, months: int, compounding: string,
                      annualInflation: real): PlanError {
    if principal < 0.0 || contribution < 0.0 then NegativeAmount
    else if months <= 0 then NoMonths
    else if annualInflation <= -1.0 then InflationTooLow
    else if compounding !in ["monthly", "annual"] then UnknownCompounding
    else NotReal
  }

  /** A fault that is there, when none of the earlier ones is. */
  ghost predicate FaultTold(principal: real, contribution: real, annualRate: real, months: int, compounding: string,
                            annualInflation: real, error: PlanError) {
    var amounts, lasting, deflatable := principal >= 0.0 && contribution >= 0.0, months >= 1, annualInflation > -1.0;
    match error
    case NegativeAmount => !amounts
    case NoMonths => amounts && !lasting
    case InflationTooLow => amounts && lasting && !deflatable
    case UnknownCompounding => amounts && lasting && deflatable && compounding != "monthly" && compounding != "annual"
    case NotReal => amounts && lasting && deflatable && compounding == "monthly" && annualRate < -1.0
  }

  method CompoundWithContributions(
      principal: real, contribution: real, annualRate: real, months: int, compounding: string,
      annualInflation: real, step: real, deflator: real)
    returns (r: Result<CompoundResult, PlanError>)
    requires annualRate >= -1.0 ==> step >= 0.0 && Pow(step, 12) == 1.0 + annualRate
    requires annualInflation > -1.0 ==> deflator > 0.0 && Pow(deflator, 12) == 1.0 + annualInflation
    ensures r.Ok? <==>
      && principal >= 0.0 && contribution >= 0.0 && months > 0 && annualInflation > -1.0
      && (compounding == "annual" || (compounding == "monthly" && annualRate >= -1.0))
    ensures r.Ok? ==>
      var mode := if compounding == "monthly" then Monthly else Annual;
      && |r.value.timeline| == months + 1
      && (forall m :: 0 <= m <= months ==>
            r.value.timeline[m] == EntryAt(mode, principal, contribution, step, annualRate, deflator, m))
      && r.value.finalNominal == r.value.timeline[months].nominal
      && r.value.finalReal == r.value.timeline[months].realValue
      && r.value.totalContributions == principal + contribution * months as real
      && r.value.nominalProfit == r.value.finalNominal - r.value.totalContributions
    ensures r.Err? ==> r.error == FirstFault(principal, contribution, months, compounding, annualInflation)
    ensures r.Err? ==>
      FaultTold(principal, contribution, annualRate, months, compounding, annualInflation, r.error)
  {
    hide Pow; hide Balance; hide EntryAt;
    if principal < 0.0 || contribution < 0.0 { return Err(NegativeAmount); }
    if months <= 0 { return Err(NoMonths); }
    if annualInflation <= -1.0 { return Err(InflationTooLow); }
    if compounding !in ["monthly", "annual"] { return Err(UnknownCompounding); }
    if compounding == "monthly" && annualRate < -1.0 { return Err(NotReal); }
    ghost var mode := if compounding == "monthly" then Monthly else Annual;
    FirstEntry(mode, principal, contribution, step, annualRate, deflator);
    var balance, factor := principal, 1.0;
    var timeline := [TimelineEntry(0, balance, balance)];
    for month := 1 to months + 1
      invariant |timeline| == month
      invariant balance == Balance(mode, principal, contribution, step, annualRate, month - 1)
      invariant factor == Pow(deflator, month - 1) && balance == timeline[month - 1].nominal
      invariant forall m :: 0 <= m < month ==>
        timeline[m] == EntryAt(mode, principal, contribution, step, annualRate, deflator, m)
    {
      BalanceStep(mode, principal, contribution, step, annualRate, month - 1);
      balance := balance + contribution;
      if compounding == "monthly" {
        balance := balance * step;
      } else if month % 12 == 0 {
        balance := balance * (1.0 + annualRate);
      }
      PowPositive(deflator, month);
      PowStep(deflator, month - 1);
      factor := deflator * factor;
      EntryIs(mode, principal, contribution, step, annualRate, deflator, month, balance, factor);
      timeline := timeline + [TimelineEntry(month, balance, balance / factor)];
    }
    var contributions := principal + contribution * months as real;
    r := Ok(CompoundResult(balance, timeline[months].realValue, contributions, balance - contributions, timeline));
  }

  lemma EntryIs(mode: Compounding, principal: real, contribution: real, step: real, annual: real,
                deflator: real, m: nat, balance: real, factor: real)
    requires deflator > 0.0 && balance == Balance(mode, principal, contribution, step, annual, m)
    requires factor == Pow(deflator, m) && factor > 0.0
    ensures EntryAt(mode, principal, contribution, step, annual, deflator, m)
      == TimelineEntry(m, balance, balance / factor)
  {}

  lemma PowZero(x: real)
    ensures Pow(x, 0) == 1.0
  {}

  lemma PowStep(x: real, n: nat)
    ensures Pow(x, n + 1) == x * Pow(x, n)
  {}

  // ----- monthly mode in closed form

  /** The monthly balance is an annuity-due: what the principal and each contribution grow to. */
  lemma {:induction false} AnnuityDue(principal: real, contribution: real, step: real, annual: real, n: nat)
    ensures (step - 1.0) * Balance(Monthly, principal, contribution, step, annual, n)
      == (step - 1.0) * (principal * Pow(step, n)) + contribution * step * (Pow(step, n) - 1.0)
  {
    if n > 0 {
      AnnuityDue(principal, contribution, step, annual, n - 1);
      AnnuityStep(principal, contribution, step, Pow(step, n - 1),
                  Balance(Monthly, principal, contribution, step, annual, n - 1));
    }
  }

  lemma AnnuityStep(principal: real, c: real, step: real, p: real, b: real)
    requires (step - 1.0) * b == (step - 1.0) * (principal * p) + c * step * (p - 1.0)
    ensures (step - 1.0) * ((b + c) * step)
      == (step - 1.0) * (principal * (step * p)) + c * step * (step * p - 1.0)
  {
    calc {
      (step - 1.0) * ((b + c) * step);
    ==
      ((step - 1.0) * b + (step - 1.0) * c) * step;
    ==
      ((step - 1.0) * (principal * p) + c * step * (p - 1.0) + (step - 1.0) * c) * step;
    ==
      (step - 1.0) * (principal * (step * p)) + c * step * (step * p - 1.0);
    }
  }

  /** With no interest the balance is what was paid in. */
  lemma {:induction false} AnnuityWithoutInterest(principal: real, contribution: real, annual: real, n: nat)
    ensures Balance(Monthly, principal, contribution, 1.0, annual, n) == principal + contribution * n as real
  {
    if n > 0 { AnnuityWithoutInterest(principal, contribution, annual, n - 1); }
  }

  // ----- the two modes compared at year ends

  /** x + x^2 + ... + x^m: what m monthly contributions of one unit grow to. */
  function PowSum(x: real, m: nat): real {
    if m == 0 then 0.0 else PowSum(x, m - 1) + Pow(x, m)
  }

  lemma {:induction false} PowSumShift(x: real, m: nat)
    ensures (PowSum(x, m) + 1.0) * x == PowSum(x, m + 1)
  {
    if m == 0 {
      PowStep(x, 0);
      assert PowSum(x, 1) == PowSum(x, 0) + Pow(x, 1);
      return;
    }
    PowSumStep(x, m - 1);
    PowSumStep(x, m);
    hide Pow; hide PowSum;
    PowSumShift(x, m - 1);
    PowStep(x, m);
    ShiftedSum(x, PowSum(x, m - 1), Pow(x, m));
  }

  lemma PowSumStep(x: real, m: nat)
    ensures PowSum(x, m + 1) == PowSum(x, m) + Pow(x, m + 1)
  {}

  lemma ShiftedSum(x: real, s: real, p: real)
    ensures (s + p + 1.0) * x == (s + 1.0) * x + x * p
  {}

  lemma {:induction false} MonthlyWithinYear(principal: real, c: real, step: real, annual: real, start: nat, m: nat)
    ensures Balance(Monthly, principal, c, step, annual, start + m)
      == Scale(Pow(step, m), Balance(Monthly, principal, c, step, annual, start)) + Scale(c, PowSum(step, m))
  {
    var b := Balance(Monthly, principal, c, step, annual, start);
    hide Pow; hide PowSum; hide Balance; hide Scale;
    if m == 0 {
      MonthlyStart(b, c, step);
    } else {
      MonthlyWithinYear(principal, c, step, annual, start, m - 1);
      PowSumShift(step, m - 1);
      PowStep(step, m - 1);
      BalanceStep(Monthly, principal, c, step, annual, start + (m - 1));
      assert start + (m - 1) + 1 == start + m;
      MonthlyStep(b, c, step, Pow(step, m - 1), PowSum(step, m - 1), Pow(step, m), PowSum(step, m),
                  Balance(Monthly, principal, c, step, annual, start + (m - 1)));
    }
  }

  lemma MonthlyStart(b: real, c: real, step: real)
    ensures b == Scale(Pow(step, 0), b) + Scale(c, PowSum(step, 0))
  {}

  lemma MonthlyStep(b: real, c: real, step: real, p: real, s: real, p': real, s': real, before: real)
    requires before == Scale(p, b) + Scale(c, s) && p' == step * p && s' == (s + 1.0) * step
    ensures (before + c) * step == Scale(p', b) + Scale(c, s')
  {
    assert (p * b) * step == (step * p) * b;
    assert (c * s + c) * step == c * ((s + 1.0) * step);
  }

  lemma InsideYear(year: nat, m: nat)
    requires 0 < m < 12
    ensures (12 * year + m) % 12 != 0
  {}

  /** What a balance becomes when m contributions are paid in and nothing is credited. */
  ghost predicate PaidIn(before: real, c: real, m: nat, after: real) { after == before + c * m as real }

  lemma PaidInOnce(before: real, c: real, m: nat, after: real)
    requires PaidIn(before, c, m, after)
    ensures PaidIn(before, c, m + 1, after + c)
  {
    assert c * (m + 1) as real == c * m as real + c;
  }

  lemma NothingPaidIn(before: real, c: real)
    ensures PaidIn(before, c, 0, before)
  {}

  lemma {:induction false} PaidWithinYear(principal: real, c: real, step: real, annual: real, year: nat, m: nat)
    requires m < 12
    ensures PaidIn(Balance(Annual, principal, c, step, annual, 12 * year), c, m,
                   Balance(Annual, principal, c, step, annual, 12 * year + m))
  {
    hide Balance; hide PaidIn;
    if m == 0 {
      NothingPaidIn(Balance(Annual, principal, c, step, annual, 12 * year), c);
    } else {
      PaidWithinYear(principal, c, step, annual, year, m - 1);
      InsideYear(year, m);
      BalanceStep(Annual, principal, c, step, annual, 12 * year + (m - 1));
      PaidInOnce(Balance(Annual, principal, c, step, annual, 12 * year), c, m - 1,
                 Balance(Annual, principal, c, step, annual, 12 * year + (m - 1)));
    }
  }

  /** Between year ends the annual balance only grows by what is paid in. */
  lemma AnnualWithinYear(principal: real, c: real, step: real, annual: real, year: nat, m: nat)
    requires m < 12
    ensures Balance(Annual, principal, c, step, annual, 12 * year + m)
      == Balance(Annual, principal, c, step, annual, 12 * year) + c * m as real
  {
    hide Balance;
    PaidWithinYear(principal, c, step, annual, year, m);
  }

  lemma AnnualYear(principal: real, c: real, step: real, annual: real, year: nat)
    requires Pow(step, 12) == 1.0 + annual
    ensures Balance(Annual, principal, c, step, annual, 12 * year + 12)
      == Scale(Pow(step, 12), Balance(Annual, principal, c, step, annual, 12 * year) + c * 12.0)
  {
    hide Pow; hide Balance;
    AnnualWithinYear(principal, c, step, annual, year, 11);
    assert (12 * year + 12) % 12 == 0;
    BalanceStep(Annual, principal, c, step, annual, 12 * year + 11);
  }

  lemma PowStepBounds(x: real, n: nat)
    requires x >= 0.0 && Pow(x, n) >= 0.0
    ensures x >= 1.0 ==> Pow(x, n + 1) >= Pow(x, n)
    ensures x <= 1.0 ==> 0.0 <= Pow(x, n + 1) <= Pow(x, n)
  {
    var p := Pow(x, n);
    MulNonneg(x, p);
    if x >= 1.0 { MulNonneg(x - 1.0, p); }
    if x <= 1.0 { MulNonneg(1.0 - x, p); }
  }

  lemma {:induction false} PowAbove(x: real, k: nat, n: nat)
    requires x >= 1.0 && k <= n
    ensures 1.0 <= Pow(x, k) <= Pow(x, n)
  {
    if n > 0 {
      hide Pow;
      if k == n { PowAbove(x, k - 1, n - 1); } else { PowAbove(x, k, n - 1); }
      PowStepBounds(x, n - 1);
    }
  }

  lemma {:induction false} PowBelow(x: real, k: nat, n: nat)
    requires 0.0 <= x <= 1.0 && k <= n
    ensures 0.0 <= Pow(x, n) <= Pow(x, k) <= 1.0
  {
    if n > 0 {
      hide Pow;
      if k == n { PowBelow(x, k - 1, n - 1); } else { PowBelow(x, k, n - 1); }
      PowStepBounds(x, n - 1);
    }
  }

  lemma PowOrdered(x: real, k: nat, n: nat)
    requires x >= 0.0 && k <= n
    ensures x >= 1.0 ==> 1.0 <= Pow(x, k) <= Pow(x, n)
    ensures x <= 1.0 ==> 0.0 <= Pow(x, n) <= Pow(x, k) <= 1.0
  {
    hide Pow;
    if x >= 1.0 { PowAbove(x, k, n); }
    if x <= 1.0 { PowBelow(x, k, n); }
  }

  /** The yearly factor is above, at or below one exactly as the monthly one is. */
  lemma StepSign(step: real, annual: real)
    requires step >= 0.0 && Pow(step, 12) == 1.0 + annual
    ensures annual >= 0.0 ==> step >= 1.0
    ensures annual < 0.0 ==> step < 1.0
  {
    PowOrdered(step, 1, 12);
    assert Pow(step, 1) == step by { PowStep(step, 0); PowZero(step); }
  }

  lemma {:induction false} PowSumBound(x: real, m: nat, n: nat)
    requires x >= 0.0 && m <= n
    ensures x >= 1.0 ==> PowSum(x, m) <= m as real * Pow(x, n)
    ensures x <= 1.0 ==> PowSum(x, m) >= m as real * Pow(x, n)
  {
    if m > 0 {
      PowSumBound(x, m - 1, n);
      PowOrdered(x, m, n);
      hide Pow;
      assert m as real * Pow(x, n) == (m - 1) as real * Pow(x, n) + Pow(x, n);
    }
  }

  /** One year: with interest positive, crediting at the end of the year pays the contributions more. */
  lemma YearOrdered(m: real, a: real, c: real, p: real, s: real)
    requires p >= 0.0 && c >= 0.0
    ensures m <= a && s <= 12.0 * p ==> Scale(p, m) + Scale(c, s) <= Scale(p, a + c * 12.0)
    ensures m >= a && s >= 12.0 * p ==> Scale(p, m) + Scale(c, s) >= Scale(p, a + c * 12.0)
    ensures c == 0.0 && m == a ==> Scale(p, m) + Scale(c, s) == Scale(p, a + c * 12.0)
  {
    TwelveTimes(p, c);
    ScaleAdd(p, a, c * 12.0);
    hide Scale;
    if m <= a && s <= 12.0 * p { ScaleMono(p, m, a); ScaleMono(c, s, 12.0 * p); }
    if m >= a && s >= 12.0 * p { ScaleMono(p, a, m); ScaleMono(c, 12.0 * p, s); }
    if c == 0.0 { ScaleByZero(s, 12.0 * p); }
  }

  lemma TwelveTimes(p: real, c: real)
    ensures Scale(p, c * 12.0) == Scale(c, 12.0 * p)
  {}

  lemma ScaleByZero(x: real, y: real)
    ensures Scale(0.0, x) == 0.0 == Scale(0.0, y)
  {}

  /** At every year end: annual crediting is ahead for a >= 0, behind for a < 0, equal without contributions. */
  lemma {:induction false} ModesOrderedAtYearEnds(principal: real, c: real, step: real, annual: real, year: nat)
    requires c >= 0.0 && step >= 0.0 && Pow(step, 12) == 1.0 + annual
    ensures var monthly := Balance(Monthly, principal, c, step, annual, 12 * year);
      var yearly := Balance(Annual, principal, c, step, annual, 12 * year);
      && (annual >= 0.0 ==> monthly <= yearly)
      && (annual < 0.0 ==> yearly <= monthly)
      && (c == 0.0 ==> monthly == yearly)
  {
    if year == 0 { return; }
    hide Pow; hide PowSum; hide Balance; hide Scale;
    var y := year - 1;
    ModesOrderedAtYearEnds(principal, c, step, annual, y);
    MonthlyWithinYear(principal, c, step, annual, 12 * y, 12);
    AnnualYear(principal, c, step, annual, y);
    StepSign(step, annual);
    YearSumBound(step, annual);
    assert 12 * year == 12 * y + 12;
    var m := Balance(Monthly, principal, c, step, annual, 12 * y);
    var a := Balance(Annual, principal, c, step, annual, 12 * y);
    YearOrdered(m, a, c, Pow(step, 12), PowSum(step, 12));
  }

  lemma YearSumBound(step: real, annual: real)
    requires step >= 0.0 && Pow(step, 12) == 1.0 + annual
    ensures Pow(step, 12) >= 0.0
    ensures annual >= 0.0 ==> PowSum(step, 12) <= 12.0 * Pow(step, 12)
    ensures annual < 0.0 ==> PowSum(step, 12) >= 12.0 * Pow(step, 12)
  {
    hide Pow; hide PowSum;
    StepSign(step, annual);
    PowSumBound(step, 12, 12);
    PowOrdered(step, 12, 12);
  }

  // ----- the annual mode in closed form

  /** What the balance b at a year end satisfies when p is the growth of all years so far. */
  ghost predicate YearEnd(principal: real, c: real, annual: real, p: real, b: real) {
    annual * b == annual * (principal * p) + 12.0 * c * (1.0 + annual) * (p - 1.0)
  }

  /** One year: twelve contributions, then the yearly interest. */
  ghost predicate YearLater(c: real, annual: real, b: real, next: real) { next == (b + c * 12.0) * (1.0 + annual) }

  lemma YearlyStep(principal: real, c: real, annual: real, p: real, b: real, p': real, next: real)
    requires YearEnd(principal, c, annual, p, b) && YearLater(c, annual, b, next) && p' == (1.0 + annual) * p
    ensures YearEnd(principal, c, annual, p', next)
  {
    var g := 1.0 + annual;
    calc {
      annual * next;
    ==
      (annual * b + annual * (c * 12.0)) * g;
    ==
      (annual * (principal * p) + 12.0 * c * g * (p - 1.0) + 12.0 * c * annual) * g;
    == { assert annual == g - 1.0; }
      (annual * (principal * p) + 12.0 * c * g * p - 12.0 * c * g + 12.0 * c * (g - 1.0)) * g;
    ==
      annual * (principal * (g * p)) + 12.0 * c * g * (g * p - 1.0);
    }
  }

  lemma YearCredited(principal: real, c: real, step: real, annual: real, year: nat)
    ensures YearLater(c, annual, Balance(Annual, principal, c, step, annual, 12 * year),
                      Balance(Annual, principal, c, step, annual, 12 * year + 12))
  {
    hide Balance;
    AnnualWithinYear(principal, c, step, annual, year, 11);
    assert (12 * year + 12) % 12 == 0;
    BalanceStep(Annual, principal, c, step, annual, 12 * year + 11);
  }

  lemma FirstYearEnd(principal: real, c: real, step: real, annual: real)
    ensures YearEnd(principal, c, annual, Pow(1.0 + annual, 0), Balance(Annual, principal, c, step, annual, 0))
  {}

  lemma NextYearEnd(principal: real, c: real, step: real, annual: real, year: nat)
    requires YearEnd(principal, c, annual, Pow(1.0 + annual, year),
                    Balance(Annual, principal, c, step, annual, 12 * year))
    ensures YearEnd(principal, c, annual, Pow(1.0 + annual, year + 1),
                    Balance(Annual, principal, c, step, annual, 12 * year + 12))
  {
    PowStep(1.0 + annual, year);
    hide Pow; hide Balance; hide YearEnd; hide YearLater;
    YearCredited(principal, c, step, annual, year);
    YearlyStep(principal, c, annual, Pow(1.0 + annual, year), Balance(Annual, principal, c, step, annual, 12 * year),
               Pow(1.0 + annual, year + 1), Balance(Annual, principal, c, step, annual, 12 * year + 12));
  }

  lemma {:induction false} YearEnds(principal: real, c: real, step: real, annual: real, year: nat)
    ensures YearEnd(principal, c, annual, Pow(1.0 + annual, year),
                    Balance(Annual, principal, c, step, annual, 12 * year))
  {
    hide Pow; hide Balance; hide YearEnd;
    if year == 0 {
      FirstYearEnd(principal, c, step, annual);
    } else {
      YearEnds(principal, c, step, annual, year - 1);
      NextYearEnd(principal, c, step, annual, year - 1);
      assert 12 * (year - 1) + 12 == 12 * year;
    }
  }

  /** At the end of every year the annual balance is an annuity-due of twelve contributions a year. */
  lemma AnnualAnnuityDue(principal: real, c: real, step: real, annual: real, year: nat)
    ensures annual * Balance(Annual, principal, c, step, annual, 12 * year)
      == annual * (principal * Pow(1.0 + annual, year)) + 12.0 * c * (1.0 + annual) * (Pow(1.0 + annual, year) - 1.0)
  {
    hide Pow; hide Balance;
    YearEnds(principal, c, step, annual, year);
  }

  lemma {:induction false} AnnualWithoutInterest(principal: real, c: real, step: real, n: nat)
    ensures Balance(Annual, principal, c, step, 0.0, n) == principal + c * n as real
  {
    if n > 0 {
      AnnualWithoutInterest(principal, c, step, n - 1);
      assert c * n as real == c * (n - 1) as real + c;
    }
  }

  // ----- today's money

  lemma {:induction false} PowAdd(x: real, m: nat, n: nat)
    ensures Pow(x, m + n) == Pow(x, m) * Pow(x, n)
  {
    if m > 0 {
      PowAdd(x, m - 1, n);
      PowStep(x, m - 1 + n);
      PowStep(x, m - 1);
      hide Pow;
      MulAssoc(x, Pow(x, m - 1), Pow(x, n));
    }
  }

  lemma {:induction false} PowOfYears(deflator: real, inflation: real, year: nat)
    requires Pow(deflator, 12) == 1.0 + inflation
    ensures Pow(deflator, 12 * year) == Pow(1.0 + inflation, year)
  {
    if year == 0 {
      PowZero(deflator);
      PowZero(1.0 + inflation);
      return;
    }
    hide Pow;
    PowOfYears(deflator, inflation, year - 1);
    PowAdd(deflator, 12, 12 * (year - 1));
    PowStep(1.0 + inflation, year - 1);
    assert 12 + 12 * (year - 1) == 12 * year;
  }

  /** Today's money: inflated for its months the deflated balance is the balance, by whole years at year ends. */
  lemma RealValueInflates(e: TimelineEntry, mode: Compounding, principal: real, c: real, step: real, annual: real,
                          deflator: real, inflation: real, year: nat)
    requires deflator > 0.0 && Pow(deflator, 12) == 1.0 + inflation
    requires e == EntryAt(mode, principal, c, step, annual, deflator, e.month)
    ensures e.realValue * Pow(deflator, e.month) == e.nominal
    ensures e.month == 12 * year ==> e.realValue * Pow(1.0 + inflation, year) == e.nominal
  {
    hide Pow; hide Balance;
    PowPositive(deflator, e.month);
    DivMul(e.nominal, Pow(deflator, e.month));
    PowOfYears(deflator, inflation, year);
  }
}
