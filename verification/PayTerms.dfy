/** What the calculated figures are, read off the employee's terms and the attendance. */
module PayTerms {
  import opened Wrappers
  import opened Sums
  import opened PayCalculation

  function AllowanceTotal(t: Terms): Money {
    Total(|t.allowances|, (k: nat) => if k < |t.allowances| then t.allowances[k] else 0.0)
  }

  function RateTotal(policies: seq<TaxPolicy>): real {
    Total(|policies|, (k: nat) => if k < |policies| then policies[k].rate else 0.0)
  }

  /** A monthly tax in force goes by the deduction's name, letters a to z compared without case. */
  predicate CoveredByTax(t: Terms, d: Deduction) {
    exists n | 0 <= n < |t.monthlyTaxes| :: NormalizeName(t.monthlyTaxes[n].name) == NormalizeName(d.name)
  }

  /** The last assigned policy of the deduction's name, or -1. */
  function PolicyFor(policies: seq<TaxPolicy>, name: string): (k: int)
    ensures -1 <= k < |policies|
    ensures k >= 0 ==> NormalizeName(policies[k].name) == NormalizeName(name)
    ensures forall j :: k < j < |policies| ==> NormalizeName(policies[j].name) != NormalizeName(name)
  {
    if policies == [] then -1
    else if NormalizeName(policies[|policies| - 1].name) == NormalizeName(name) then |policies| - 1
    else PolicyFor(policies[..|policies| - 1], name)
  }

  /** What one of the employee's deductions takes off a full period's base. */
  function OwnShare(t: Terms, full: Money, d: Deduction): Money {
    var k := PolicyFor(t.assignedTaxes, d.name);
    if CoveredByTax(t, d) then 0.0
    else if k >= 0 then full * (t.assignedTaxes[k].rate / 100.0)
    else match d.mode
         case Percentage => full * (d.percentage / 100.0)
         case Fixed => d.amount
  }

  function SharesTotal(t: Terms, full: Money, ds: seq<Deduction>): Money {
    Total(|ds|, (k: nat) => if k < |ds| then OwnShare(t, full, ds[k]) else 0.0)
  }

  function OwnTotal(t: Terms, full: Money): Money {
    SharesTotal(t, full, t.deductions)
  }

  // ---------- the sums of the calculation ----------

  lemma {:induction false} SumAppended(s: seq<Money>, x: Money)
    ensures SumMoney(s + [x]) == SumMoney(s) + x
  {
    if s == [] {
      assert s + [x] == [x];
    } else {
      assert (s + [x])[1..] == s[1..] + [x];
      SumAppended(s[1..], x);
    }
  }

  lemma {:induction false} SumIsTotal(s: seq<Money>)
    ensures SumMoney(s) == Total(|s|, (k: nat) => if k < |s| then s[k] else 0.0)
  {
    if s != [] {
      var front, last := s[..|s| - 1], s[|s| - 1];
      SumIsTotal(front);
      assert s == front + [last];
      SumAppended(front, last);
      TotalCongruent(|front|, (k: nat) => if k < |front| then front[k] else 0.0,
                     (k: nat) => if k < |s| then s[k] else 0.0);
    }
  }

  lemma Distribute(salary: real, x: real, y: real)
    ensures salary * ((x + y) / 100.0) == salary * (x / 100.0) + salary * (y / 100.0)
  {
  }

  lemma {:induction false} TaxesAppended(salary: Money, policies: seq<TaxPolicy>, policy: TaxPolicy)
    ensures Taxes(salary, policies + [policy]) == Taxes(salary, policies) + [TaxOf(salary, policy)]
  {
    if policies == [] {
      assert policies + [policy] == [policy] && [policy][1..] == [];
    } else {
      assert (policies + [policy])[1..] == policies[1..] + [policy];
      TaxesAppended(salary, policies[1..], policy);
    }
  }

  lemma RateTotalAppended(policies: seq<TaxPolicy>, policy: TaxPolicy)
    ensures RateTotal(policies + [policy]) == RateTotal(policies) + policy.rate
  {
    var all := policies + [policy];
    TotalCongruent(|policies|, (k: nat) => if k < |policies| then policies[k].rate else 0.0,
                   (k: nat) => if k < |all| then all[k].rate else 0.0);
  }

  /** The full tax is the salary at the sum of all rates. */
  lemma {:induction false} TaxIsSalaryAtAllRates(salary: Money, policies: seq<TaxPolicy>)
    ensures SumMoney(Taxes(salary, policies)) == salary * (RateTotal(policies) / 100.0)
  {
    if policies != [] {
      var front, last := policies[..|policies| - 1], policies[|policies| - 1];
      TaxIsSalaryAtAllRates(salary, front);
      TaxStep(salary, front, last);
      assert policies == front + [last];
    }
  }

  lemma TaxStep(salary: Money, policies: seq<TaxPolicy>, policy: TaxPolicy)
    requires SumMoney(Taxes(salary, policies)) == salary * (RateTotal(policies) / 100.0)
    ensures SumMoney(Taxes(salary, policies + [policy])) == salary * (RateTotal(policies + [policy]) / 100.0)
  {
    TaxesAppended(salary, policies, policy);
    SumAppended(Taxes(salary, policies), TaxOf(salary, policy));
    RateTotalAppended(policies, policy);
    Distribute(salary, RateTotal(policies), policy.rate);
  }

  lemma {:induction false} PolicyIsLast(policies: seq<TaxPolicy>, name: string)
    ensures var k := PolicyFor(policies, name);
            AssignedPolicy(policies, name) == if k >= 0 then Some(policies[k]) else None
  {
    if policies != [] && NormalizeName(policies[|policies| - 1].name) != NormalizeName(name) {
      PolicyIsLast(policies[..|policies| - 1], name);
    }
  }

  lemma {:induction false} OwnAppended(t: Terms, ds: seq<Deduction>, d: Deduction)
    ensures OwnDeductions(t, ds + [d])
            == OwnDeductions(t, ds) + if CoveredByTax(t, d) then [] else [DeductionAmount(t, d)]
  {
    if ds == [] {
      assert ds + [d] == [d] && [d][1..] == [];
      assert OwnDeductions(t, []) == [];
    } else {
      assert (ds + [d])[1..] == ds[1..] + [d];
      OwnAppended(t, ds[1..], d);
    }
  }

  lemma SharesAppended(t: Terms, full: Money, ds: seq<Deduction>, d: Deduction)
    ensures SharesTotal(t, full, ds + [d]) == SharesTotal(t, full, ds) + OwnShare(t, full, d)
  {
    var all := ds + [d];
    TotalCongruent(|ds|, (k: nat) => if k < |ds| then OwnShare(t, full, ds[k]) else 0.0,
                   (k: nat) => if k < |all| then OwnShare(t, full, all[k]) else 0.0);
  }

  /** Each deduction that no monthly tax covers is taken at its assigned rate, its own or its amount. */
  lemma {:induction false} OwnIsTotal(t: Terms, ds: seq<Deduction>)
    ensures SumMoney(OwnDeductions(t, ds)) == SharesTotal(t, FullBase(t), ds)
  {
    if ds != [] {
      var front, last := ds[..|ds| - 1], ds[|ds| - 1];
      OwnIsTotal(t, front);
      OwnAppended(t, front, last);
      SumWithShare(t, OwnDeductions(t, front), last);
      SharesAppended(t, FullBase(t), front, last);
      assert ds == front + [last];
    }
  }

  lemma SumWithShare(t: Terms, amounts: seq<Money>, d: Deduction)
    ensures SumMoney(amounts + if CoveredByTax(t, d) then [] else [DeductionAmount(t, d)])
            == SumMoney(amounts) + OwnShare(t, FullBase(t), d)
  {
    PolicyIsLast(t.assignedTaxes, d.name);
    if CoveredByTax(t, d) {
      assert amounts + [] == amounts;
    } else {
      SumAppended(amounts, DeductionAmount(t, d));
    }
  }

  // ---------- the figures over the terms ----------

  /** The day counts: a work-day override, else 22 for a month, else the contract's days or the period's;
      never under one. */
  function Basis(t: Terms): int {
    var days :=
      match t.workDaysOverride
      case Some(given) => given
      case None =>
        if t.frequency == Monthly then 22
        else match t.contractDays
             case Some(contract) => if contract > 0 then contract else t.periodCalendarDays
             case None => t.periodCalendarDays;
    if days < 1 then 1 else days
  }

  /** A month never pays more days than the basis. */
  function Paid(t: Terms, a: Attendance): int {
    if t.frequency == Monthly && a.presentDays > Basis(t) then Basis(t) else a.presentDays
  }

  /** The part of a full period that is paid. */
  function Ratio(t: Terms, a: Attendance): real {
    if Basis(t) >= 1 then Paid(t, a) as real / Basis(t) as real else 0.0
  }

  /** The base of a full period: the salary, or the daily rate for every day of the basis. */
  function Full(t: Terms): Money {
    if t.frequency == Monthly then t.basicSalary else t.dailyRate * Basis(t) as real
  }

  /** Months always, days and contracts past 21 days. */
  predicate Eligible(t: Terms, a: Attendance) {
    t.frequency == Monthly || a.presentDays > 21
  }

  /** Full amounts prorated to the paid days; a month is also charged its absent days. */
  predicate Deducts(monthly: bool, eligible: bool, tax: Money, own: Money, ratio: real, paid: int, basis: int,
                    rate: Money, f: Figures) {
    && f.tax == (if monthly then tax * ratio else 0.0)
    && f.configured == (if eligible then own * ratio else 0.0)
    && f.absence == (if paid < basis then basis - paid else 0) as real * rate
    && f.deductions == f.tax + f.configured + if monthly then f.absence else 0.0
  }

  /** Tax and the employee's own deductions: by the rates, shares and amounts of the terms, prorated. */
  predicate DeductsByTerms(t: Terms, a: Attendance, f: Figures) {
    Deducts(t.frequency == Monthly, Eligible(t, a),
            t.basicSalary * (RateTotal(t.monthlyTaxes) / 100.0), OwnTotal(t, Full(t)),
            Ratio(t, a), Paid(t, a), Basis(t), DayRate(t), f)
  }

  /** Gross is its parts and net what deductions leave of it. */
  predicate Earns(eligible: bool, base: Money, allowance: Money, overtime: Money, ratio: real, f: Figures) {
    && f.base == base && f.overtime == overtime
    && f.allowance == (if eligible then allowance * ratio else 0.0)
    && f.gross == f.base + f.allowance + f.overtime
    && f.net == (if f.gross > f.deductions then f.gross - f.deductions else 0.0)
  }

  /** The full salary of a month, else the daily rate for the days present, unless up to 21 days an override
      replaces it. */
  function BasePay(t: Terms, a: Attendance): Money {
    if t.frequency == Monthly then t.basicSalary
    else
      match t.baseOverride
      case Some(given) => if a.presentDays > 21 then t.dailyRate * a.presentDays as real else given
      case None => t.dailyRate * a.presentDays as real
  }

  /** Base, allowances and overtime by the terms. */
  predicate EarnsByTerms(t: Terms, a: Attendance, f: Figures) {
    Earns(Eligible(t, a), BasePay(t, a), AllowanceTotal(t),
          if a.overtimeHours > 0.0 then a.overtimeHours * t.overtimeRate else 0.0, Ratio(t, a), f)
  }

  /** The stored daily net rate: a full period's pay after tax and deductions, for each day of the basis. */
  predicate RatesByTerms(t: Terms, a: Attendance, f: Figures) {
    Basis(t) >= 1
    && var tax := if t.frequency == Monthly then t.basicSalary * (RateTotal(t.monthlyTaxes) / 100.0) else 0.0;
       f.dailyNetRate ==
       if Eligible(t, a) then Some((Full(t) - tax - OwnTotal(t, Full(t)) + AllowanceTotal(t)) / Basis(t) as real)
       else None
  }

  lemma DayCountsAgree(t: Terms, a: Attendance)
    ensures Basis(t) == ExpectedWorkDays(t) >= 1 && Paid(t, a) == PaidDays(t, a.presentDays)
    ensures FullBase(t) == Full(t) && Ratio(t, a) == PartsOf(t, a).Ratio()
  {
  }

  lemma SumsAgree(t: Terms)
    ensures SumMoney(Taxes(t.basicSalary, t.monthlyTaxes)) == t.basicSalary * (RateTotal(t.monthlyTaxes) / 100.0)
    ensures SumMoney(t.allowances) == AllowanceTotal(t)
    ensures SumMoney(OwnDeductions(t, t.deductions)) == OwnTotal(t, FullBase(t))
  {
    TaxIsSalaryAtAllRates(t.basicSalary, t.monthlyTaxes);
    SumIsTotal(t.allowances);
    OwnIsTotal(t, t.deductions);
  }

  lemma MonthDeducts(p: Parts)
    requires p.Valid()
    ensures Deducts(true, true, p.tax, SumMoney(p.own), p.Ratio(), p.paid, p.basis, p.dayRate, MonthlyFigures(p))
  {
    MonthlyLines(p);
    MonthlyConfigured(p);
  }

  lemma LongDeducts(p: Parts)
    requires p.Valid()
    ensures Deducts(false, true, p.tax, SumMoney(p.own), p.Ratio(), p.paid, p.basis, p.dayRate, LongFigures(p))
  {
    LongConfigured(p);
  }

  lemma PayDeducts(p: Parts)
    requires p.Valid()
    ensures Deducts(p.frequency == Monthly, p.frequency == Monthly || p.presentDays > 21,
                    p.tax, SumMoney(p.own), p.Ratio(), p.paid, p.basis, p.dayRate, Pay(p))
  {
    MonthDeducts(p);
    LongDeducts(p);
  }

  lemma LongConfigured(p: Parts)
    requires p.Valid()
    ensures LongFigures(p).configured == SumMoney(p.own) * p.Ratio()
  {
    ProratedLinesSumToProratedTotal(p.own, p.Ratio());
  }

  lemma FiguresDeductByTerms(t: Terms, a: Attendance)
    ensures DeductsByTerms(t, a, Calculate(t, a))
  {
    DayCountsAgree(t, a);
    SumsAgree(t);
    PayDeducts(PartsOf(t, a));
  }

  lemma PayEarns(p: Parts)
    requires p.Valid()
    ensures Earns(p.frequency == Monthly || p.presentDays > 21,
                  if p.frequency == Monthly then p.fullBase
                  else if p.presentDays > 21 then p.dayRate * p.presentDays as real
                  else p.shortBase,
                  p.allowance, p.overtime, p.Ratio(), Pay(p))
  {
    if p.frequency == Monthly {
      MonthEarns(p);
    } else if p.presentDays > 21 {
      LongEarns(p);
    }
  }

  lemma MonthEarns(p: Parts)
    requires p.Valid()
    ensures Earns(true, p.fullBase, p.allowance, p.overtime, p.Ratio(), MonthlyFigures(p))
  {
  }

  lemma LongEarns(p: Parts)
    requires p.Valid() && p.frequency != Monthly && p.presentDays > 21
    ensures Earns(true, p.dayRate * p.presentDays as real, p.allowance, p.overtime, p.Ratio(), LongFigures(p))
  {
    LongBaseIsRateTimesDays(p);
  }

  lemma BaseAgrees(t: Terms, a: Attendance)
    ensures var p := PartsOf(t, a);
            BasePay(t, a) == if p.frequency == Monthly then p.fullBase
                             else if p.presentDays > 21 then p.dayRate * p.presentDays as real
                             else p.shortBase
    ensures PartsOf(t, a).overtime == if a.overtimeHours > 0.0 then a.overtimeHours * t.overtimeRate else 0.0
  {
  }

  lemma FiguresEarnByTerms(t: Terms, a: Attendance)
    ensures EarnsByTerms(t, a, Calculate(t, a))
  {
    DayCountsAgree(t, a);
    SumsAgree(t);
    BaseAgrees(t, a);
    PayEarns(PartsOf(t, a));
  }

  lemma PayRates(p: Parts)
    requires p.Valid()
    ensures Pay(p).dailyNetRate ==
            if p.frequency == Monthly then Some((p.fullBase - p.tax - SumMoney(p.own) + p.allowance) / p.basis as real)
            else if p.presentDays > 21 then Some((p.fullBase - SumMoney(p.own) + p.allowance) / p.basis as real)
            else None
  {
  }

  lemma FiguresRateByTerms(t: Terms, a: Attendance)
    ensures RatesByTerms(t, a, Calculate(t, a))
  {
    DayCountsAgree(t, a);
    SumsAgree(t);
    PayRates(PartsOf(t, a));
  }

  /** The rate of an absent day is the stored one; a month without one uses the salary over the basis, to the
      nearest cent. */
  lemma AbsenceRate(t: Terms)
    ensures t.frequency != Monthly || t.dailyRate != 0.0 ==> DayRate(t) == t.dailyRate
    ensures t.frequency == Monthly && t.dailyRate == 0.0 && t.basicSalary > 0.0 ==>
              var exact := t.basicSalary / ExpectedWorkDays(t) as real;
              -0.005 <= DayRate(t) - exact <= 0.005 && (DayRate(t) * 100.0).Floor as real == DayRate(t) * 100.0
    ensures t.frequency == Monthly && t.dailyRate == 0.0 && t.basicSalary <= 0.0 ==> DayRate(t) == 0.0
  {
    if t.frequency == Monthly && t.dailyRate == 0.0 && t.basicSalary > 0.0 {
      NearestCent(t.basicSalary / ExpectedWorkDays(t) as real);
    }
  }

  lemma NearestCent(x: real)
    requires x >= 0.0
    ensures -0.005 <= RoundCents(x) - x <= 0.005 && (RoundCents(x) * 100.0).Floor as real == RoundCents(x) * 100.0
  {
    var cents := (x * 100.0 + 0.5).Floor;
    assert RoundCents(x) * 100.0 == cents as real;
  }

  // ---------- names ----------

  /** Letters are lowered and everything else is dropped, character by character. */
  lemma {:induction false} NormalizeByCharacter(c: char, rest: string)
    ensures NormalizeName([c] + rest) ==
            (if 'a' <= c <= 'z' then [c] else if 'A' <= c <= 'Z' then [c - 'A' + 'a'] else "") + NormalizeName(rest)
    ensures NormalizeName("") == ""
  {
    assert ([c] + rest)[1..] == rest;
  }

  /** A second normalisation changes nothing: names are compared by their letters alone. */
  lemma {:induction false} NormalizeIsIdempotent(name: string)
    ensures NormalizeName(NormalizeName(name)) == NormalizeName(name)
  {
    if name != "" {
      NormalizeIsIdempotent(name[1..]);
      var rest := NormalizeName(name[1..]);
      assert forall c: char :: ([c] + rest)[1..] == rest;
    }
  }

  // ---------- the method ----------

  /** `calculateEmployeePayroll`: day counts and base first, then the branch. */
  method CalculateEmployeePayroll(t: Terms, a: Attendance) returns (f: Calculation)
    ensures f == Calculate(t, a) && Itemised(f) && f.net == Max0(NetBeforeClamp(PartsOf(t, a)))
    ensures EarnsByTerms(t, a, f) && DeductsByTerms(t, a, f) && RatesByTerms(t, a, f)
  {
    var expectedWorkDays := ExpectedWorkDays(t);
    var salaryPresentDays := PaidDays(t, a.presentDays);
    var absentDays := if expectedWorkDays > salaryPresentDays then expectedWorkDays - salaryPresentDays else 0;
    var fullBase := t.dailyRate * expectedWorkDays as real;
    if t.frequency == Monthly {
      fullBase := t.basicSalary;
    }
    var base := DaysAt(t.dailyRate, a.presentDays);
    if t.baseOverride.Some? {
      base := t.baseOverride.value;
    }
    var parts := Parts(t.frequency, a.presentDays, salaryPresentDays, absentDays, expectedWorkDays,
                       fullBase, DayRate(t), base, OvertimePay(a.overtimeHours, t.overtimeRate),
                       SumMoney(t.allowances), SumMoney(Taxes(t.basicSalary, t.monthlyTaxes)),
                       OwnDeductions(t, t.deductions));
    assert parts == PartsOf(t, a);
    NetIsLinear(parts);
    FiguresEarnByTerms(t, a);
    FiguresDeductByTerms(t, a);
    FiguresRateByTerms(t, a);
    f := Pay(parts);
  }
}
