/** Gross-to-net arithmetic for one employee and one pay period, in exact arithmetic. */
module PayCalculation {
  import opened Wrappers

  type Money = real

  datatype Frequency = Monthly | Daily | Custom

  datatype DeductionMode = Percentage | Fixed

  /** A deduction assigned to the employee, with the fields of its type. */
  datatype Deduction = Deduction(name: string, mode: DeductionMode, percentage: real, amount: Money)

  datatype TaxPolicy = TaxPolicy(name: string, rate: real)

  /** Everything the calculation reads except the attendance itself. */
  datatype Terms = Terms(
    frequency: Frequency,
    basicSalary: Money,
    dailyRate: Money,
    contractDays: Option<nat>,
    periodCalendarDays: nat,
    workDaysOverride: Option<int>,
    baseOverride: Option<Money>,
    overtimeRate: Money,
    allowances: seq<Money>,
    monthlyTaxes: seq<TaxPolicy>,
    assignedTaxes: seq<TaxPolicy>,
    deductions: seq<Deduction>)

  datatype Attendance = Attendance(presentDays: nat, overtimeHours: real)

  datatype Figures = Figures(
    base: Money, allowance: Money, overtime: Money, gross: Money,
    tax: Money, configured: Money, absence: Money, deductions: Money, net: Money,
    dailyNetRate: Option<Money>)

  function Max0(x: Money): Money {
    if x < 0.0 then 0.0 else x
  }

  /** Gross is its three parts; net is gross less deductions, never below zero. */
  predicate Itemised(f: Figures) {
    && f.gross == f.base + f.allowance + f.overtime
    && f.net == Max0(f.gross - f.deductions)
  }

  /** The figures a calculation hands to the batch: always itemised. */
  type Calculation = f: Figures | Itemised(f)
    witness Figures(0.0, 0.0, 0.0, 0.0, 0.0, 0.0, 0.0, 0.0, 0.0, None)

  const DEFAULT_MONTHLY_WORK_DAYS := 22
  const TAX_THRESHOLD_DAYS := 21

  // ---------- helpers ----------

  function SumMoney(s: seq<Money>): Money {
    if s == [] then 0.0 else s[0] + SumMoney(s[1..])
  }

  function Scaled(s: seq<Money>, ratio: real): seq<Money> {
    if s == [] then [] else [s[0] * ratio] + Scaled(s[1..], ratio)
  }

  /** Adding up prorated lines is prorating their sum: the breakdown and the total agree. */
  lemma {:induction false} ProratedLinesSumToProratedTotal(s: seq<Money>, ratio: real)
    ensures SumMoney(Scaled(s, ratio)) == SumMoney(s) * ratio
  {
    if s != [] {
      ProratedLinesSumToProratedTotal(s[1..], ratio);
    }
  }

  /** Lower case, letters a to z only. */
  function NormalizeName(name: string): string {
    if name == "" then ""
    else
      var c := name[0];
      var rest := NormalizeName(name[1..]);
      if 'a' <= c <= 'z' then [c] + rest
      else if 'A' <= c <= 'Z' then [c - 'A' + 'a'] + rest
      else rest
  }

  function RoundCents(x: real): real
    requires x >= 0.0
  {
    (x * 100.0 + 0.5).Floor as real / 100.0
  }

  /** The fallback for a structure without a daily rate: salary over days, to two decimals. */
  function MonthlyDailyRate(salary: Money, days: int): Money {
    if salary <= 0.0 || days <= 0 then 0.0 else RoundCents(salary / days as real)
  }

  function DaysAt(rate: Money, days: int): Money {
    rate * days as real
  }

  function OvertimePay(hours: real, rate: Money): Money {
    if hours <= 0.0 then 0.0 else hours * rate
  }

  /** The day count that attendance is measured against. */
  function ExpectedWorkDays(t: Terms): (days: int)
    ensures days >= 1
  {
    var base := if t.frequency == Monthly then DEFAULT_MONTHLY_WORK_DAYS else t.periodCalendarDays;
    var chosen :=
      if t.workDaysOverride.Some? then t.workDaysOverride.value
      else if t.frequency != Monthly && t.contractDays.Some? && t.contractDays.value != 0 then t.contractDays.value
      else base;
    if chosen < 1 then 1 else chosen
  }

  /** Monthly salaries never count more days than the basis; the others count what was worked. */
  function PaidDays(t: Terms, presentDays: nat): (days: int)
    ensures 0 <= days <= presentDays
  {
    if t.frequency == Monthly && presentDays > ExpectedWorkDays(t) then ExpectedWorkDays(t) else presentDays
  }

  function AbsentDays(t: Terms, presentDays: nat): (days: int)
    ensures days >= 0
  {
    var gap := ExpectedWorkDays(t) - PaidDays(t, presentDays);
    if gap < 0 then 0 else gap
  }

  /** The rate an absent day costs: the stored one, or the fallback when none is stored. */
  function DayRate(t: Terms): Money {
    if t.frequency == Monthly && t.dailyRate == 0.0 then MonthlyDailyRate(t.basicSalary, ExpectedWorkDays(t))
    else t.dailyRate
  }

  /** The full-period base the percentages are taken of. */
  function FullBase(t: Terms): Money {
    if t.frequency == Monthly then t.basicSalary else t.dailyRate * ExpectedWorkDays(t) as real
  }

  /** The last assigned policy whose normalised name is the deduction's. */
  function AssignedPolicy(policies: seq<TaxPolicy>, name: string): Option<TaxPolicy> {
    if policies == [] then None
    else
      var last := policies[|policies| - 1];
      if NormalizeName(last.name) == NormalizeName(name) then Some(last)
      else AssignedPolicy(policies[..|policies| - 1], name)
  }

  function DeductionAmount(t: Terms, d: Deduction): Money {
    var policy := AssignedPolicy(t.assignedTaxes, d.name);
    if policy.Some? then FullBase(t) * (policy.value.rate / 100.0)
    else if d.mode == Percentage then FullBase(t) * (d.percentage / 100.0)
    else d.amount
  }

  /** The employee's own deductions, without those a global monthly tax already covers. */
  function OwnDeductions(t: Terms, ds: seq<Deduction>): seq<Money> {
    if ds == [] then []
    else
      var rest := OwnDeductions(t, ds[1..]);
      if exists n | 0 <= n < |t.monthlyTaxes| :: NormalizeName(t.monthlyTaxes[n].name) == NormalizeName(ds[0].name)
      then rest
      else [DeductionAmount(t, ds[0])] + rest
  }

  function TaxOf(salary: Money, policy: TaxPolicy): Money {
    salary * (policy.rate / 100.0)
  }

  /** One line per monthly tax in force, each a percentage of the salary. */
  function Taxes(salary: Money, policies: seq<TaxPolicy>): seq<Money> {
    if policies == [] then [] else [TaxOf(salary, policies[0])] + Taxes(salary, policies[1..])
  }

  /** The amounts and day counts one calculation works with, once the terms and the attendance are read. */
  datatype Parts = Parts(
    frequency: Frequency,
    presentDays: nat, paid: int, absent: int, basis: int,
    fullBase: Money, dayRate: Money, shortBase: Money, overtime: Money,
    allowance: Money, tax: Money, own: seq<Money>)
  {
    predicate Valid() {
      && basis >= 1 && 0 <= paid <= presentDays
      && absent == (if paid < basis then basis - paid else 0)
      && (if frequency == Monthly then paid <= basis
          else paid == presentDays && fullBase == dayRate * basis as real)
    }

    function Ratio(): real
      requires basis >= 1
    {
      paid as real / basis as real
    }
  }

  function PartsOf(t: Terms, a: Attendance): (p: Parts)
    ensures p.Valid()
  {
    Parts(t.frequency,
          a.presentDays, PaidDays(t, a.presentDays), AbsentDays(t, a.presentDays), ExpectedWorkDays(t),
          FullBase(t), DayRate(t),
          if t.baseOverride.Some? then t.baseOverride.value else DaysAt(t.dailyRate, a.presentDays),
          OvertimePay(a.overtimeHours, t.overtimeRate),
          SumMoney(t.allowances), SumMoney(Taxes(t.basicSalary, t.monthlyTaxes)), OwnDeductions(t, t.deductions))
  }

  // ---------- the three branches ----------

  /** Monthly pay: full salary, prorated allowances and deductions, a line for the absences. */
  function MonthlyFigures(p: Parts): Figures
    requires p.Valid()
  {
    var fullNet := p.fullBase - p.tax - SumMoney(p.own) + p.allowance;
    var allowance := p.allowance * p.Ratio();
    var tax := p.tax * p.Ratio();
    var configured := SumMoney(Scaled(p.own, p.Ratio()));
    var absence := p.absent as real * p.dayRate;
    Figures(p.fullBase, allowance, p.overtime, p.fullBase + allowance + p.overtime, tax, configured, absence,
            tax + configured + absence,
            Max0(p.fullBase - tax - configured - absence + allowance + p.overtime),
            Some(fullNet / p.basis as real))
  }

  /** Daily and custom pay past the threshold: allowances and deductions, no tax. */
  function LongFigures(p: Parts): Figures
    requires p.Valid()
  {
    var fullNet := p.fullBase - SumMoney(p.own) + p.allowance;
    var base := p.fullBase * p.Ratio();
    var allowance := p.allowance * p.Ratio();
    var configured := SumMoney(Scaled(p.own, p.Ratio()));
    Figures(base, allowance, p.overtime, base + allowance + p.overtime, 0.0, configured, p.absent as real * p.dayRate,
            configured,
            Max0(base + allowance + p.overtime - configured),
            Some(fullNet / p.basis as real))
  }

  /** Daily and custom pay up to the threshold: base (or its override) and overtime, nothing else. */
  function ShortFigures(p: Parts): Figures {
    Figures(p.shortBase, 0.0, p.overtime, p.shortBase + p.overtime + 0.0, 0.0, 0.0, p.absent as real * p.dayRate, 0.0,
            Max0(p.shortBase + p.overtime + 0.0 - 0.0), None)
  }

  /** The branch on frequency and threshold; the result type says that each one itemises its net. */
  function Pay(p: Parts): Calculation
    requires p.Valid()
  {
    if p.frequency == Monthly then MonthlyFigures(p)
    else if p.presentDays > TAX_THRESHOLD_DAYS then LongFigures(p)
    else ShortFigures(p)
  }

  function Calculate(t: Terms, a: Attendance): Calculation {
    Pay(PartsOf(t, a))
  }

  // ---------- the two ways the same pay is computed ----------

  lemma RateTimesDays(full: real, days: real, basis: real)
    requires basis > 0.0
    ensures (full / basis) * days == full * (days / basis)
  {
  }

  lemma ProratedPartsSumToRate(full: real, less: real, extra: real, days: real, basis: real)
    requires basis > 0.0
    ensures var ratio := days / basis;
            full * ratio - less * ratio + extra * ratio == ((full - less + extra) / basis) * days
  {
    var ratio := days / basis;
    RateTimesDays(full - less + extra, days, basis);
    assert (full - less + extra) * ratio == full * ratio - less * ratio + extra * ratio;
  }

  /** What `daily_net_rate x paid days + overtime` comes to, before any clamping. */
  function ByDailyNetRate(p: Parts): Money
    requires p.Valid()
  {
    var rate := Pay(p).dailyNetRate;
    (if rate.Some? then DaysAt(rate.value, p.paid) else 0.0) + p.overtime
  }

  /** Past the threshold the itemised net of a daily or custom employee is always the daily rate's. */
  lemma LongNetFollowsDailyRate(p: Parts)
    requires p.Valid() && p.frequency != Monthly && p.presentDays > TAX_THRESHOLD_DAYS
    ensures Pay(p).net == Max0(ByDailyNetRate(p))
  {
    ProratedLinesSumToProratedTotal(p.own, p.Ratio());
    ProratedPartsSumToRate(p.fullBase, SumMoney(p.own), p.allowance, p.paid as real, p.basis as real);
  }

  /** Past the threshold base pay is the daily rate times the days worked, whatever an override said. */
  lemma LongBaseIsRateTimesDays(p: Parts)
    requires p.Valid() && p.frequency != Monthly && p.presentDays > TAX_THRESHOLD_DAYS
    ensures Pay(p).base == p.dayRate * p.presentDays as real
  {
    var basis, days := p.basis as real, p.presentDays as real;
    assert basis * (days / basis) == days;
    assert (p.dayRate * basis) * (days / basis) == p.dayRate * (basis * (days / basis));
  }

  lemma SalaryShare(salary: real, paid: real, absent: real, basis: real)
    requires basis > 0.0 && paid + absent == basis
    ensures salary - salary * (paid / basis) == absent * (salary / basis)
  {
    assert basis * (salary / basis) == salary;
    RateTimesDays(salary, paid, basis);
    assert (salary / basis) * paid + (salary / basis) * absent == (salary / basis) * (paid + absent);
  }

  /** The monthly amounts by lines, less the amount by the net daily rate. */
  lemma MonthlyAlgebra(
    salary: real, tax: real, own: real, extra: real, paid: real, absent: real, basis: real, rate: real,
    allowanceLine: real, taxLine: real, ownLine: real, absenceLine: real)
    requires basis > 0.0 && paid + absent == basis
    requires allowanceLine == extra * (paid / basis) && taxLine == tax * (paid / basis)
    requires ownLine == own * (paid / basis) && absenceLine == absent * rate
    ensures (salary + allowanceLine) - (taxLine + ownLine + absenceLine)
              - ((salary - tax - own + extra) / basis) * paid
            == absent * (salary / basis - rate)
  {
    ProratedPartsSumToRate(salary, tax + own, extra, paid, basis);
    SalaryShare(salary, paid, absent, basis);
    assert (tax + own) * (paid / basis) == taxLine + ownLine;
    assert salary - (tax + own) + extra == salary - tax - own + extra;
    assert absent * (salary / basis - rate) == absent * (salary / basis) - absent * rate;
  }

  lemma MonthlyLines(p: Parts)
    requires p.Valid()
    ensures var f := MonthlyFigures(p);
            && f.gross == (p.fullBase + f.allowance) + p.overtime && f.deductions == f.tax + f.configured + f.absence
            && f.allowance == p.allowance * p.Ratio() && f.tax == p.tax * p.Ratio()
            && f.absence == p.absent as real * p.dayRate
  {
  }

  lemma MonthlyConfigured(p: Parts)
    requires p.Valid()
    ensures MonthlyFigures(p).configured == SumMoney(p.own) * p.Ratio()
  {
    ProratedLinesSumToProratedTotal(p.own, p.Ratio());
  }

  lemma MonthlyRate(p: Parts)
    requires p.Valid() && p.frequency == Monthly
    ensures Pay(p) == MonthlyFigures(p)
    ensures ByDailyNetRate(p)
            == DaysAt((p.fullBase - p.tax - SumMoney(p.own) + p.allowance) / p.basis as real, p.paid) + p.overtime
  {
  }

  /** The monthly gap between the two computations: the absent days, at the difference between the
      salary's own daily share and the rate the absence line charges. */
  lemma MonthlyGap(p: Parts)
    requires p.Valid() && p.frequency == Monthly
    ensures (Pay(p).gross - Pay(p).deductions) - ByDailyNetRate(p)
            == p.absent as real * (p.fullBase / p.basis as real - p.dayRate)
  {
    var f := MonthlyFigures(p);
    MonthlyLines(p);
    MonthlyConfigured(p);
    MonthlyRate(p);
    MonthlyAlgebra(p.fullBase, p.tax, SumMoney(p.own), p.allowance,
                   p.paid as real, p.absent as real, p.basis as real, p.dayRate,
                   f.allowance, f.tax, f.configured, f.absence);
  }

  lemma ZeroGapIff(absent: real, salary: real, basis: real, rate: real)
    requires basis > 0.0
    ensures absent * (salary / basis - rate) == 0.0 <==> absent == 0.0 || rate * basis == salary
  {
    var share := salary / basis;
    assert share * basis == salary;
    if absent != 0.0 && rate * basis != salary {
      assert share != rate;
      assert absent * (share - rate) != 0.0;
    }
    if rate * basis == salary {
      assert (share - rate) * basis == 0.0;
    }
  }

  /** Nobody was absent, or the absence rate times the work-day basis is the basic salary. */
  predicate AbsenceRateCoherent(p: Parts) {
    p.absent == 0 || p.dayRate * p.basis as real == p.fullBase
  }

  lemma MonthlyAmountsAgreeIff(p: Parts)
    requires p.Valid() && p.frequency == Monthly
    ensures Pay(p).gross - Pay(p).deductions == ByDailyNetRate(p) <==> AbsenceRateCoherent(p)
  {
    MonthlyGap(p);
    AgreeIff(Pay(p).gross - Pay(p).deductions, ByDailyNetRate(p),
             p.absent as real, p.fullBase, p.basis as real, p.dayRate);
  }

  lemma AgreeIff(x: real, y: real, absent: real, salary: real, basis: real, rate: real)
    requires basis > 0.0 && x - y == absent * (salary / basis - rate)
    ensures x == y <==> absent == 0.0 || rate * basis == salary
  {
    ZeroGapIff(absent, salary, basis, rate);
  }

  lemma ClampedAgreeIff(x: real, y: real, agree: bool)
    requires x == y <==> agree
    ensures agree ==> Max0(x) == Max0(y)
    ensures Max0(x) > 0.0 ==> (Max0(x) == Max0(y) <==> agree)
  {
  }

  /** For a monthly employee the itemised amount and the daily-rate amount coincide exactly when the
      absence rate is coherent; after clamping too, unless both are clamped away. */
  lemma MonthlyNetFollowsDailyRateIff(p: Parts)
    requires p.Valid() && p.frequency == Monthly
    ensures Pay(p).gross - Pay(p).deductions == ByDailyNetRate(p) <==> AbsenceRateCoherent(p)
    ensures AbsenceRateCoherent(p) ==> Pay(p).net == Max0(ByDailyNetRate(p))
    ensures Pay(p).net > 0.0 ==> (Pay(p).net == Max0(ByDailyNetRate(p)) <==> AbsenceRateCoherent(p))
  {
    MonthlyAmountsAgreeIff(p);
    ClampedAgreeIff(Pay(p).gross - Pay(p).deductions, ByDailyNetRate(p), AbsenceRateCoherent(p));
  }

  /** A salary of 100000 over 22 days is stored as 4545.45 a day; with one absent day the two disagree. */
  lemma RoundedDailyRateDisagrees(t: Terms)
    requires t.frequency == Monthly && t.basicSalary == 100000.0
    requires t.dailyRate == MonthlyDailyRate(t.basicSalary, DEFAULT_MONTHLY_WORK_DAYS)
    requires t.workDaysOverride.None? && t.monthlyTaxes == [] && t.deductions == [] && t.allowances == []
    ensures t.dailyRate == 4545.45
    ensures Pay(PartsOf(t, Attendance(21, 0.0))).net != Max0(ByDailyNetRate(PartsOf(t, Attendance(21, 0.0))))
  {
    assert (100000.0 / 22.0 * 100.0 + 0.5).Floor == 454545;
    var p := PartsOf(t, Attendance(21, 0.0));
    assert p.absent == 1 && p.tax == 0.0 && p.allowance == 0.0 && p.own == [] && p.overtime == 0.0;
    NetAfterOneAbsence(p);
  }

  lemma NetAfterOneAbsence(p: Parts)
    requires p.Valid() && p.frequency == Monthly
    requires p.absent == 1 && p.tax == 0.0 && p.allowance == 0.0 && p.own == [] && p.overtime == 0.0
    requires p.fullBase > p.dayRate && p.dayRate * p.basis as real != p.fullBase
    ensures Pay(p).net != Max0(ByDailyNetRate(p))
  {
    ProratedLinesSumToProratedTotal(p.own, p.Ratio());
    assert Pay(p).net == p.fullBase - p.dayRate;
    MonthlyNetFollowsDailyRateIff(p);
  }

  // ---------- net pay as a function of the days ----------

  /** Allowances less what is deducted, for each day of the basis. */
  function ExtrasPerDay(p: Parts): Money
    requires p.basis >= 1
  {
    (p.allowance - (if p.frequency == Monthly then p.tax else 0.0) - SumMoney(p.own)) / p.basis as real
  }

  /** What a paid day adds before clamping; up to the threshold the base is already set by the days. */
  function Slope(p: Parts): Money
    requires p.basis >= 1
  {
    if p.frequency == Monthly || p.presentDays > TAX_THRESHOLD_DAYS then p.dayRate + ExtrasPerDay(p) else 0.0
  }

  /** What is paid for no day at all. */
  function Intercept(p: Parts): Money {
    if p.frequency == Monthly then p.fullBase - DaysAt(p.dayRate, p.basis) + p.overtime
    else if p.presentDays > TAX_THRESHOLD_DAYS then p.overtime
    else p.shortBase + p.overtime
  }

  function NetBeforeClamp(p: Parts): Money
    requires p.basis >= 1
  {
    Intercept(p) + DaysAt(Slope(p), p.paid)
  }

  lemma MonthlyLineAlgebra(
    salary: real, extra: real, tax: real, own: real, paid: real, absent: real, basis: real, rate: real)
    requires basis > 0.0 && paid + absent == basis
    ensures salary + extra * (paid / basis) - (tax * (paid / basis) + own * (paid / basis) + absent * rate)
            == salary - rate * basis + (rate + (extra - tax - own) / basis) * paid
  {
    var ratio := paid / basis;
    RateTimesDays(extra - tax - own, paid, basis);
    assert (extra - tax - own) * ratio == extra * ratio - tax * ratio - own * ratio;
    assert (rate + (extra - tax - own) / basis) * paid == rate * paid + ((extra - tax - own) / basis) * paid;
    assert absent * rate == rate * basis - rate * paid by {
      assert absent == basis - paid;
    }
  }

  lemma MonthlyNetIsLinear(p: Parts)
    requires p.Valid() && p.frequency == Monthly
    ensures Pay(p).gross - Pay(p).deductions == NetBeforeClamp(p)
  {
    MonthlyLines(p);
    MonthlyConfigured(p);
    MonthlyRate(p);
    MonthlyLineAlgebra(p.fullBase, p.allowance, p.tax, SumMoney(p.own), p.paid as real, p.absent as real,
                       p.basis as real, p.dayRate);
  }

  lemma LongRateIsSlope(rate: real, extra: real, own: real, basis: real)
    requires basis > 0.0
    ensures (rate * basis - own + extra) / basis == rate + (extra - own) / basis
  {
    assert rate * basis - own + extra == rate * basis + (extra - own);
    assert (rate * basis) / basis == rate;
  }

  lemma LongNetIsLinear(p: Parts)
    requires p.Valid() && p.frequency != Monthly && p.presentDays > TAX_THRESHOLD_DAYS
    ensures Pay(p).net == Max0(NetBeforeClamp(p))
  {
    LongNetFollowsDailyRate(p);
    LongSlopeIsDailyNetRate(p);
  }

  lemma LongSlopeIsDailyNetRate(p: Parts)
    requires p.Valid() && p.frequency != Monthly && p.presentDays > TAX_THRESHOLD_DAYS
    ensures Pay(p).dailyNetRate == Some(Slope(p))
  {
    LongRateIsSlope(p.dayRate, p.allowance, SumMoney(p.own), p.basis as real);
  }

  /** In every branch net pay is a line in the paid days, clamped at zero. */
  lemma NetIsLinear(p: Parts)
    requires p.Valid()
    ensures Pay(p).net == Max0(NetBeforeClamp(p))
  {
    if p.frequency == Monthly {
      MonthlyNetIsLinear(p);
    } else if p.presentDays > TAX_THRESHOLD_DAYS {
      LongNetIsLinear(p);
    }
  }

  lemma ClampedLineRisesIff(start: Money, slope: Money, d: int, e: int)
    requires d <= e
    ensures Max0(start + DaysAt(slope, d)) <= Max0(start + DaysAt(slope, e)) <==>
            d == e || slope >= 0.0 || start + DaysAt(slope, d) <= 0.0
  {
    assert DaysAt(slope, e) == DaysAt(slope, d) + slope * (e - d) as real;
    ProductSign(slope, (e - d) as real);
  }

  lemma ProductSign(a: real, b: real)
    requires b >= 0.0
    ensures a >= 0.0 ==> a * b >= 0.0
    ensures a < 0.0 && b > 0.0 ==> a * b < 0.0
  {
  }

  /** The base paid up to the threshold: the override, or the daily rate times the days. */
  function ShortBase(t: Terms, presentDays: nat): Money {
    if t.baseOverride.Some? then t.baseOverride.value else DaysAt(t.dailyRate, presentDays)
  }

  /** What one more present day adds to an employee on these terms, before clamping. */
  function DaySlope(t: Terms, a: Attendance): Money {
    if t.frequency == Monthly || a.presentDays > TAX_THRESHOLD_DAYS then Slope(PartsOf(t, a))
    else if t.baseOverride.Some? then 0.0
    else t.dailyRate
  }

  predicate SameBranch(t: Terms, a: Attendance, b: Attendance) {
    t.frequency == Monthly || (a.presentDays > TAX_THRESHOLD_DAYS <==> b.presentDays > TAX_THRESHOLD_DAYS)
  }

  /** More present days are at least as many paid days, on the same line. */
  lemma MorePresenceIsMoreDays(t: Terms, a: Attendance, b: Attendance)
    requires a.presentDays <= b.presentDays && a.overtimeHours == b.overtimeHours && SameBranch(t, a, b)
    ensures var p, q := PartsOf(t, a), PartsOf(t, b);
            && p.paid <= q.paid && Slope(p) == Slope(q)
            && (t.frequency == Monthly || a.presentDays > TAX_THRESHOLD_DAYS ==> Intercept(p) == Intercept(q))
  {
  }

  /** Within a branch, more days pay at least as much exactly when they are no more paid days, or a day does
      not lower the pay, or nothing was paid in the first place. */
  lemma NetIsMonotoneInDays(t: Terms, a: Attendance, b: Attendance)
    requires a.presentDays <= b.presentDays && a.overtimeHours == b.overtimeHours && SameBranch(t, a, b)
    ensures Calculate(t, a).net <= Calculate(t, b).net <==>
            || PaidDays(t, a.presentDays) == PaidDays(t, b.presentDays)
            || DaySlope(t, a) >= 0.0
            || Calculate(t, a).net == 0.0
  {
    var p, q := PartsOf(t, a), PartsOf(t, b);
    NetIsLinear(p);
    NetIsLinear(q);
    MorePresenceIsMoreDays(t, a, b);
    if t.frequency == Monthly || a.presentDays > TAX_THRESHOLD_DAYS {
      ClampedLineRisesIff(Intercept(p), Slope(p), p.paid, q.paid);
    } else if t.baseOverride.None? {
      ClampedLineRisesIff(p.overtime, t.dailyRate, a.presentDays, b.presentDays);
    }
  }

  /** A month's slope is its daily net rate exactly when the absence rate matches the salary. */
  lemma SlopeIsDailyNetRateIff(p: Parts)
    requires p.Valid() && p.frequency == Monthly
    ensures Pay(p).dailyNetRate == Some(Slope(p)) <==> p.dayRate * p.basis as real == p.fullBase
  {
    MonthlyRate(p);
    var less := p.tax + SumMoney(p.own) - p.allowance;
    RateDifference(p.fullBase, less, p.basis as real, p.dayRate);
    assert Pay(p).dailyNetRate == Some((p.fullBase - less) / p.basis as real) by {
      assert p.fullBase - p.tax - SumMoney(p.own) + p.allowance == p.fullBase - less;
    }
    assert ExtrasPerDay(p) == (0.0 - less) / p.basis as real by {
      assert p.allowance - p.tax - SumMoney(p.own) == 0.0 - less;
    }
  }

  lemma RateDifference(salary: real, less: real, basis: real, rate: real)
    requires basis > 0.0
    ensures (salary - less) / basis == rate + (0.0 - less) / basis <==> rate * basis == salary
  {
    assert (salary - less) / basis == salary / basis + (0.0 - less) / basis;
    assert (salary / basis) * basis == salary;
  }

  /** Where the absence rate matches the salary, a daily net rate that is not negative is enough. */
  lemma CoherentNetIsMonotone(t: Terms, a: Attendance, b: Attendance)
    requires a.presentDays <= b.presentDays && a.overtimeHours == b.overtimeHours && t.frequency == Monthly
    requires DayRate(t) * ExpectedWorkDays(t) as real == t.basicSalary
    requires match Calculate(t, a).dailyNetRate case Some(rate) => rate >= 0.0 case None => true
    ensures Calculate(t, a).net <= Calculate(t, b).net
  {
    CoherentSlope(t, a);
    NetIsMonotoneInDays(t, a, b);
  }

  lemma CoherentSlope(t: Terms, a: Attendance)
    requires t.frequency == Monthly && DayRate(t) * ExpectedWorkDays(t) as real == t.basicSalary
    ensures Calculate(t, a).dailyNetRate == Some(DaySlope(t, a))
  {
    SlopeIsDailyNetRateIff(PartsOf(t, a));
  }

  const OVERRIDDEN_MONTH := Terms(
    Monthly, 220000.0, 10000.0, None, 31, Some(10), None, 0.0, [], [TaxPolicy("PAYE", 50.0)], [], [])

  /** Ten work days instead of the 22 behind the stored rate: the daily net rate is 11000, and yet ten days of
      presence pay 110000 where none pays 120000. */
  lemma MoreDaysCanLowerMonthlyNet()
    ensures var none := Calculate(OVERRIDDEN_MONTH, Attendance(0, 0.0));
            var all := Calculate(OVERRIDDEN_MONTH, Attendance(10, 0.0));
            none.net == 120000.0 && all.net == 110000.0 && none.dailyNetRate == all.dailyNetRate == Some(11000.0)
  {
    OverriddenPay(0);
    OverriddenPay(10);
  }

  lemma OverriddenPay(days: nat)
    requires days <= 10
    ensures var f := Calculate(OVERRIDDEN_MONTH, Attendance(days, 0.0));
            f.net == Max0(120000.0 - DaysAt(1000.0, days)) && f.dailyNetRate == Some(11000.0)
  {
    OverriddenTax();
    OverriddenParts(days);
    OverriddenMonth(PartsOf(OVERRIDDEN_MONTH, Attendance(days, 0.0)));
  }

  lemma OverriddenTax()
    ensures SumMoney(Taxes(OVERRIDDEN_MONTH.basicSalary, OVERRIDDEN_MONTH.monthlyTaxes)) == 110000.0
  {
    assert TaxOf(220000.0, TaxPolicy("PAYE", 50.0)) == 110000.0;
    assert OVERRIDDEN_MONTH.monthlyTaxes[1..] == [];
    assert Taxes(220000.0, OVERRIDDEN_MONTH.monthlyTaxes) == [110000.0];
    assert [110000.0][1..] == [];
  }

  lemma OverriddenParts(days: nat)
    requires days <= 10
    ensures var p := PartsOf(OVERRIDDEN_MONTH, Attendance(days, 0.0));
            && p.frequency == Monthly && p.paid == days && p.basis == 10
            && p.fullBase == 220000.0 && p.dayRate == 10000.0
            && p.overtime == 0.0 && p.allowance == 0.0 && p.own == []
  {
  }

  lemma OverriddenMonth(p: Parts)
    requires p.Valid() && p.frequency == Monthly && p.basis == 10 && p.fullBase == 220000.0 && p.dayRate == 10000.0
    requires p.overtime == 0.0 && p.allowance == 0.0 && p.tax == 110000.0 && p.own == []
    ensures Pay(p).net == Max0(120000.0 - DaysAt(1000.0, p.paid)) && Pay(p).dailyNetRate == Some(11000.0)
  {
    NetIsLinear(p);
    MonthlyRate(p);
    assert Slope(p) == -1000.0 && Intercept(p) == 120000.0;
    assert DaysAt(-1000.0, p.paid) == 0.0 - DaysAt(1000.0, p.paid);
  }

  /** Across the threshold, up to 21 days against more of them: the longer attendance pays at least as much
      exactly when the shorter pays nothing or the allowances and deductions, spread over the work-day basis,
      leave at least the shorter amount. */
  lemma ThresholdNetRisesIff(t: Terms, a: Attendance, b: Attendance)
    requires t.frequency != Monthly && a.presentDays <= TAX_THRESHOLD_DAYS < b.presentDays
    ensures var shorter := ShortBase(t, a.presentDays) + OvertimePay(a.overtimeHours, t.overtimeRate);
            var extras :=
              (SumMoney(t.allowances) - SumMoney(OwnDeductions(t, t.deductions))) / ExpectedWorkDays(t) as real;
            var longer := DaysAt(t.dailyRate + extras, b.presentDays) + OvertimePay(b.overtimeHours, t.overtimeRate);
            Calculate(t, a).net <= Calculate(t, b).net <==> shorter <= 0.0 || shorter <= longer
  {
    NetIsLinear(PartsOf(t, a));
    NetIsLinear(PartsOf(t, b));
  }

  const DEDUCTED_DAYS := Terms(
    Daily, 0.0, 10.0, None, 30, None, None, 0.0, [], [], [], [Deduction("loan", Fixed, 0.0, 300.0)])

  /** The 22nd day brings a deduction of 300 in, and 210 falls to nothing. */
  lemma ThresholdCanLowerNet()
    ensures Calculate(DEDUCTED_DAYS, Attendance(21, 0.0)).net == 210.0
    ensures Calculate(DEDUCTED_DAYS, Attendance(22, 0.0)).net == 0.0
  {
    var t := DEDUCTED_DAYS;
    assert t.deductions[1..] == [];
    assert OwnDeductions(t, t.deductions) == [300.0];
    NetIsLinear(PartsOf(t, Attendance(21, 0.0)));
    NetIsLinear(PartsOf(t, Attendance(22, 0.0)));
  }

  // ---------- the savings adjustment made afterwards ----------

  /** The later savings deduction: added to the deductions, taken off the clamped net, clamped again. */
  function Adjust(f: Figures, saving: Money): Figures {
    f.(deductions := f.deductions + saving, net := Max0(f.net - saving))
  }

  /** The adjusted figures are still itemised exactly when the amount is not negative or the first
      clamp did nothing. */
  lemma AdjustKeepsItemisedIff(f: Calculation, saving: Money)
    ensures Itemised(Adjust(f, saving)) <==> saving >= 0.0 || f.gross >= f.deductions
  {
  }
}
