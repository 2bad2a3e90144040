/** Dashboard analytics: time buckets, head-count and payroll trends, and the status distribution. */
module Dashboard {
  import opened Ledger

  // ---------- the calendar ----------

  const DAY := 86400000

  /** Months are numbered from year 0; instants are milliseconds. */
  datatype Calendar = Calendar(monthStart: int -> int, monthOf: int -> int, startOfDay: int -> int)

  ghost predicate IsCalendar(c: Calendar) {
    && (forall m :: c.monthStart(m) < c.monthStart(m + 1))
    && (forall t :: c.monthStart(c.monthOf(t)) <= t < c.monthStart(c.monthOf(t) + 1))
    && (forall t :: c.startOfDay(t) <= t)
  }

  lemma {:induction false} MonthsIncrease(c: Calendar, m: int, n: int)
    requires IsCalendar(c) && m <= n
    ensures c.monthStart(m) <= c.monthStart(n) && (m < n ==> c.monthStart(m) < c.monthStart(n))
    decreases n - m
  {
    if m < n {
      MonthsIncrease(c, m, n - 1);
      assert c.monthStart(n - 1) < c.monthStart(n - 1 + 1);
    }
  }

  datatype Interval = Day | Week | Month | Year

  function JanuaryOf(month: int): int {
    month - month % 12
  }

  function AlignDate(c: Calendar, t: int, interval: Interval): int {
    match interval
    case Year => c.monthStart(JanuaryOf(c.monthOf(t)))
    case Month => c.monthStart(c.monthOf(t))
    case _ => c.startOfDay(t)
  }

  function NextDate(c: Calendar, t: int, interval: Interval): int {
    match interval
    case Year => c.monthStart(JanuaryOf(c.monthOf(t)) + 12)
    case Month => c.monthStart(c.monthOf(t) + 1)
    case Week => t + 7 * DAY
    case Day => t + DAY
  }

  lemma AlignedIsNotLater(c: Calendar, t: int, interval: Interval)
    requires IsCalendar(c)
    ensures AlignDate(c, t, interval) <= t
  {
    MonthsIncrease(c, JanuaryOf(c.monthOf(t)), c.monthOf(t));
  }

  lemma NextIsLater(c: Calendar, t: int, interval: Interval)
    requires IsCalendar(c)
    ensures t < NextDate(c, t, interval)
  {
    MonthsIncrease(c, c.monthOf(t) + 1, JanuaryOf(c.monthOf(t)) + 12);
  }

  // ---------- buckets ----------

  datatype Bucket = Bucket(start: int, end: int)

  predicate Within(t: int, b: Bucket) {
    b.start <= t <= b.end
  }

  /** The buckets run from `start` to `to` with no gap and no overlap; none is empty. */
  ghost predicate Tiles(buckets: seq<Bucket>, start: int, to: int) {
    if buckets == [] then to == start - 1
    else
      var last := buckets[|buckets| - 1];
      last.end == to && last.start <= to && Tiles(buckets[..|buckets| - 1], start, last.start - 1)
  }

  /** Every boundary between two buckets is the next date after the earlier one's start. */
  ghost predicate Stepping(c: Calendar, buckets: seq<Bucket>, interval: Interval) {
    forall k :: 0 < k < |buckets| ==> buckets[k].start == NextDate(c, buckets[k - 1].start, interval)
  }

  function Min(a: int, b: int): int {
    if a <= b then a else b
  }

  lemma TilesGrow(buckets: seq<Bucket>, start: int, bucket: Bucket)
    requires Tiles(buckets, start, bucket.start - 1) && bucket.start <= bucket.end
    ensures Tiles(buckets + [bucket], start, bucket.end)
  {
    assert (buckets + [bucket])[..|buckets|] == buckets;
  }

  method BuildBuckets(c: Calendar, from: int, to: int, interval: Interval) returns (buckets: seq<Bucket>)
    requires IsCalendar(c)
    ensures from <= to ==> buckets != [] && Tiles(buckets, AlignDate(c, from, interval), to)
    ensures to < AlignDate(c, from, interval) ==> buckets == []
    ensures Stepping(c, buckets, interval)
    ensures buckets != [] ==> to < NextDate(c, buckets[|buckets| - 1].start, interval)
    ensures buckets != [] ==> IsAligned(c, from, buckets[0].start, interval)
    ensures forall k :: 0 <= k < |buckets| - 1 ==> IsWhole(c, buckets[k], interval)
  {
    buckets := [];
    var cursor := AlignDate(c, from, interval);
    ghost var start := cursor;
    AlignedIsNotLater(c, from, interval);
    while cursor <= to
      invariant if buckets == [] then cursor == start
                else start <= to && cursor == NextDate(c, buckets[|buckets| - 1].start, interval)
      invariant Tiles(buckets, start, if buckets == [] || cursor <= to then cursor - 1 else to)
      invariant Stepping(c, buckets, interval)
    {
      var next := NextDate(c, cursor, interval);
      NextIsLater(c, cursor, interval);
      TilesGrow(buckets, start, Bucket(cursor, Min(next - 1, to)));
      buckets := buckets + [Bucket(cursor, Min(next - 1, to))];
      cursor := next;
    }
    if buckets != [] {
      BucketsAreWhole(c, buckets, from, to, interval);
    }
  }

  /** Every instant of the range is in exactly one bucket, and no other instant is in any. */
  lemma {:induction false} ExactlyOneBucket(buckets: seq<Bucket>, start: int, to: int, t: int)
    requires Tiles(buckets, start, to)
    ensures start - 1 <= to
    ensures start <= t <= to <==> exists k :: 0 <= k < |buckets| && Within(t, buckets[k])
    ensures forall j, k :: 0 <= j < k < |buckets| ==> !(Within(t, buckets[j]) && Within(t, buckets[k]))
    ensures forall k :: 0 <= k < |buckets| ==> start <= buckets[k].start <= buckets[k].end <= to
  {
    if buckets != [] {
      var front, last := buckets[..|buckets| - 1], buckets[|buckets| - 1];
      ExactlyOneBucket(front, start, last.start - 1, t);
      assert forall k :: 0 <= k < |front| ==> buckets[k] == front[k];
      if start <= t < last.start {
        var k :| 0 <= k < |front| && Within(t, front[k]);
        assert Within(t, buckets[k]);
      } else if last.start <= t <= to {
        assert Within(t, buckets[|buckets| - 1]);
      }
    }
  }

  /** A bucket of the interval's full length: 24 hours, seven times that, the rest of its calendar month, or
      of its calendar year. */
  predicate IsWhole(c: Calendar, b: Bucket, interval: Interval) {
    match interval
    case Day => b.end - b.start + 1 == 24 * 60 * 60 * 1000
    case Week => b.end - b.start + 1 == 7 * 24 * 60 * 60 * 1000
    case Month => b.end + 1 == c.monthStart(c.monthOf(b.start) + 1)
    case Year => b.end + 1 == c.monthStart(12 * (c.monthOf(b.start) / 12) + 12)
  }

  /** Where the first bucket starts: at the day, the month or the year of the range's start. */
  predicate IsAligned(c: Calendar, from: int, start: int, interval: Interval) {
    match interval
    case Day => start == c.startOfDay(from)
    case Week => start == c.startOfDay(from)
    case Month => start == c.monthStart(c.monthOf(from))
    case Year => start == c.monthStart(12 * (c.monthOf(from) / 12))
  }

  /** Every bucket but the last is whole, and the first is aligned. */
  lemma BucketsAreWhole(c: Calendar, buckets: seq<Bucket>, from: int, to: int, interval: Interval)
    requires buckets != [] && Tiles(buckets, AlignDate(c, from, interval), to) && Stepping(c, buckets, interval)
    ensures IsAligned(c, from, buckets[0].start, interval)
    ensures forall k :: 0 <= k < |buckets| - 1 ==> IsWhole(c, buckets[k], interval)
  {
    BucketsMeet(buckets, AlignDate(c, from, interval), to);
    forall k | 0 <= k < |buckets| - 1 ensures IsWhole(c, buckets[k], interval) {
      assert buckets[k + 1].start == NextDate(c, buckets[k].start, interval);
    }
  }

  // ---------- head count ----------

  /** An employee's trend date (hired, or else created) and whether the employee is active. */
  datatype Hire = Hire(date: int, active: bool)

  function CountIn(hires: seq<Hire>, from: int, to: int): nat {
    if hires == [] then 0
    else
      var last := |hires| - 1;
      CountIn(hires[..last], from, to) + if from <= hires[last].date <= to then 1 else 0
  }

  function CountUpTo(hires: seq<Hire>, to: int): nat {
    if hires == [] then 0
    else
      var last := |hires| - 1;
      CountUpTo(hires[..last], to) + if hires[last].date <= to then 1 else 0
  }

  function Active(hires: seq<Hire>): seq<Hire> {
    if hires == [] then []
    else
      var last := |hires| - 1;
      Active(hires[..last]) + if hires[last].active then [hires[last]] else []
  }

  datatype Headcount = Headcount(total: nat, active: nat, added: nat)

  function HeadcountOf(hires: seq<Hire>, b: Bucket): Headcount {
    Headcount(CountUpTo(hires, b.end), CountUpTo(Active(hires), b.end), CountIn(hires, b.start, b.end))
  }

  function HeadcountTrend(hires: seq<Hire>, buckets: seq<Bucket>): (trend: seq<Headcount>)
    ensures |trend| == |buckets|
    ensures forall k :: 0 <= k < |buckets| ==> trend[k] == HeadcountOf(hires, buckets[k])
  {
    if buckets == [] then []
    else HeadcountTrend(hires, buckets[..|buckets| - 1]) + [HeadcountOf(hires, buckets[|buckets| - 1])]
  }

  function Added(trend: seq<Headcount>): nat {
    if trend == [] then 0 else Added(trend[..|trend| - 1]) + trend[|trend| - 1].added
  }

  lemma {:induction false} CountsMeet(hires: seq<Hire>, from: int, to: int)
    requires from - 1 <= to
    ensures CountUpTo(hires, to) == CountUpTo(hires, from - 1) + CountIn(hires, from, to)
  {
    if hires != [] {
      CountsMeet(hires[..|hires| - 1], from, to);
    }
  }

  /** The places in the list of those hired up to `to`, or of the active ones among them. */
  function HiredUpTo(hires: seq<Hire>, to: int, activeOnly: bool): set<int> {
    set k | 0 <= k < |hires| && hires[k].date <= to && (activeOnly ==> hires[k].active)
  }

  lemma HiredStep(hires: seq<Hire>, hire: Hire, to: int, activeOnly: bool)
    ensures var before := HiredUpTo(hires, to, activeOnly);
            && |hires| !in before
            && HiredUpTo(hires + [hire], to, activeOnly)
               == if hire.date <= to && (activeOnly ==> hire.active) then before + {|hires|} else before
  {
    var longer := hires + [hire];
    assert longer[|hires|] == hire && forall k :: 0 <= k < |hires| ==> longer[k] == hires[k];
  }

  /** The counts are of the hires by date, and of the active ones by date. */
  lemma {:induction false} CountsAreCardinal(hires: seq<Hire>, to: int)
    ensures CountUpTo(hires, to) == |HiredUpTo(hires, to, false)|
    ensures CountUpTo(Active(hires), to) == |HiredUpTo(hires, to, true)|
  {
    if hires == [] {
      assert HiredUpTo([], to, false) == {} && HiredUpTo([], to, true) == {};
    } else {
      var front, last := hires[..|hires| - 1], hires[|hires| - 1];
      CountsAreCardinal(front, to);
      assert hires == front + [last];
      ActiveStep(front, last, to);
      HiredStep(front, last, to, false);
      HiredStep(front, last, to, true);
    }
  }

  lemma ActiveStep(hires: seq<Hire>, hire: Hire, to: int)
    ensures CountUpTo(Active(hires + [hire]), to)
            == CountUpTo(Active(hires), to) + if hire.active && hire.date <= to then 1 else 0
  {
    assert (hires + [hire])[..|hires|] == hires;
    if hire.active {
      assert (Active(hires) + [hire])[..|Active(hires)|] == Active(hires);
    } else {
      assert Active(hires) + [] == Active(hires);
    }
  }

  /** Each total is the total before it plus its own additions, and the last is the summary's. */
  lemma HeadcountChains(hires: seq<Hire>, buckets: seq<Bucket>, start: int, to: int)
    requires Tiles(buckets, start, to) && buckets != []
    ensures var trend := HeadcountTrend(hires, buckets);
            && trend[0].total == CountUpTo(hires, start - 1) + trend[0].added
            && (forall k :: 0 < k < |trend| ==> trend[k].total == trend[k - 1].total + trend[k].added)
            && trend[|trend| - 1].total == CountUpTo(hires, to)
            && trend[|trend| - 1].active == CountUpTo(Active(hires), to)
  {
    BucketsMeet(buckets, start, to);
    forall k | 0 <= k < |buckets|
      ensures CountUpTo(hires, buckets[k].end)
              == CountUpTo(hires, buckets[k].start - 1) + CountIn(hires, buckets[k].start, buckets[k].end)
    {
      CountsMeet(hires, buckets[k].start, buckets[k].end);
    }
  }

  lemma {:induction false} BucketsMeet(buckets: seq<Bucket>, start: int, to: int)
    requires Tiles(buckets, start, to) && buckets != []
    ensures buckets[0].start == start && buckets[|buckets| - 1].end == to
    ensures forall k :: 0 < k < |buckets| ==> buckets[k].start == buckets[k - 1].end + 1
    ensures forall k :: 0 <= k < |buckets| ==> buckets[k].start <= buckets[k].end
  {
    var last := |buckets| - 1;
    if last > 0 {
      BucketsMeet(buckets[..last], start, buckets[last].start - 1);
    }
  }

  lemma AddedStep(hires: seq<Hire>, buckets: seq<Bucket>)
    requires buckets != []
    ensures var front, last := buckets[..|buckets| - 1], buckets[|buckets| - 1];
            Added(HeadcountTrend(hires, buckets))
            == Added(HeadcountTrend(hires, front)) + CountIn(hires, last.start, last.end)
  {
    var front := buckets[..|buckets| - 1];
    assert HeadcountTrend(hires, buckets)[..|front|] == HeadcountTrend(hires, front);
  }

  /** The additions of the whole trend are the hires since the first bucket's start. */
  lemma {:induction false} AddedSinceStart(hires: seq<Hire>, buckets: seq<Bucket>, start: int, to: int)
    requires Tiles(buckets, start, to)
    ensures start - 1 <= to && Added(HeadcountTrend(hires, buckets)) == CountIn(hires, start, to)
  {
    if buckets == [] {
      CountsMeet(hires, start, to);
    } else {
      var last := buckets[|buckets| - 1];
      AddedSinceStart(hires, buckets[..|buckets| - 1], start, last.start - 1);
      AddedStep(hires, buckets);
      CountsJoin(hires, start, last.start - 1, to);
    }
  }

  lemma CountsJoin(hires: seq<Hire>, from: int, mid: int, to: int)
    requires from - 1 <= mid <= to
    ensures CountIn(hires, from, to) == CountIn(hires, from, mid) + CountIn(hires, mid + 1, to)
  {
    CountsMeet(hires, from, to);
    CountsMeet(hires, from, mid);
    CountsMeet(hires, mid + 1, to);
  }

  /** They are the summary's new employees exactly when nobody was hired between the first bucket's start
      and the start of the range. */
  lemma AddedAreNewIff(hires: seq<Hire>, buckets: seq<Bucket>, start: int, from: int, to: int)
    requires Tiles(buckets, start, to) && start <= from <= to
    ensures Added(HeadcountTrend(hires, buckets)) == CountIn(hires, from, to) <==> CountIn(hires, start, from - 1) == 0
  {
    AddedSinceStart(hires, buckets, start, to);
    CountsJoin(hires, start, from - 1, to);
  }

  /** A bucket from 0, a range from 5, and somebody hired at 3: one is added and nobody is new. */
  lemma EarlyHireIsAddedButNotNew()
    ensures Tiles([Bucket(0, 10)], 0, 10)
    ensures Added(HeadcountTrend([Hire(3, true)], [Bucket(0, 10)])) == 1 && CountIn([Hire(3, true)], 5, 10) == 0
  {
    assert [Bucket(0, 10)][..0] == [] && [Hire(3, true)][..0] == [];
    AddedSinceStart([Hire(3, true)], [Bucket(0, 10)], 0, 10);
  }

  // ---------- payroll ----------

  /** A number of batches and their totals. */
  datatype Figure = Figure(count: int, totals: Totals)
  {
    function Plus(f: Figure): Figure {
      Figure(count + f.count, totals.Plus(f.totals))
    }
  }

  const NOTHING := Figure(0, ZERO)

  datatype BatchRow = BatchRow(period: int, status: string, totals: Totals)

  function FigureOf(row: BatchRow): Figure {
    Figure(1, row.totals)
  }

  function Summary(rows: seq<BatchRow>): Figure {
    if rows == [] then NOTHING else Summary(rows[..|rows| - 1]).Plus(FigureOf(rows[|rows| - 1]))
  }

  /** The figure of the batches dated within the bounds. */
  function FigureIn(c: Calendar, rows: seq<BatchRow>, from: int, to: int): Figure {
    if rows == [] then NOTHING
    else
      var last := rows[|rows| - 1];
      var before := FigureIn(c, rows[..|rows| - 1], from, to);
      if from <= c.monthStart(last.period) <= to then before.Plus(FigureOf(last)) else before
  }

  function PayrollTrend(c: Calendar, rows: seq<BatchRow>, buckets: seq<Bucket>): (trend: seq<Figure>)
    ensures |trend| == |buckets|
    ensures forall k :: 0 <= k < |buckets| ==> trend[k] == FigureIn(c, rows, buckets[k].start, buckets[k].end)
  {
    if buckets == [] then []
    else
      var last := |buckets| - 1;
      PayrollTrend(c, rows, buckets[..last]) + [FigureIn(c, rows, buckets[last].start, buckets[last].end)]
  }

  function Total(trend: seq<Figure>): Figure {
    if trend == [] then NOTHING else Total(trend[..|trend| - 1]).Plus(trend[|trend| - 1])
  }

  lemma PlusLaws(a: Figure, b: Figure, x: Figure)
    ensures a.Plus(NOTHING) == a && NOTHING.Plus(a) == a
    ensures a.Plus(b).Plus(x) == a.Plus(b.Plus(x)) == a.Plus(x).Plus(b)
  {
  }

  lemma {:induction false} FiguresMeet(c: Calendar, rows: seq<BatchRow>, from: int, mid: int, to: int)
    requires from - 1 <= mid <= to
    ensures FigureIn(c, rows, from, to) == FigureIn(c, rows, from, mid).Plus(FigureIn(c, rows, mid + 1, to))
  {
    if rows != [] {
      var front, last := rows[..|rows| - 1], rows[|rows| - 1];
      FiguresMeet(c, front, from, mid, to);
      PlusLaws(FigureIn(c, front, from, mid), FigureIn(c, front, mid + 1, to), FigureOf(last));
    }
  }

  lemma {:induction false} NothingOutside(c: Calendar, rows: seq<BatchRow>, from: int, to: int)
    requires to < from
    ensures FigureIn(c, rows, from, to) == NOTHING
  {
    if rows != [] {
      NothingOutside(c, rows[..|rows| - 1], from, to);
    }
  }

  lemma {:induction false} TrendTotal(c: Calendar, rows: seq<BatchRow>, buckets: seq<Bucket>, start: int, to: int)
    requires Tiles(buckets, start, to)
    ensures start - 1 <= to && Total(PayrollTrend(c, rows, buckets)) == FigureIn(c, rows, start, to)
  {
    if buckets == [] {
      NothingOutside(c, rows, start, to);
    } else {
      var front, last := buckets[..|buckets| - 1], buckets[|buckets| - 1];
      TrendTotal(c, rows, front, start, last.start - 1);
      assert PayrollTrend(c, rows, buckets)[..|front|] == PayrollTrend(c, rows, front);
      FiguresMeet(c, rows, start, last.start - 1, to);
    }
  }

  /** The batches of the periods that the range's months cover. */
  function InRange(c: Calendar, rows: seq<BatchRow>, from: int, to: int): seq<BatchRow> {
    if rows == [] then []
    else
      var last := rows[|rows| - 1];
      InRange(c, rows[..|rows| - 1], from, to) + if c.monthOf(from) <= last.period <= c.monthOf(to) then [last] else []
  }

  function StartOfMonth(c: Calendar, t: int): int {
    c.monthStart(c.monthOf(t))
  }

  function EndOfMonth(c: Calendar, t: int): int {
    c.monthStart(c.monthOf(t) + 1) - 1
  }

  lemma Snoc(c: Calendar, rows: seq<BatchRow>, row: BatchRow)
    ensures Summary(rows + [row]) == Summary(rows).Plus(FigureOf(row))
    ensures forall from, to ::
              FigureIn(c, rows + [row], from, to) ==
              if from <= c.monthStart(row.period) <= to then FigureIn(c, rows, from, to).Plus(FigureOf(row))
              else FigureIn(c, rows, from, to)
    ensures forall status ::
              WithStatus(rows + [row], status)
              == WithStatus(rows, status) + if row.status == status then [row] else []
  {
    assert (rows + [row])[..|rows|] == rows;
  }

  lemma PeriodDate(c: Calendar, period: int, from: int, to: int, start: int)
    requires IsCalendar(c) && start <= StartOfMonth(c, from) && c.monthOf(from) <= period <= c.monthOf(to)
    ensures start <= c.monthStart(period) <= EndOfMonth(c, to)
  {
    MonthsIncrease(c, c.monthOf(from), period);
    MonthsIncrease(c, period, c.monthOf(to) + 1);
  }

  lemma {:induction false} RangeIsDated(c: Calendar, rows: seq<BatchRow>, from: int, to: int, start: int)
    requires IsCalendar(c) && start <= StartOfMonth(c, from)
    ensures FigureIn(c, InRange(c, rows, from, to), start, EndOfMonth(c, to)) == Summary(InRange(c, rows, from, to))
  {
    if rows != [] {
      var front, last := rows[..|rows| - 1], rows[|rows| - 1];
      RangeIsDated(c, front, from, to, start);
      if c.monthOf(from) <= last.period <= c.monthOf(to) {
        PeriodDate(c, last.period, from, to, start);
        Snoc(c, InRange(c, front, from, to), last);
      } else {
        assert InRange(c, rows, from, to) == InRange(c, front, from, to);
      }
    }
  }

  /** The batches of the range are those dated from the start of its first month to the end of its last. */
  lemma {:induction false} RangeIsByDate(c: Calendar, rows: seq<BatchRow>, from: int, to: int)
    requires IsCalendar(c)
    ensures Summary(InRange(c, rows, from, to))
            == FigureIn(c, rows, c.monthStart(c.monthOf(from)), c.monthStart(c.monthOf(to) + 1) - 1)
  {
    if rows != [] {
      var front, last := rows[..|rows| - 1], rows[|rows| - 1];
      RangeIsByDate(c, front, from, to);
      PeriodInMonths(c, last.period, from, to);
      if c.monthOf(from) <= last.period <= c.monthOf(to) {
        Snoc(c, InRange(c, front, from, to), last);
      } else {
        assert InRange(c, rows, from, to) == InRange(c, front, from, to);
      }
    }
  }

  lemma PeriodInMonths(c: Calendar, period: int, from: int, to: int)
    requires IsCalendar(c)
    ensures c.monthOf(from) <= period <= c.monthOf(to) <==>
            c.monthStart(c.monthOf(from)) <= c.monthStart(period) <= c.monthStart(c.monthOf(to) + 1) - 1
  {
    if c.monthOf(from) <= period {
      MonthsIncrease(c, c.monthOf(from), period);
    } else {
      MonthsIncrease(c, period, c.monthOf(from));
    }
    if period <= c.monthOf(to) {
      MonthsIncrease(c, period, c.monthOf(to) + 1);
    } else {
      MonthsIncrease(c, c.monthOf(to) + 1, period);
    }
  }

  function TotalsAt(rows: seq<BatchRow>): nat -> Totals {
    (n: nat) => if n < |rows| then rows[n].totals else ZERO
  }

  /** A summary counts the batches and adds up their totals. */
  lemma {:induction false} SummaryIsSum(rows: seq<BatchRow>)
    ensures Summary(rows) == Figure(|rows|, Sum(|rows|, TotalsAt(rows)))
  {
    if rows != [] {
      var front := rows[..|rows| - 1];
      SummaryIsSum(front);
      SumCongruent(|front|, TotalsAt(front), TotalsAt(rows));
    }
  }

  predicate IsDated(c: Calendar, row: BatchRow, from: int, to: int) {
    from <= c.monthStart(row.period) && c.monthStart(row.period) <= to
  }

  function DatedTotals(c: Calendar, rows: seq<BatchRow>, from: int, to: int): nat -> Totals {
    (k: nat) => if k < |rows| && IsDated(c, rows[k], from, to) then rows[k].totals else ZERO
  }

  function Dated(c: Calendar, rows: seq<BatchRow>, from: int, to: int): set<int> {
    set k | 0 <= k < |rows| && IsDated(c, rows[k], from, to)
  }

  /** The figure of a range counts the batches whose month starts in it and adds up their totals. */
  lemma {:induction false} FigureIsSum(c: Calendar, rows: seq<BatchRow>, from: int, to: int)
    ensures FigureIn(c, rows, from, to)
            == Figure(|Dated(c, rows, from, to)|, Sum(|rows|, DatedTotals(c, rows, from, to)))
  {
    if rows == [] {
      assert Dated(c, [], from, to) == {};
    } else {
      var front, last := rows[..|rows| - 1], rows[|rows| - 1];
      FigureIsSum(c, front, from, to);
      SumCongruent(|front|, DatedTotals(c, front, from, to), DatedTotals(c, rows, from, to));
      assert Dated(c, rows, from, to)
          == Dated(c, front, from, to) + if IsDated(c, last, from, to) then {|front|} else {};
      assert forall t: Totals :: t.Plus(ZERO) == t;
    }
  }

  /** The payroll trend's figures add up to the summary, by months or by years. */
  method PayrollAnalytics(c: Calendar, rows: seq<BatchRow>, from: int, to: int, interval: Interval)
    returns (trend: seq<Figure>, distribution: map<string, Figure>)
    requires IsCalendar(c) && from <= to && interval in {Month, Year}
    ensures Total(trend) == Summary(InRange(c, rows, from, to))
    ensures Total(trend) == FigureIn(c, rows, c.monthStart(c.monthOf(from)), c.monthStart(c.monthOf(to) + 1) - 1)
    ensures forall status :: status in distribution <==> Occurs(InRange(c, rows, from, to), status)
    ensures forall status :: status in distribution ==>
              distribution[status] == Summary(WithStatus(InRange(c, rows, from, to), status))
  {
    var batches := InRange(c, rows, from, to);
    MonthsIncrease(c, c.monthOf(from), c.monthOf(from));
    RangeReachesEnd(c, from, to);
    var buckets := BuildBuckets(c, StartOfMonth(c, from), EndOfMonth(c, to), interval);
    trend := PayrollTrend(c, batches, buckets);
    var start := AlignDate(c, StartOfMonth(c, from), interval);
    AlignedIsNotLater(c, StartOfMonth(c, from), interval);
    TrendTotal(c, batches, buckets, start, EndOfMonth(c, to));
    RangeIsDated(c, rows, from, to, start);
    RangeIsByDate(c, rows, from, to);
    distribution := StatusDistribution(batches);
  }

  lemma RangeReachesEnd(c: Calendar, from: int, to: int)
    requires IsCalendar(c) && from <= to
    ensures StartOfMonth(c, from) <= EndOfMonth(c, to)
  {
  }

  predicate Occurs(rows: seq<BatchRow>, status: string) {
    exists k | 0 <= k < |rows| :: rows[k].status == status
  }

  function WithStatus(rows: seq<BatchRow>, status: string): seq<BatchRow> {
    if rows == [] then []
    else
      var last := rows[|rows| - 1];
      WithStatus(rows[..|rows| - 1], status) + if last.status == status then [last] else []
  }

  /** One entry for each status that occurs, updated batch by batch. */
  method StatusDistribution(rows: seq<BatchRow>) returns (distribution: map<string, Figure>)
    ensures forall status :: status in distribution <==> Occurs(rows, status)
    ensures forall status :: status in distribution ==> distribution[status] == Summary(WithStatus(rows, status))
  {
    distribution := map[];
    for n := 0 to |rows|
      invariant Distributes(distribution, rows[..n])
    {
      var current := if rows[n].status in distribution then distribution[rows[n].status] else NOTHING;
      DistributionGrows(distribution, rows[..n], rows[n]);
      assert rows[..n + 1] == rows[..n] + [rows[n]];
      distribution := distribution[rows[n].status := current.Plus(FigureOf(rows[n]))];
    }
    assert rows[..|rows|] == rows;
    Distributed(distribution, rows);
  }

  lemma Distributed(distribution: map<string, Figure>, rows: seq<BatchRow>)
    requires Distributes(distribution, rows)
    ensures forall status :: status in distribution <==> Occurs(rows, status)
    ensures forall status :: status in distribution ==> distribution[status] == Summary(WithStatus(rows, status))
  {
    forall status ensures
      && (status in distribution <==> Occurs(rows, status))
      && (status in distribution ==> distribution[status] == Summary(WithStatus(rows, status)))
    {
      assert DistributesAt(distribution, rows, status);
    }
  }

  /** Exactly the statuses that occur, each with the sum of its batches. */
  ghost predicate Distributes(distribution: map<string, Figure>, rows: seq<BatchRow>) {
    forall status :: DistributesAt(distribution, rows, status)
  }

  predicate DistributesAt(distribution: map<string, Figure>, rows: seq<BatchRow>, status: string) {
    && (status in distribution <==> Occurs(rows, status))
    && (status in distribution ==> distribution[status] == Summary(WithStatus(rows, status)))
  }

  /** With another batch, its status has one more. */
  lemma DistributionGrows(distribution: map<string, Figure>, rows: seq<BatchRow>, row: BatchRow)
    requires Distributes(distribution, rows)
    ensures var current := if row.status in distribution then distribution[row.status] else NOTHING;
            Distributes(distribution[row.status := current.Plus(FigureOf(row))], rows + [row])
  {
    var current := if row.status in distribution then distribution[row.status] else NOTHING;
    var after, longer := distribution[row.status := current.Plus(FigureOf(row))], rows + [row];
    forall status ensures DistributesAt(after, longer, status) {
      EntryGrows(distribution, rows, row, status);
    }
  }

  lemma EntryGrows(distribution: map<string, Figure>, rows: seq<BatchRow>, row: BatchRow, status: string)
    requires DistributesAt(distribution, rows, status)
    ensures var current := if row.status in distribution then distribution[row.status] else NOTHING;
            DistributesAt(distribution[row.status := current.Plus(FigureOf(row))], rows + [row], status)
  {
    if !Occurs(rows, status) {
      NoneWithStatus(rows, status);
    }
    OccursStep(rows, row, status);
    SummaryOfStatus(rows, row, status);
  }

  lemma SummaryOfStatus(rows: seq<BatchRow>, row: BatchRow, status: string)
    ensures var before, after := Summary(WithStatus(rows, status)), Summary(WithStatus(rows + [row], status));
            after == if row.status == status then before.Plus(FigureOf(row)) else before
  {
    assert (rows + [row])[..|rows|] == rows;
    var before := WithStatus(rows, status);
    if row.status == status {
      assert (before + [row])[..|before|] == before;
    } else {
      assert before + [] == before;
    }
  }

  lemma OccursStep(rows: seq<BatchRow>, row: BatchRow, status: string)
    ensures Occurs(rows + [row], status) <==> Occurs(rows, status) || status == row.status
  {
    if Occurs(rows, status) {
      var k :| 0 <= k < |rows| && rows[k].status == status;
      assert (rows + [row])[k].status == status;
    }
    assert (rows + [row])[|rows|] == row;
  }

  lemma {:induction false} NoneWithStatus(rows: seq<BatchRow>, status: string)
    requires !Occurs(rows, status)
    ensures WithStatus(rows, status) == []
  {
    if rows != [] {
      var last := |rows| - 1;
      assert rows[last].status != status;
      forall k | 0 <= k < last ensures rows[..last][k].status != status {
        assert rows[k].status != status;
      }
      NoneWithStatus(rows[..last], status);
    }
  }

  /** The sum of a distribution's entries over a list of statuses. */
  function SumOver(statuses: seq<string>, rows: seq<BatchRow>): Figure {
    if statuses == [] then NOTHING
    else
      SumOver(statuses[..|statuses| - 1], rows).Plus(Summary(WithStatus(rows, statuses[|statuses| - 1])))
  }

  ghost predicate NoRepeats(statuses: seq<string>) {
    forall j, k :: 0 <= j < k < |statuses| ==> statuses[j] != statuses[k]
  }

  lemma {:induction false} SumOverGrows(statuses: seq<string>, rows: seq<BatchRow>, row: BatchRow)
    requires NoRepeats(statuses)
    ensures SumOver(statuses, rows + [row]) ==
            if row.status in statuses then SumOver(statuses, rows).Plus(FigureOf(row)) else SumOver(statuses, rows)
  {
    if statuses != [] {
      var front, last := statuses[..|statuses| - 1], statuses[|statuses| - 1];
      SumOverGrows(front, rows, row);
      SummaryOfStatus(rows, row, last);
      assert statuses == front + [last];
      PlusLaws(SumOver(front, rows), Summary(WithStatus(rows, last)), FigureOf(row));
    }
  }

  ghost predicate AllListed(rows: seq<BatchRow>, statuses: seq<string>) {
    forall k :: 0 <= k < |rows| ==> rows[k].status in statuses
  }

  lemma ListedPrefix(rows: seq<BatchRow>, statuses: seq<string>)
    requires AllListed(rows, statuses) && rows != []
    ensures AllListed(rows[..|rows| - 1], statuses) && rows[|rows| - 1].status in statuses
    ensures rows[..|rows| - 1] + [rows[|rows| - 1]] == rows
  {
  }

  lemma SummaryGrows(rows: seq<BatchRow>, row: BatchRow)
    ensures Summary(rows + [row]) == Summary(rows).Plus(FigureOf(row))
  {
    assert (rows + [row])[..|rows|] == rows;
  }

  lemma DistributionStep(statuses: seq<string>, rows: seq<BatchRow>, row: BatchRow)
    requires NoRepeats(statuses)
    requires row.status in statuses && SumOver(statuses, rows) == Summary(rows)
    ensures SumOver(statuses, rows + [row]) == Summary(rows + [row])
  {
    SumOverGrows(statuses, rows, row);
    SummaryGrows(rows, row);
  }

  /** Listed in any order, each once, the statuses' figures add up to the summary. */
  lemma {:induction false} DistributionAddsUp(statuses: seq<string>, rows: seq<BatchRow>)
    requires NoRepeats(statuses)
    requires AllListed(rows, statuses)
    ensures SumOver(statuses, rows) == Summary(rows)
  {
    if rows == [] {
      NoRowsNoSum(statuses);
    } else {
      var last := |rows| - 1;
      ListedPrefix(rows, statuses);
      DistributionAddsUp(statuses, rows[..last]);
      DistributionStep(statuses, rows[..last], rows[last]);
    }
  }

  lemma {:induction false} NoRowsNoSum(statuses: seq<string>)
    ensures SumOver(statuses, []) == NOTHING
  {
    if statuses != [] {
      NoRowsNoSum(statuses[..|statuses| - 1]);
    }
  }
}
