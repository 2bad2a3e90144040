/** The seed's hire dates: employees shared out over the months by largest remainders. */
module HireDates {
  import opened Wrappers
  import opened Sets

  // ---------- the weights and what they share out ----------

  function Weight(offset: nat): (w: nat)
    ensures 4 <= w <= 26
  {
    var baseline := 8 + (offset * 5) % 9;
    var hiringWave := if offset % 6 == 0 then 10 else if offset % 5 == 0 then 5 else 0;
    var quietMonth := if offset % 7 == 3 then -4 else 0;
    var weight := baseline + hiringWave + quietMonth;
    Max(4, weight)
  }

  function Max(a: int, b: int): int {
    if a >= b then a else b
  }

  function Weights(months: nat): (ws: seq<nat>)
    ensures |ws| == months
    ensures forall o :: 0 <= o < months ==> ws[o] == Weight(o)
  {
    if months == 0 then [] else Weights(months - 1) + [Weight(months - 1)]
  }

  /** A year of months: the baseline climbs by fives modulo nine, with a wave every sixth and a smaller one
      every fifth month, and a dip in the third of every seven. */
  lemma FirstYearOfWeights()
    ensures [Weight(0), Weight(1), Weight(2), Weight(3), Weight(4), Weight(5)] == [18, 13, 9, 10, 10, 20]
    ensures [Weight(6), Weight(7), Weight(8), Weight(9), Weight(10), Weight(11)] == [21, 16, 12, 8, 14, 9]
  {
  }

  function Sum(s: seq<int>): int {
    if s == [] then 0 else Sum(s[..|s| - 1]) + s[|s| - 1]
  }

  function Floor(total: nat, weight: nat, whole: nat): nat
    requires whole > 0
  {
    (total * weight) / whole
  }

  /** The exact share less its floor, in units of one over the total weight. */
  function Remainder(total: nat, weight: nat, whole: nat): (r: nat)
    requires whole > 0
    ensures r < whole
  {
    (total * weight) % whole
  }

  function Floors(total: nat, weights: seq<nat>, whole: nat): (qs: seq<int>)
    requires whole > 0
    ensures |qs| == |weights|
  {
    if weights == [] then []
    else Floors(total, weights[..|weights| - 1], whole) + [Floor(total, weights[|weights| - 1], whole)]
  }

  function Remainders(total: nat, weights: seq<nat>, whole: nat): (rs: seq<int>)
    requires whole > 0
    ensures |rs| == |weights|
  {
    if weights == [] then []
    else Remainders(total, weights[..|weights| - 1], whole) + [Remainder(total, weights[|weights| - 1], whole)]
  }

  /** Month by month: the floor of the share, and what is left of it. */
  lemma {:induction false} SharesAt(total: nat, weights: seq<nat>, whole: nat, o: nat)
    requires whole > 0 && o < |weights|
    ensures Floors(total, weights, whole)[o] == Floor(total, weights[o], whole)
    ensures Remainders(total, weights, whole)[o] == Remainder(total, weights[o], whole)
  {
    if o < |weights| - 1 {
      SharesAt(total, weights[..|weights| - 1], whole, o);
    }
  }

  lemma Divides(total: nat, weight: nat, whole: nat)
    requires whole > 0
    ensures total * weight == whole * Floor(total, weight, whole) + Remainder(total, weight, whole)
  {
  }

  /** Floors and remainders account for every employee. */
  lemma {:induction false} FloorsAndRemaindersAddUp(total: nat, weights: seq<nat>, whole: nat)
    requires whole > 0
    ensures total * Sum(weights) == whole * Sum(Floors(total, weights, whole)) + Sum(Remainders(total, weights, whole))
  {
    if weights != [] {
      var front, last := weights[..|weights| - 1], weights[|weights| - 1];
      FloorsAndRemaindersAddUp(total, front, whole);
      Divides(total, last, whole);
      var fs, rs := Floors(total, weights, whole), Remainders(total, weights, whole);
      assert fs[..|fs| - 1] == Floors(total, front, whole);
      assert rs[..|rs| - 1] == Remainders(total, front, whole);
      Distribute(total, Sum(front), last);
      Distribute(whole, Sum(fs[..|fs| - 1]), fs[|fs| - 1]);
    }
  }

  lemma Distribute(a: int, b: int, c: int)
    ensures a * (b + c) == a * b + a * c
  {
  }

  function Positive(rs: seq<int>): set<nat> {
    set o: nat | o < |rs| && rs[o] > 0
  }

  /** `n` times `amount`, by adding. */
  function Times(n: nat, amount: int): int {
    if n == 0 then 0 else Times(n - 1, amount) + amount
  }

  lemma {:induction false} TimesIsProduct(n: nat, amount: int)
    ensures Times(n, amount) == n * amount
  {
    if n > 0 {
      TimesIsProduct(n - 1, amount);
      Distribute(amount, n - 1, 1);
    }
  }

  lemma PositiveGrows(rs: seq<int>, r: int)
    ensures Positive(rs + [r]) == if r > 0 then Positive(rs) + {|rs|} else Positive(rs)
    ensures |Positive(rs + [r])| == if r > 0 then |Positive(rs)| + 1 else |Positive(rs)|
  {
    assert Positive(rs + [r]) == if r > 0 then Positive(rs) + {|rs|} else Positive(rs);
  }

  /** Each positive entry is below `whole`, so the sum is that much below the number of positive entries. */
  lemma {:induction false} SumBelowPositives(rs: seq<int>, whole: nat)
    requires forall o :: 0 <= o < |rs| ==> 0 <= rs[o] < whole
    ensures 0 <= Sum(rs) <= Times(|Positive(rs)|, whole - 1)
  {
    if rs != [] {
      var front, last := rs[..|rs| - 1], rs[|rs| - 1];
      assert rs == front + [last];
      SumBelowPositives(front, whole);
      PositiveGrows(front, last);
    }
  }

  /** What the floors leave over is fewer than the months with a fraction, or nothing. */
  lemma LeftOver(total: nat, weights: seq<nat>)
    requires Sum(weights) > 0
    ensures var left := total - Sum(Floors(total, weights, Sum(weights)));
            var fractions := |Positive(Remainders(total, weights, Sum(weights)))|;
            0 <= left && (left < fractions || left == 0)
  {
    var whole := Sum(weights);
    var rs := Remainders(total, weights, whole);
    FloorsAndRemaindersAddUp(total, weights, whole);
    forall o | 0 <= o < |rs| ensures 0 <= rs[o] < whole {
      SharesAt(total, weights, whole, o);
    }
    SumBelowPositives(rs, whole);
    FewerThanFractions(whole, total, Sum(Floors(total, weights, whole)), Sum(rs), |Positive(rs)|);
  }

  lemma FewerThanFractions(whole: nat, total: int, floors: int, rest: int, fractions: nat)
    requires whole > 0 && total * whole == whole * floors + rest && 0 <= rest <= Times(fractions, whole - 1)
    ensures 0 <= total - floors && (total - floors < fractions || total == floors)
  {
    var left := total - floors;
    TimesIsProduct(fractions, whole - 1);
    Distribute(fractions, whole, -1);
    Distribute(whole, total, -floors);
    assert whole * left == rest <= whole * fractions - fractions;
    LessByFactor(whole, left, fractions);
  }

  lemma LessByFactor(whole: nat, left: int, fractions: nat)
    requires whole > 0 && 0 <= whole * left <= whole * fractions - fractions
    ensures 0 <= left && (left < fractions || left == 0)
  {
    assert left < 0 ==> whole * left < 0;
    assert left >= fractions ==> whole * left >= whole * fractions;
  }

  // ---------- ranking the remainders ----------

  datatype Share = Share(offset: nat, remainder: int)

  /** Before in the ranking: a larger remainder, or the same in an earlier month. */
  predicate Before(a: Share, b: Share) {
    a.remainder > b.remainder || (a.remainder == b.remainder && a.offset < b.offset)
  }

  /** A later month goes behind every remainder at least as large. */
  function Insert(order: seq<Share>, share: Share): seq<Share> {
    if order == [] then [share]
    else
      var last := |order| - 1;
      if order[last].remainder >= share.remainder then order + [share]
      else Insert(order[..last], share) + [order[last]]
  }

  /** The stable sort of the months' remainders, largest first. */
  function Ranking(rs: seq<int>): seq<Share> {
    if rs == [] then [] else Insert(Ranking(rs[..|rs| - 1]), Share(|rs| - 1, rs[|rs| - 1]))
  }

  ghost predicate Ranked(order: seq<Share>) {
    forall j, k :: 0 <= j < k < |order| ==> Before(order[j], order[k])
  }

  lemma {:induction false} InsertContents(order: seq<Share>, share: Share)
    ensures |Insert(order, share)| == |order| + 1
    ensures forall x :: x in Insert(order, share) <==> x in order || x == share
  {
    if order != [] {
      InsertContents(order[..|order| - 1], share);
      assert order == order[..|order| - 1] + [order[|order| - 1]];
    }
  }

  lemma {:induction false} InsertKeepsRanking(order: seq<Share>, share: Share)
    requires Ranked(order) && forall x :: x in order ==> x.offset < share.offset
    ensures Ranked(Insert(order, share))
  {
    if order != [] {
      var front := order[..|order| - 1];
      InsertKeepsRanking(front, share);
      InsertContents(front, share);
      var rest := Insert(front, share);
      forall k | 0 <= k < |rest| ensures rest[k] in front || rest[k] == share {
        assert rest[k] in rest;
      }
    }
  }

  /** The ranking lists each month once with its remainder, in order. */
  lemma {:induction false} RankingSorts(rs: seq<int>)
    ensures |Ranking(rs)| == |rs| && Ranked(Ranking(rs))
    ensures forall x :: x in Ranking(rs) <==> x.offset < |rs| && x.remainder == rs[x.offset]
  {
    if rs != [] {
      var last := |rs| - 1;
      RankingSorts(rs[..last]);
      InsertContents(Ranking(rs[..last]), Share(last, rs[last]));
      InsertKeepsRanking(Ranking(rs[..last]), Share(last, rs[last]));
    }
  }

  function OffsetsOf(order: seq<Share>): (offsets: set<nat>) {
    set k | 0 <= k < |order| :: order[k].offset
  }

  lemma {:induction false} NoMoreOffsetsThanRanks(order: seq<Share>)
    ensures |OffsetsOf(order)| <= |order|
  {
    if order != [] {
      var front, last := order[..|order| - 1], order[|order| - 1];
      NoMoreOffsetsThanRanks(front);
      assert OffsetsOf(order) == OffsetsOf(front) + {last.offset};
    }
  }

  /** From the first rank without a fraction on, no rank has one. */
  lemma FractionsRankFirst(rs: seq<int>, k: nat)
    requires k < |rs| == |Ranking(rs)| && Ranking(rs)[k].remainder <= 0
    ensures |Positive(rs)| <= k
  {
    RankingSorts(rs);
    var order := Ranking(rs);
    forall o | o in Positive(rs) ensures o in OffsetsOf(order[..k]) {
      assert Share(o, rs[o]) in order;
      var j :| 0 <= j < |order| && order[j] == Share(o, rs[o]);
      assert order[..k][j] == order[j];
    }
    SubsetIsSmaller(Positive(rs), OffsetsOf(order[..k]));
    NoMoreOffsetsThanRanks(order[..k]);
  }

  lemma FractionsAreMonths(rs: seq<int>)
    ensures |Positive(rs)| <= |rs|
  {
    RankingSorts(rs);
    forall o | o in Positive(rs) ensures o in OffsetsOf(Ranking(rs)) {
      assert Share(o, rs[o]) in Ranking(rs);
    }
    SubsetIsSmaller(Positive(rs), OffsetsOf(Ranking(rs)));
    NoMoreOffsetsThanRanks(Ranking(rs));
  }

  /** As many top ranks are fractions as there are fractions. */
  lemma TopRanksArePositive(rs: seq<int>, k: nat)
    requires k < |Positive(rs)|
    ensures k < |rs| == |Ranking(rs)| && Ranking(rs)[k].remainder > 0
  {
    RankingSorts(rs);
    FractionsAreMonths(rs);
    if Ranking(rs)[k].remainder <= 0 {
      FractionsRankFirst(rs, k);
    }
  }

  // ---------- the quotas ----------

  /** Month `o` is among the first `extra` ranks. */
  predicate AmongFirst(order: seq<Share>, extra: nat, o: nat)
    requires extra <= |order|
  {
    exists k | 0 <= k < extra :: order[k].offset == o
  }

  /** Each month gets its floor or, if it has a fraction, its ceiling, and the months rounded up rank before
      those that are not. */
  ghost predicate RoundedByRank(floors: seq<int>, rs: seq<int>, quotas: seq<int>)
    requires |floors| == |rs| == |quotas|
  {
    && (forall o :: 0 <= o < |rs| ==> quotas[o] == floors[o] || (quotas[o] == floors[o] + 1 && rs[o] > 0))
    && (forall a: nat, b: nat | a < |rs| && b < |rs| ::
          quotas[a] > floors[a] && quotas[b] == floors[b] ==> Before(Share(a, rs[a]), Share(b, rs[b])))
  }

  /** A largest-remainder apportionment of everyone. */
  ghost predicate Apportioned(total: nat, weights: seq<nat>, quotas: seq<int>)
    requires Sum(weights) > 0
  {
    |quotas| == |weights|
    && ApportionedBy(total, Floors(total, weights, Sum(weights)), Remainders(total, weights, Sum(weights)), quotas)
  }

  ghost predicate ApportionedBy(total: nat, floors: seq<int>, rs: seq<int>, quotas: seq<int>)
    requires |floors| == |rs| == |quotas|
  {
    Sum(quotas) == total && RoundedByRank(floors, rs, quotas)
  }

  lemma {:induction false} SumOfUpdate(s: seq<int>, o: nat, x: int)
    requires o < |s|
    ensures Sum(s[o := x]) == Sum(s) - s[o] + x
  {
    var last := |s| - 1;
    if o < last {
      SumOfUpdate(s[..last], o, x);
      assert s[o := x][..last] == s[..last][o := x];
    } else {
      assert s[o := x][..last] == s[..last];
    }
  }

  /** One more for each of the first ranks, as many as there are fractions at most, rounds by rank. */
  lemma FirstRanksRound(floors: seq<int>, rs: seq<int>, quotas: seq<int>, left: nat)
    requires |floors| == |rs| == |quotas| == |Ranking(rs)| && left <= |rs| && left <= |Positive(rs)|
    requires forall o: nat :: o < |rs| ==> quotas[o] == floors[o] + if AmongFirst(Ranking(rs), left, o) then 1 else 0
    ensures RoundedByRank(floors, rs, quotas)
  {
    forall o: nat | o < |rs| && AmongFirst(Ranking(rs), left, o) ensures rs[o] > 0 {
      FirstRankIsPositive(rs, left, o);
    }
    forall a: nat, b: nat
      | a < |rs| && b < |rs| && AmongFirst(Ranking(rs), left, a) && !AmongFirst(Ranking(rs), left, b)
      ensures Before(Share(a, rs[a]), Share(b, rs[b]))
    {
      RanksBefore(rs, left, a, b);
    }
  }

  lemma FirstRankIsPositive(rs: seq<int>, left: nat, o: nat)
    requires o < |rs| == |Ranking(rs)| && left <= |rs| && left <= |Positive(rs)| && AmongFirst(Ranking(rs), left, o)
    ensures rs[o] > 0
  {
    RankingSorts(rs);
    var k :| 0 <= k < left && Ranking(rs)[k].offset == o;
    TopRanksArePositive(rs, k);
    assert Ranking(rs)[k] in Ranking(rs);
  }

  lemma RanksBefore(rs: seq<int>, extra: nat, a: nat, b: nat)
    requires a < |rs| && b < |rs| && extra <= |Ranking(rs)|
    requires AmongFirst(Ranking(rs), extra, a) && !AmongFirst(Ranking(rs), extra, b)
    ensures Before(Share(a, rs[a]), Share(b, rs[b]))
  {
    var order := Ranking(rs);
    RankingSorts(rs);
    var j :| 0 <= j < extra && order[j].offset == a;
    assert order[j] in order;
    assert Share(b, rs[b]) in order;
    var k :| 0 <= k < |order| && order[k] == Share(b, rs[b]);
  }

  lemma {:induction false} SumsCompare(s: seq<int>, t: seq<int>)
    requires |s| == |t| && forall o :: 0 <= o < |s| ==> s[o] >= t[o]
    ensures Sum(s) >= Sum(t) && (Sum(s) == Sum(t) ==> s == t)
  {
    if s != [] {
      SumsCompare(s[..|s| - 1], t[..|t| - 1]);
      assert s == s[..|s| - 1] + [s[|s| - 1]] && t == t[..|t| - 1] + [t[|t| - 1]];
    }
  }

  /** Nothing but the one list of quotas meets the description. */
  lemma ApportionmentIsUnique(floors: seq<int>, rs: seq<int>, s: seq<int>, t: seq<int>)
    requires |floors| == |rs| == |s| == |t| && Sum(s) == Sum(t)
    requires RoundedByRank(floors, rs, s) && RoundedByRank(floors, rs, t)
    ensures s == t
  {
    if a: nat :| a < |s| && s[a] > t[a] {
      if b: nat :| b < |s| && s[b] < t[b] {
        assert false;
      }
      SumsCompare(s, t);
    }
    SumsCompare(t, s);
  }

  /** The floors with one more for each of the first `extra` ranks. */
  function WithExtra(floors: seq<int>, order: seq<Share>, extra: nat): (quotas: seq<int>)
    requires extra <= |order| && forall k :: 0 <= k < |order| ==> order[k].offset < |floors|
    ensures |quotas| == |floors|
  {
    if extra == 0 then floors
    else
      var before := WithExtra(floors, order, extra - 1);
      var o := order[extra - 1].offset;
      before[o := before[o] + 1]
  }

  lemma {:induction false} WithExtraSum(floors: seq<int>, order: seq<Share>, extra: nat)
    requires extra <= |order| && forall k :: 0 <= k < |order| ==> order[k].offset < |floors|
    ensures Sum(WithExtra(floors, order, extra)) == Sum(floors) + extra
  {
    if extra > 0 {
      WithExtraSum(floors, order, extra - 1);
      var before := WithExtra(floors, order, extra - 1);
      var o := order[extra - 1].offset;
      SumOfUpdate(before, o, before[o] + 1);
    }
  }

  lemma {:induction false} WithExtraAt(floors: seq<int>, order: seq<Share>, extra: nat, o: nat)
    requires extra <= |order| && forall k :: 0 <= k < |order| ==> order[k].offset < |floors|
    requires forall j, k :: 0 <= j < k < |order| ==> order[j].offset != order[k].offset
    requires o < |floors|
    ensures WithExtra(floors, order, extra)[o] == floors[o] + if AmongFirst(order, extra, o) then 1 else 0
  {
    if extra > 0 {
      WithExtraAt(floors, order, extra - 1, o);
      assert AmongFirst(order, extra, o) <==> AmongFirst(order, extra - 1, o) || order[extra - 1].offset == o;
    }
  }

  lemma RankingOffsets(rs: seq<int>)
    ensures |Ranking(rs)| == |rs|
    ensures forall k :: 0 <= k < |rs| ==> Ranking(rs)[k].offset < |rs|
    ensures forall j, k :: 0 <= j < k < |rs| ==> Ranking(rs)[j].offset != Ranking(rs)[k].offset
  {
    RankingSorts(rs);
    var order := Ranking(rs);
    forall k | 0 <= k < |rs| ensures order[k].offset < |rs| && order[k].remainder == rs[order[k].offset] {
      assert order[k] in order;
    }
  }

  /** The quotas: floors first, then one more along the ranking until everyone is placed. */
  method ShareOut(total: nat, weights: seq<nat>) returns (quotas: array<int>)
    requires Sum(weights) > 0
    ensures fresh(quotas) && Apportioned(total, weights, quotas[..])
  {
    quotas := FloorQuotas(total, weights);
    var order := Ranking(Remainders(total, weights, Sum(weights)));
    RestFitsRanking(total, weights);
    PlaceRest(quotas, order, total);
    PlacedIsApportioned(total, weights, quotas[..]);
  }

  lemma RestFitsRanking(total: nat, weights: seq<nat>)
    requires Sum(weights) > 0
    ensures var floors, rs := Floors(total, weights, Sum(weights)), Remainders(total, weights, Sum(weights));
            && |Ranking(rs)| == |rs| && 0 <= total - Sum(floors) <= |rs| && total - Sum(floors) <= |Positive(rs)|
            && (forall k :: 0 <= k < |rs| ==> Ranking(rs)[k].offset < |rs|)
  {
    LeftOver(total, weights);
    RankingOffsets(Remainders(total, weights, Sum(weights)));
    FractionsAreMonths(Remainders(total, weights, Sum(weights)));
  }

  lemma PlacedIsApportioned(total: nat, weights: seq<nat>, quotas: seq<int>)
    requires Sum(weights) > 0
    requires var floors, rs := Floors(total, weights, Sum(weights)), Remainders(total, weights, Sum(weights));
             && |Ranking(rs)| == |rs| && 0 <= total - Sum(floors) <= |rs|
             && (forall k :: 0 <= k < |rs| ==> Ranking(rs)[k].offset < |rs|)
             && quotas == WithExtra(floors, Ranking(rs), total - Sum(floors))
    ensures Apportioned(total, weights, quotas)
  {
    var floors, rs := Floors(total, weights, Sum(weights)), Remainders(total, weights, Sum(weights));
    RestFitsRanking(total, weights);
    PlacedRounds(total, floors, rs, quotas, total - Sum(floors));
  }

  lemma PlacedRounds(total: nat, floors: seq<int>, rs: seq<int>, quotas: seq<int>, left: nat)
    requires |floors| == |rs| == |Ranking(rs)| && left <= |rs| && left <= |Positive(rs)| && left == total - Sum(floors)
    requires forall k :: 0 <= k < |rs| ==> Ranking(rs)[k].offset < |rs|
    requires quotas == WithExtra(floors, Ranking(rs), left)
    ensures |quotas| == |rs| && ApportionedBy(total, floors, rs, quotas)
  {
    RankingOffsets(rs);
    WithExtraSum(floors, Ranking(rs), left);
    forall o: nat | o < |rs| ensures quotas[o] == floors[o] + if AmongFirst(Ranking(rs), left, o) then 1 else 0 {
      WithExtraAt(floors, Ranking(rs), left, o);
    }
    FirstRanksRound(floors, rs, quotas, left);
  }

  /** The remainder loop: it never wraps round the ranking. */
  method PlaceRest(quotas: array<int>, order: seq<Share>, total: nat)
    requires forall k :: 0 <= k < |order| ==> order[k].offset < quotas.Length
    requires 0 <= total - Sum(quotas[..]) <= |order|
    modifies quotas
    ensures quotas[..] == WithExtra(old(quotas[..]), order, total - Sum(old(quotas[..])))
  {
    ghost var floors := quotas[..];
    var given := Sum(quotas[..]);
    var cursor := 0;
    while given < total
      invariant given == Sum(floors) + cursor <= total
      invariant quotas[..] == WithExtra(floors, order, cursor)
    {
      SmallRemainder(cursor, |order|);
      var o := order[cursor % |order|].offset;
      quotas[o] := quotas[o] + 1;
      cursor := cursor + 1;
      given := given + 1;
    }
  }

  lemma SmallRemainder(a: nat, b: nat)
    requires a < b
    ensures a % b == a
  {
  }

  method FloorQuotas(total: nat, weights: seq<nat>) returns (quotas: array<int>)
    requires Sum(weights) > 0
    ensures fresh(quotas) && quotas[..] == Floors(total, weights, Sum(weights))
  {
    var whole := Sum(weights);
    ghost var floors := Floors(total, weights, whole);
    quotas := new int[|weights|];
    for o := 0 to |weights|
      invariant quotas[..o] == floors[..o]
    {
      SharesAt(total, weights, whole, o);
      quotas[o] := Floor(total, weights[o], whole);
    }
  }

  // ---------- the dates ----------

  /** Months count from year 0; the day is within the month, from 1. */
  datatype Date = Date(month: int, day: int)

  predicate NotAfter(d: Date, today: Date) {
    d.month < today.month || (d.month == today.month && d.day <= today.day)
  }

  predicate IsLeap(year: int) {
    year % 4 == 0 && (year % 100 != 0 || year % 400 == 0)
  }

  function DaysInMonth(month: int): (days: int)
    ensures 28 <= days <= 31
  {
    var year, m := month / 12, month % 12;
    if m == 1 then (if IsLeap(year) then 29 else 28)
    else if m in {3, 5, 8, 10} then 30 else 31
  }

  function DayLimit(month: int, today: Date): int {
    var maxDay := if month == today.month then today.day else DaysInMonth(month);
    if maxDay < 28 then maxDay else 28
  }

  /** How many of the dates fall in a month. */
  function CountIn(dates: seq<Date>, month: int): nat {
    if dates == [] then 0
    else CountIn(dates[..|dates| - 1], month) + if dates[|dates| - 1].month == month then 1 else 0
  }

  function MonthsBetweenInclusive(start: int, today: Date): int {
    today.month - start + 1
  }

  lemma WeightsArePositive(months: nat)
    ensures Sum(Weights(months)) >= 4 * months
  {
  }

  /** The date of a month's hire number `hireIndex`. */
  function HireDate(start: int, today: Date, offset: nat, hireIndex: nat): (d: Date)
    requires 1 <= today.day
    ensures d.month == start + offset && 1 <= d.day <= DaysInMonth(d.month)
    ensures start + offset <= today.month && today.day <= DaysInMonth(today.month) ==> NotAfter(d, today)
  {
    Date(start + offset, 1 + (hireIndex * 5 + offset * 3) % DayLimit(start + offset, today))
  }

  /** The first hire of a month falls three days later than that of the month before, and the last day open to
      a hire is the 28th, or today in the current month. Two hires of a month share a day exactly when they are
      a whole number of rounds apart; a round is all the open days, or a fifth of them if five divides them. */
  lemma HiresShareDayIff(start: int, today: Date, offset: nat, i: nat, j: nat)
    requires 1 <= today.day <= DaysInMonth(today.month) && i <= j
    ensures var open := if start + offset == today.month && today.day < 28 then today.day else 28;
            var hire := (k: nat) => HireDate(start, today, offset, k).day;
            && hire(0) == 1 + (offset * 3) % open
            && 1 <= hire(i) <= open
            && (hire(i) == hire(j) <==> (j - i) % (if open % 5 == 0 then open / 5 else open) == 0)
  {
    var open := DayLimit(start + offset, today);
    SameResidueIff(i * 5 + offset * 3, j * 5 + offset * 3, open);
    FiveTimesDividesIff(j - i, open);
  }

  /** Division has one quotient and one rest. */
  lemma OneQuotient(m: nat, q: int, t: nat, k: int, r: nat)
    requires t < m && r < m && m * q + t == m * k + r
    ensures q == k && t == r
  {
    Distribute(m, q, -k);
    Bounded(m, q - k, r - t);
  }

  lemma Bounded(m: int, d: int, rest: int)
    requires -m < rest < m && m * d == rest
    ensures d == 0 && rest == 0
  {
    assert d >= 1 ==> m * d >= m;
    assert d <= -1 ==> m * d <= -m;
  }

  lemma RestIs(n: nat, m: nat, k: int, r: nat)
    requires r < m && n == m * k + r
    ensures n % m == r
  {
    assert n == m * (n / m) + n % m;
    OneQuotient(m, n / m, n % m, k, r);
  }

  lemma SameResidueIff(a: nat, b: nat, m: nat)
    requires m > 0 && a <= b
    ensures a % m == b % m <==> (b - a) % m == 0
  {
    AddingResidues(a, a / m, a % m, b - a, (b - a) / m, (b - a) % m, m);
  }

  lemma AddingResidues(a: nat, p: int, r: nat, n: nat, q: int, t: nat, m: nat)
    requires r < m && t < m && a == m * p + r && n == m * q + t
    ensures (a + n) % m == if r + t < m then r + t else r + t - m
  {
    Distribute(m, p, q);
    if r + t < m {
      RestIs(a + n, m, p + q, r + t);
    } else {
      Distribute(m, p + q, 1);
      RestIs(a + n, m, p + q + 1, r + t - m);
    }
  }

  lemma FiveTimesDividesIff(n: nat, m: nat)
    requires m > 0
    ensures (n * 5) % m == 0 <==> n % (if m % 5 == 0 then m / 5 else m) == 0
  {
    var h := if m % 5 == 0 then m / 5 else m;
    var q, t := n / h, n % h;
    assert n == h * q + t;
    if m % 5 == 0 {
      Regroup(h, q);
      RestIs(n * 5, m, q, t * 5);
    } else {
      FifthsOfMultiple(n, m, q, t);
    }
  }

  lemma Regroup(h: nat, q: int)
    ensures (5 * h) * q == 5 * (h * q) && h * (5 * q) == 5 * (h * q)
  {
  }

  /** A number that five does not divide divides five times a rest below it only if the rest is zero. */
  lemma FifthsOfMultiple(n: nat, m: nat, q: int, t: nat)
    requires m % 5 != 0 && t < m && n == m * q + t
    ensures (n * 5) % m == 0 <==> t == 0
  {
    Regroup(m, q);
    var c := FitsTimes(m, t);
    Distribute(m, 5 * q, c);
    RestIs(n * 5, m, 5 * q + c, t * 5 - m * c);
  }

  lemma FitsTimes(m: nat, t: nat) returns (c: nat)
    requires m % 5 != 0 && t < m
    ensures 0 <= t * 5 - m * c < m && (t * 5 == m * c ==> t == 0)
  {
    if t * 5 < m { return 0; }
    if t * 5 < m * 2 { return 1; }
    if t * 5 < m * 3 { return 2; }
    if t * 5 < m * 4 { return 3; }
    return 4;
  }

  function MonthDates(start: int, today: Date, offset: nat, quota: nat): (dates: seq<Date>)
    requires 1 <= today.day
    ensures |dates| == quota
    ensures forall k :: 0 <= k < quota ==> dates[k] == HireDate(start, today, offset, k)
  {
    if quota == 0 then [] else MonthDates(start, today, offset, quota - 1) + [HireDate(start, today, offset, quota - 1)]
  }

  /** Month after month, as many dates as its quota. */
  function Dates(start: int, today: Date, quotas: seq<nat>): seq<Date>
    requires 1 <= today.day
  {
    if quotas == [] then []
    else
      var last := |quotas| - 1;
      Dates(start, today, quotas[..last]) + MonthDates(start, today, last, quotas[last])
  }

  lemma {:induction false} CountInAppend(dates: seq<Date>, more: seq<Date>, month: int)
    ensures CountIn(dates + more, month) == CountIn(dates, month) + CountIn(more, month)
  {
    if more == [] {
      assert dates + more == dates;
    } else {
      assert (dates + more)[..|dates + more| - 1] == dates + more[..|more| - 1];
      CountInAppend(dates, more[..|more| - 1], month);
    }
  }

  lemma {:induction false} CountInOneMonth(dates: seq<Date>, month: int, m: int)
    requires forall k :: 0 <= k < |dates| ==> dates[k].month == m
    ensures CountIn(dates, month) == if month == m then |dates| else 0
  {
    if dates != [] {
      CountInOneMonth(dates[..|dates| - 1], month, m);
    }
  }

  lemma {:induction false} DatesInRange(start: int, today: Date, quotas: seq<nat>)
    requires 1 <= today.day <= DaysInMonth(today.month) && start + |quotas| <= today.month + 1
    ensures |Dates(start, today, quotas)| == Sum(quotas)
    ensures forall d :: d in Dates(start, today, quotas) ==>
              start <= d.month < start + |quotas| && NotAfter(d, today) && 1 <= d.day <= DaysInMonth(d.month)
  {
    if quotas != [] {
      DatesInRange(start, today, quotas[..|quotas| - 1]);
    }
  }

  lemma {:induction false} DatesCounted(start: int, today: Date, quotas: seq<nat>, o: nat)
    requires 1 <= today.day <= DaysInMonth(today.month) && start + |quotas| <= today.month + 1 && o < |quotas|
    ensures CountIn(Dates(start, today, quotas), start + o) == quotas[o]
  {
    var last := |quotas| - 1;
    MonthAdds(start, today, quotas, o);
    if o < last {
      DatesCounted(start, today, quotas[..last], o);
    } else {
      NoneBefore(start, today, quotas[..last]);
    }
  }

  /** The last month adds its quota to its own count and nothing to another's. */
  lemma MonthAdds(start: int, today: Date, quotas: seq<nat>, o: nat)
    requires 1 <= today.day && o < |quotas|
    ensures var last := |quotas| - 1;
            CountIn(Dates(start, today, quotas), start + o)
            == CountIn(Dates(start, today, quotas[..last]), start + o) + if o == last then quotas[last] else 0
  {
    var last := |quotas| - 1;
    var added := MonthDates(start, today, last, quotas[last]);
    CountInAppend(Dates(start, today, quotas[..last]), added, start + o);
    CountInOneMonth(added, start + o, start + last);
  }

  lemma NoneBefore(start: int, today: Date, quotas: seq<nat>)
    requires 1 <= today.day <= DaysInMonth(today.month) && start + |quotas| <= today.month + 1
    ensures CountIn(Dates(start, today, quotas), start + |quotas|) == 0
  {
    DatesInRange(start, today, quotas);
    NoneIn(Dates(start, today, quotas), start + |quotas|);
  }

  lemma {:induction false} NoneIn(dates: seq<Date>, month: int)
    requires forall d :: d in dates ==> d.month != month
    ensures CountIn(dates, month) == 0
  {
    if dates != [] {
      NoneIn(dates[..|dates| - 1], month);
    }
  }

  lemma QuotasAreNatural(total: nat, weights: seq<nat>, quotas: seq<int>)
    requires Sum(weights) > 0 && Apportioned(total, weights, quotas)
    ensures forall o :: 0 <= o < |quotas| ==> quotas[o] >= 0
  {
    forall o | 0 <= o < |quotas| ensures quotas[o] >= 0 {
      SharesAt(total, weights, Sum(weights), o);
    }
  }

  /** `buildEmployeeHireDates`: without a month to hire in, anyone to place is an error. */
  method BuildEmployeeHireDates(total: nat, start: int, today: Date) returns (result: Result<seq<Date>, string>)
    requires 1 <= today.day <= DaysInMonth(today.month)
    ensures result.Err? <==> today.month < start && total > 0
    ensures today.month < start && total == 0 ==> result == Ok([])
    ensures start <= today.month ==>
              exists quotas: seq<nat> :: Shared(total, today.month - start + 1, quotas)
                                         && result == Ok(Dates(start, today, quotas))
  {
    var monthCount := MonthsBetweenInclusive(start, today);
    if monthCount <= 0 {
      return if total > 0 then Err("no month to hire in") else Ok([]);
    }
    var weights := Weights(monthCount);
    WeightsArePositive(monthCount);
    var quotas := ShareOut(total, weights);
    QuotasAreNatural(total, weights, quotas[..]);
    var dates := SpreadOut(start, today, quotas[..]);
    assert Shared(total, monthCount, quotas[..]);
    return Ok(dates);
  }

  ghost predicate Shared(total: nat, months: nat, quotas: seq<nat>) {
    Sum(Weights(months)) > 0 && Apportioned(total, Weights(months), quotas)
  }

  /** The date list has one date for each employee, none after today, in the apportioned numbers. */
  lemma HireDatesAreApportioned(total: nat, start: int, today: Date, quotas: seq<nat>)
    requires 1 <= today.day <= DaysInMonth(today.month) && start <= today.month
    requires Shared(total, today.month - start + 1, quotas)
    ensures var dates := Dates(start, today, quotas);
            && |dates| == total
            && (forall d :: d in dates ==> start <= d.month && NotAfter(d, today) && 1 <= d.day <= DaysInMonth(d.month))
            && (forall o :: 0 <= o < |quotas| ==> CountIn(dates, start + o) == quotas[o])
  {
    DatesInRange(start, today, quotas);
    forall o | 0 <= o < |quotas| ensures CountIn(Dates(start, today, quotas), start + o) == quotas[o] {
      DatesCounted(start, today, quotas, o);
    }
  }

  method SpreadOut(start: int, today: Date, quotas: seq<nat>) returns (dates: seq<Date>)
    requires 1 <= today.day
    ensures dates == Dates(start, today, quotas)
  {
    dates := [];
    for offset := 0 to |quotas|
      invariant dates == Dates(start, today, quotas[..offset])
    {
      assert quotas[..offset + 1][..offset] == quotas[..offset];
      var month := start + offset;
      var dayLimit := DayLimit(month, today);
      ghost var before := dates;
      for hireIndex := 0 to quotas[offset]
        invariant dates == before + MonthDates(start, today, offset, hireIndex)
      {
        var day := 1 + (hireIndex * 5 + offset * 3) % dayLimit;
        dates := dates + [Date(month, day)];
      }
    }
    assert quotas[..|quotas|] == quotas;
  }
}
