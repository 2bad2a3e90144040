/** The seed's unique name pairs: two cursors over two pools, one advancing by one and the other by seven. */
module NamePairs {
  import opened Wrappers
  import opened Sets

  type Pair = (string, string)

  /** The pair under two cursors, each going round its pool. */
  function PairUnder(firsts: seq<string>, lasts: seq<string>, firstCursor: nat, lastCursor: nat): Pair
    requires firsts != [] && lasts != []
  {
    (firsts[firstCursor % |firsts|], lasts[lastCursor % |lasts|])
  }

  /** The pair under the cursors after `n` iterations. */
  function PairAt(firsts: seq<string>, lasts: seq<string>, n: nat): Pair
    requires firsts != [] && lasts != []
  {
    PairUnder(firsts, lasts, n, 7 * n)
  }

  function Key(pair: Pair): string {
    pair.0 + "|" + pair.1
  }

  predicate Distinct(names: seq<string>) {
    forall m, n :: 0 <= m < n < |names| ==> names[m] != names[n]
  }

  predicate NoBar(names: seq<string>) {
    forall n :: 0 <= n < |names| ==> '|' !in names[n]
  }

  // ---------- remainders ----------

  lemma RemainderIs(x: int, a: nat, q: int, r: int)
    requires a > 0 && x == a * q + r && 0 <= r < a
    ensures x % a == r
  {
    Scaled(a, q - x / a);
    assert a * (q - x / a) == x % a - r;
  }

  lemma Scaled(a: nat, d: int)
    ensures (d >= 1 ==> a * d >= a) && (d <= -1 ==> a * d <= 0 - a)
  {
  }

  lemma SameRemainderIff(m: nat, n: nat, a: nat)
    requires a > 0 && m <= n
    ensures m % a == n % a <==> (n - m) % a == 0
  {
    if m % a == n % a {
      RemainderIs(n - m, a, n / a - m / a, 0);
    }
    if (n - m) % a == 0 {
      RemainderIs(n, a, m / a + (n - m) / a, m % a);
    }
  }

  lemma InverseOfSeven(l: nat) returns (k: int, j: int)
    requires l % 7 != 0
    ensures k * l == 7 * j + 1
  {
    var p, r := l / 7, l % 7;
    if r == 1 { k, j := 1, p; }
    else if r == 2 { k, j := 4, 4 * p + 1; }
    else if r == 3 { k, j := 5, 5 * p + 2; }
    else if r == 4 { k, j := 2, 2 * p + 1; }
    else if r == 5 { k, j := 3, 3 * p + 2; }
    else { k, j := 6, 6 * p + 5; }
  }

  /** Seven cancels modulo a number it does not divide. */
  lemma SevenCancels(d: nat, l: nat)
    requires l > 0 && l % 7 != 0 && (7 * d) % l == 0
    ensures d % l == 0
  {
    var k, j := InverseOfSeven(l);
    var t := (7 * d) / l;
    assert l * t == 7 * d;
    Factored(d, l, k, j, t);
    RemainderIs(d, l, k * d - j * t, 0);
  }

  lemma Factored(d: int, l: int, k: int, j: int, t: int)
    requires k * l == 7 * j + 1 && l * t == 7 * d
    ensures d == l * (k * d - j * t)
  {
    calc {
      l * (k * d - j * t);
      (k * l) * d - j * (l * t);
      (7 * j + 1) * d - j * (7 * d);
      d;
    }
  }

  function Reduced(l: nat): (r: nat)
    requires l > 0
    ensures r > 0
  {
    if l % 7 == 0 then l / 7 else l
  }

  lemma StrideReturnsIff(d: nat, l: nat)
    requires l > 0
    ensures (7 * d) % l == 0 <==> d % Reduced(l) == 0
  {
    var r := Reduced(l);
    if d % r == 0 {
      var q := d / r;
      assert 7 * d == l * (if l % 7 == 0 then q else 7 * q);
      RemainderIs(7 * d, l, if l % 7 == 0 then q else 7 * q, 0);
    }
    if (7 * d) % l == 0 {
      if l % 7 == 0 {
        var q := (7 * d) / l;
        assert 7 * d == (7 * r) * q == 7 * (r * q);
        RemainderIs(d, r, q, 0);
      } else {
        SevenCancels(d, l);
      }
    }
  }

  // ---------- least common multiples ----------

  predicate CommonMultiple(a: nat, b: nat, d: nat)
    requires a > 0 && b > 0
  {
    d % a == 0 && d % b == 0
  }

  lemma ProductIsCommon(a: nat, b: nat)
    requires a > 0 && b > 0
    ensures a * b > 0 && CommonMultiple(a, b, a * b)
  {
    RemainderIs(a * b, a, b, 0);
    RemainderIs(a * b, b, a, 0);
  }

  function LeastFrom(a: nat, b: nat, n: nat): (m: nat)
    requires a > 0 && b > 0 && 0 < n <= a * b
    ensures n <= m <= a * b && CommonMultiple(a, b, m)
    ensures forall d :: n <= d < m ==> !CommonMultiple(a, b, d)
    decreases a * b - n
  {
    ProductIsCommon(a, b);
    if CommonMultiple(a, b, n) then n else LeastFrom(a, b, n + 1)
  }

  function Lcm(a: nat, b: nat): (m: nat)
    requires a > 0 && b > 0
    ensures 0 < m <= a * b
  {
    ProductIsCommon(a, b);
    LeastFrom(a, b, 1)
  }

  lemma CommonMultiplesAreMultiplesOfLcm(a: nat, b: nat, d: nat)
    requires a > 0 && b > 0
    ensures CommonMultiple(a, b, d) <==> d % Lcm(a, b) == 0
  {
    var m := LcmIsCommon(a, b);
    var q, r := d / m, d % m;
    assert d == m * q + r;
    MultipleOfMultiple(m, a, q);
    MultipleOfMultiple(m, b, q);
    RestOfMultiple(m * q, r, a);
    RestOfMultiple(m * q, r, b);
    assert CommonMultiple(a, b, d) <==> CommonMultiple(a, b, r);
  }

  lemma LcmIsCommon(a: nat, b: nat) returns (m: nat)
    requires a > 0 && b > 0
    ensures m == Lcm(a, b) && m > 0 && CommonMultiple(a, b, m)
    ensures forall d :: 1 <= d < m ==> !CommonMultiple(a, b, d)
    ensures CommonMultiple(a, b, 0)
  {
    ProductIsCommon(a, b);
    m := Lcm(a, b);
  }

  lemma MultipleOfMultiple(m: nat, a: nat, q: nat)
    requires a > 0 && m % a == 0
    ensures m * q >= 0 && (m * q) % a == 0
  {
    var x := m / a;
    assert m == a * x;
    Regroup(a, x, q);
    RemainderIs(m * q, a, x * q, 0);
  }

  lemma Regroup(a: nat, x: nat, q: nat)
    ensures (a * x) * q == a * (x * q) >= 0
  {
  }

  lemma RestOfMultiple(x: nat, r: nat, a: nat)
    requires a > 0 && x % a == 0
    ensures (x + r) % a == 0 <==> r % a == 0
  {
    SameRemainderIff(x, x + r, a);
  }

  // ---------- how many pairs the walk reaches ----------

  function Period(firsts: seq<string>, lasts: seq<string>): (p: nat)
    requires firsts != [] && lasts != []
    ensures 0 < p
  {
    Lcm(|firsts|, Reduced(|lasts|))
  }

  lemma PeriodWithinCombinations(firsts: seq<string>, lasts: seq<string>)
    requires firsts != [] && lasts != []
    ensures Period(firsts, lasts) <= |firsts| * |lasts|
  {
    assert |firsts| * Reduced(|lasts|) <= |firsts| * |lasts|;
  }

  /** Iterations a multiple of the period apart visit the same pair, whatever the pools hold. */
  lemma PeriodReturns(firsts: seq<string>, lasts: seq<string>, m: nat, n: nat)
    requires firsts != [] && lasts != [] && m <= n && (n - m) % Period(firsts, lasts) == 0
    ensures PairAt(firsts, lasts, m) == PairAt(firsts, lasts, n)
  {
    CursorsAgreeIff(firsts, lasts, m, n);
  }

  lemma CursorsAgreeIff(firsts: seq<string>, lasts: seq<string>, m: nat, n: nat)
    requires firsts != [] && lasts != [] && m <= n
    ensures m % |firsts| == n % |firsts| && (7 * m) % |lasts| == (7 * n) % |lasts| <==>
            (n - m) % Period(firsts, lasts) == 0
  {
    SameRemainderIff(m, n, |firsts|);
    SameRemainderIff(7 * m, 7 * n, |lasts|);
    assert 7 * n - 7 * m == 7 * (n - m);
    StrideReturnsIff(n - m, |lasts|);
    CommonMultiplesAreMultiplesOfLcm(|firsts|, Reduced(|lasts|), n - m);
  }

  /** With no name twice in a pool, two iterations visit the same pair exactly when the period divides their
      distance. */
  lemma PairsRepeatIff(firsts: seq<string>, lasts: seq<string>, m: nat, n: nat)
    requires firsts != [] && lasts != [] && Distinct(firsts) && Distinct(lasts) && m <= n
    ensures PairAt(firsts, lasts, m) == PairAt(firsts, lasts, n) <==> (n - m) % Period(firsts, lasts) == 0
  {
    CursorsAgreeIff(firsts, lasts, m, n);
    DistinctAt(firsts, m % |firsts|, n % |firsts|);
    DistinctAt(lasts, (7 * m) % |lasts|, (7 * n) % |lasts|);
  }

  lemma DistinctAt(names: seq<string>, m: nat, n: nat)
    requires Distinct(names) && m < |names| && n < |names|
    ensures names[m] == names[n] <==> m == n
  {
  }

  function FirstBar(text: string): nat {
    if text == "" || text[0] == '|' then 0 else 1 + FirstBar(text[1..])
  }

  lemma {:induction false} FirstBarOfKey(first: string, last: string)
    requires '|' !in first
    ensures FirstBar(first + "|" + last) == |first|
  {
    if first != "" {
      FirstBarOfKey(first[1..], last);
      assert (first + "|" + last)[1..] == first[1..] + "|" + last;
    }
  }

  /** Without a bar in the first names, the joined key tells pairs apart. */
  lemma KeysAgreeIff(x: Pair, y: Pair)
    requires '|' !in x.0 && '|' !in y.0
    ensures Key(x) == Key(y) <==> x == y
  {
    FirstBarOfKey(x.0, x.1);
    FirstBarOfKey(y.0, y.1);
    if Key(x) == Key(y) {
      assert x.0 == Key(x)[..|x.0|] == y.0;
      assert x.1 == Key(x)[|x.0| + 1..] == y.1;
    }
  }

  ghost predicate GoodPools(firsts: seq<string>, lasts: seq<string>) {
    firsts != [] && lasts != [] && Distinct(firsts) && Distinct(lasts) && NoBar(firsts)
  }

  lemma VisitedKeysAgreeIff(firsts: seq<string>, lasts: seq<string>, m: nat, n: nat)
    requires GoodPools(firsts, lasts) && m <= n
    ensures Key(PairAt(firsts, lasts, m)) == Key(PairAt(firsts, lasts, n)) <==> (n - m) % Period(firsts, lasts) == 0
  {
    PairsRepeatIff(firsts, lasts, m, n);
    KeysAgreeIff(PairAt(firsts, lasts, m), PairAt(firsts, lasts, n));
  }

  // ---------- collecting along a walk ----------

  function Walk(firsts: seq<string>, lasts: seq<string>): nat -> Pair
    requires firsts != [] && lasts != []
  {
    (n: nat) => PairAt(firsts, lasts, n)
  }

  predicate KeyUsed(pairs: seq<Pair>, key: string) {
    exists k | 0 <= k < |pairs| :: Key(pairs[k]) == key
  }

  /** The list after `n` iterations: a pair whose key was used is skipped. */
  function Collected(walk: nat -> Pair, n: nat): seq<Pair> {
    if n == 0 then []
    else
      var before := Collected(walk, n - 1);
      if KeyUsed(before, Key(walk(n - 1))) then before else before + [walk(n - 1)]
  }

  /** The keys the walk meets in its first `n` iterations. */
  function VisitedKeys(walk: nat -> Pair, n: nat): set<string> {
    if n == 0 then {} else VisitedKeys(walk, n - 1) + {Key(walk(n - 1))}
  }

  function KeysOf(pairs: seq<Pair>): set<string> {
    set k | 0 <= k < |pairs| :: Key(pairs[k])
  }

  ghost predicate DistinctKeys(pairs: seq<Pair>) {
    forall m, n :: 0 <= m < n < |pairs| ==> Key(pairs[m]) != Key(pairs[n])
  }

  lemma KeysGrow(pairs: seq<Pair>, pair: Pair)
    ensures KeysOf(pairs + [pair]) == KeysOf(pairs) + {Key(pair)}
    ensures KeyUsed(pairs, Key(pair)) <==> Key(pair) in KeysOf(pairs)
  {
    var longer := pairs + [pair];
    assert longer[|pairs|] == pair;
    forall k | 0 <= k < |pairs| ensures Key(pairs[k]) in KeysOf(longer) {
      assert longer[k] == pairs[k];
    }
  }

  lemma DistinctKeysGrow(pairs: seq<Pair>, pair: Pair)
    requires DistinctKeys(pairs) && !KeyUsed(pairs, Key(pair))
    ensures DistinctKeys(pairs + [pair])
  {
  }

  lemma {:induction false} CollectedKeysAreDistinct(walk: nat -> Pair, n: nat)
    ensures DistinctKeys(Collected(walk, n))
  {
    if n > 0 {
      CollectedKeysAreDistinct(walk, n - 1);
      if !KeyUsed(Collected(walk, n - 1), Key(walk(n - 1))) {
        DistinctKeysGrow(Collected(walk, n - 1), walk(n - 1));
      }
    }
  }

  /** The list holds one pair for each key met. */
  lemma {:induction false} CollectedIsVisited(walk: nat -> Pair, n: nat)
    ensures KeysOf(Collected(walk, n)) == VisitedKeys(walk, n) && |Collected(walk, n)| == |VisitedKeys(walk, n)|
  {
    if n > 0 {
      CollectedIsVisited(walk, n - 1);
      CollectStep(Collected(walk, n - 1), walk(n - 1), VisitedKeys(walk, n - 1));
    }
  }

  lemma CollectStep(pairs: seq<Pair>, pair: Pair, keys: set<string>)
    requires KeysOf(pairs) == keys && |pairs| == |keys|
    ensures var longer := if KeyUsed(pairs, Key(pair)) then pairs else pairs + [pair];
            KeysOf(longer) == keys + {Key(pair)} && |longer| == |keys + {Key(pair)}|
  {
    KeysGrow(pairs, pair);
    if KeyUsed(pairs, Key(pair)) {
      assert keys + {Key(pair)} == keys;
    }
  }

  lemma {:induction false} CollectedFromPools(firsts: seq<string>, lasts: seq<string>, n: nat)
    requires firsts != [] && lasts != []
    ensures forall pair :: pair in Collected(Walk(firsts, lasts), n) ==> pair.0 in firsts && pair.1 in lasts
  {
    if n > 0 {
      CollectedFromPools(firsts, lasts, n - 1);
    }
  }

  lemma {:induction false} VisitedAt(walk: nat -> Pair, n: nat, k: nat)
    requires k < n
    ensures Key(walk(k)) in VisitedKeys(walk, n)
  {
    if k < n - 1 {
      VisitedAt(walk, n - 1, k);
    }
  }

  /** After one period the walk meets no key it has not met. */
  ghost predicate Returns(walk: nat -> Pair, period: nat) {
    forall n: nat :: period <= n ==> Key(walk(n)) in VisitedKeys(walk, period)
  }

  lemma WalkReturns(firsts: seq<string>, lasts: seq<string>)
    requires firsts != [] && lasts != []
    ensures Returns(Walk(firsts, lasts), Period(firsts, lasts))
  {
    var walk, period := Walk(firsts, lasts), Period(firsts, lasts);
    forall n: nat | period <= n ensures Key(walk(n)) in VisitedKeys(walk, period) {
      WalkReturnsAt(firsts, lasts, n);
    }
  }

  lemma WalkReturnsAt(firsts: seq<string>, lasts: seq<string>, n: nat)
    requires firsts != [] && lasts != []
    ensures Key(Walk(firsts, lasts)(n)) in VisitedKeys(Walk(firsts, lasts), Period(firsts, lasts))
  {
    var period := Period(firsts, lasts);
    var k := RestOf(n, period);
    PeriodReturns(firsts, lasts, k, n);
    VisitedAt(Walk(firsts, lasts), period, k);
  }

  lemma RestOf(n: nat, period: nat) returns (k: nat)
    requires period > 0
    ensures k < period && k <= n && (n - k) % period == 0
  {
    k := n % period;
    RemainderIs(n - k, period, n / period, 0);
  }

  lemma {:induction false} VisitedGrows(walk: nat -> Pair, period: nat, n: nat)
    requires Returns(walk, period)
    ensures VisitedKeys(walk, n) <= VisitedKeys(walk, period)
    ensures period <= n ==> VisitedKeys(walk, n) == VisitedKeys(walk, period)
  {
    if n > 0 {
      VisitedGrows(walk, period, n - 1);
      if n <= period {
        VisitedAt(walk, period, n - 1);
      }
    }
  }

  /** The loop comes to hold `count` pairs. */
  ghost predicate Reaches(walk: nat -> Pair, count: nat) {
    exists n: nat :: |Collected(walk, n)| >= count
  }

  lemma WalkReachesIff(walk: nat -> Pair, period: nat, count: nat)
    requires Returns(walk, period)
    ensures Reaches(walk, count) <==> count <= |VisitedKeys(walk, period)|
  {
    CollectedIsVisited(walk, period);
    forall n: nat ensures |Collected(walk, n)| <= |VisitedKeys(walk, period)| {
      CollectedWithinVisited(walk, period, n);
    }
  }

  lemma CollectedWithinVisited(walk: nat -> Pair, period: nat, n: nat)
    requires Returns(walk, period)
    ensures |Collected(walk, n)| <= |VisitedKeys(walk, period)|
    ensures period <= n ==> |Collected(walk, n)| == |VisitedKeys(walk, period)|
  {
    CollectedIsVisited(walk, n);
    VisitedGrows(walk, period, n);
    SubsetIsSmaller(VisitedKeys(walk, n), VisitedKeys(walk, period));
  }

  /** How many different keys one period of the walk meets. */
  function Capacity(firsts: seq<string>, lasts: seq<string>): nat
    requires firsts != [] && lasts != []
  {
    |VisitedKeys(Walk(firsts, lasts), Period(firsts, lasts))|
  }

  /** For any pools the loop comes to hold `count` pairs exactly when one period meets that many keys. */
  lemma ReachesCountIff(firsts: seq<string>, lasts: seq<string>, count: nat)
    requires firsts != [] && lasts != []
    ensures Reaches(Walk(firsts, lasts), count) <==> count <= Capacity(firsts, lasts)
  {
    WalkReturns(firsts, lasts);
    WalkReachesIff(Walk(firsts, lasts), Period(firsts, lasts), count);
  }

  lemma {:induction false} NoMoreKeysThanSteps(walk: nat -> Pair, n: nat)
    ensures |VisitedKeys(walk, n)| <= n
  {
    if n > 0 {
      NoMoreKeysThanSteps(walk, n - 1);
    }
  }

  lemma CapacityWithinCombinations(firsts: seq<string>, lasts: seq<string>)
    requires firsts != [] && lasts != []
    ensures Capacity(firsts, lasts) <= Period(firsts, lasts) <= |firsts| * |lasts|
  {
    NoMoreKeysThanSteps(Walk(firsts, lasts), Period(firsts, lasts));
    PeriodWithinCombinations(firsts, lasts);
  }

  /** Every count that passes the guard is reached exactly when the walk meets every combination. */
  lemma EveryGuardedCountReachedIff(firsts: seq<string>, lasts: seq<string>)
    requires firsts != [] && lasts != []
    ensures (forall count: nat | count <= |firsts| * |lasts| :: Reaches(Walk(firsts, lasts), count))
            <==> Capacity(firsts, lasts) == |firsts| * |lasts|
  {
    CapacityWithinCombinations(firsts, lasts);
    WalkReturns(firsts, lasts);
    ReachesAllUpToIff(Walk(firsts, lasts), Period(firsts, lasts), |firsts| * |lasts|);
  }

  lemma ReachesAllUpToIff(walk: nat -> Pair, period: nat, combinations: nat)
    requires Returns(walk, period) && |VisitedKeys(walk, period)| <= combinations
    ensures (forall count: nat | count <= combinations :: Reaches(walk, count))
            <==> |VisitedKeys(walk, period)| == combinations
  {
    forall count: nat ensures Reaches(walk, count) <==> count <= |VisitedKeys(walk, period)| {
      WalkReachesIff(walk, period, count);
    }
    assert Reaches(walk, combinations) <==> combinations <= |VisitedKeys(walk, period)|;
  }

  // ---------- pools without repeated names ----------

  ghost predicate NewUpTo(walk: nat -> Pair, period: nat) {
    forall k: nat, n: nat :: k < n < period ==> Key(walk(k)) != Key(walk(n))
  }

  lemma KeyIsNew(firsts: seq<string>, lasts: seq<string>, k: nat, n: nat)
    requires GoodPools(firsts, lasts) && k < n < Period(firsts, lasts)
    ensures Key(Walk(firsts, lasts)(k)) != Key(Walk(firsts, lasts)(n))
  {
    VisitedKeysAgreeIff(firsts, lasts, k, n);
    RemainderIs(n - k, Period(firsts, lasts), 0, n - k);
  }

  lemma GoodWalkIsNew(firsts: seq<string>, lasts: seq<string>)
    requires GoodPools(firsts, lasts)
    ensures NewUpTo(Walk(firsts, lasts), Period(firsts, lasts))
  {
    var walk, period := Walk(firsts, lasts), Period(firsts, lasts);
    forall k: nat, n: nat | k < n < period ensures Key(walk(k)) != Key(walk(n)) {
      KeyIsNew(firsts, lasts, k, n);
    }
  }

  lemma {:induction false} NewPairsAreCollected(walk: nat -> Pair, period: nat, n: nat)
    requires NewUpTo(walk, period) && n <= period
    ensures |Collected(walk, n)| == n && forall k :: 0 <= k < n ==> Collected(walk, n)[k] == walk(k)
  {
    if n > 0 {
      NewPairsAreCollected(walk, period, n - 1);
    }
  }

  function Min(a: nat, b: nat): nat {
    if a <= b then a else b
  }

  /** Every iteration up to the period collects a new pair and none after it does, so the walk meets as many
      keys as its period is long. */
  lemma CollectedIsThePeriod(firsts: seq<string>, lasts: seq<string>, n: nat)
    requires GoodPools(firsts, lasts)
    ensures |Collected(Walk(firsts, lasts), n)| == Min(n, Period(firsts, lasts))
    ensures Capacity(firsts, lasts) == Period(firsts, lasts)
  {
    var walk, period := Walk(firsts, lasts), Period(firsts, lasts);
    GoodWalkIsNew(firsts, lasts);
    WalkReturns(firsts, lasts);
    NewPairsAreCollected(walk, period, period);
    CollectedIsVisited(walk, period);
    if n <= period {
      NewPairsAreCollected(walk, period, n);
    } else {
      CollectedWithinVisited(walk, period, n);
    }
  }

  /** Two pools of two: four combinations pass the guard, but the walk only ever meets two pairs. */
  lemma FourOfTwoByTwoNeverReached()
    ensures !Reaches(Walk(["a", "b"], ["c", "d"]), 4)
  {
    ReachesCountIff(["a", "b"], ["c", "d"], 4);
    CapacityWithinCombinations(["a", "b"], ["c", "d"]);
    CommonMultiplesAreMultiplesOfLcm(2, 2, 2);
  }

  /** For the seed's own pool sizes, 42 and 44 first names with 50 last names, 200 pairs are within the period. */
  lemma SeedPoolsSuffice(firsts: seq<string>, lasts: seq<string>)
    requires GoodPools(firsts, lasts) && |firsts| in {42, 44} && |lasts| == 50
    ensures Reaches(Walk(firsts, lasts), 200)
  {
    ReachesCountIff(firsts, lasts, 200);
    CollectedIsThePeriod(firsts, lasts, 0);
    CommonMultiplesAreMultiplesOfLcm(|firsts|, 50, Lcm(|firsts|, 50));
    SmallMultiplesOfFifty(Lcm(|firsts|, 50));
  }

  lemma SmallMultiplesOfFifty(p: nat)
    requires p > 0 && p % 50 == 0 && (p % 42 == 0 || p % 44 == 0)
    ensures p >= 200
  {
  }

  // ---------- the loop ----------

  /** `buildUniqueNamePairs`: for a count that passes the guard but that the walk never reaches the loop has
      no end, so such counts are not admitted. */
  method BuildUniqueNamePairs(firsts: seq<string>, lasts: seq<string>, count: int)
    returns (result: Result<seq<Pair>, string>)
    requires firsts != [] && lasts != [] ==> count <= Capacity(firsts, lasts) || count > |firsts| * |lasts|
    ensures result.Err? <==> count > |firsts| * |lasts|
    ensures result.Ok? ==> |result.value| == (if count >= 0 then count else 0) && DistinctKeys(result.value)
    ensures result.Ok? ==> forall pair :: pair in result.value ==> pair.0 in firsts && pair.1 in lasts
    ensures result.Ok? && GoodPools(firsts, lasts) ==>
              forall k :: 0 <= k < |result.value| ==>
                result.value[k] == (firsts[k % |firsts|], lasts[(7 * k) % |lasts|])
  {
    var maxCombinations := |firsts| * |lasts|;
    if count > maxCombinations {
      return Err("more unique name pairs requested than combinations are possible");
    }
    if maxCombinations == 0 {
      return Ok([]);
    }
    var pairs := WalkPools(firsts, lasts, count);
    return Ok(pairs);
  }

  /** With good pools every pair is new. */
  method WalkPools(firsts: seq<string>, lasts: seq<string>, count: int) returns (pairs: seq<Pair>)
    requires firsts != [] && lasts != [] && count <= Capacity(firsts, lasts)
    ensures |pairs| == (if count >= 0 then count else 0) && DistinctKeys(pairs)
    ensures forall pair :: pair in pairs ==> pair.0 in firsts && pair.1 in lasts
    ensures GoodPools(firsts, lasts) ==> forall k :: 0 <= k < |pairs| ==> pairs[k] == PairAt(firsts, lasts, k)
  {
    pairs := CollectPairs(firsts, lasts, count);
    ghost var n: nat :| n <= Period(firsts, lasts) && pairs == Collected(Walk(firsts, lasts), n);
    CollectedKeysAreDistinct(Walk(firsts, lasts), n);
    CollectedFromPools(firsts, lasts, n);
    FirstPairsOfGoodPools(firsts, lasts, n);
  }

  /** The two cursors advance until enough pairs are new. */
  method CollectPairs(firsts: seq<string>, lasts: seq<string>, count: int) returns (pairs: seq<Pair>)
    requires firsts != [] && lasts != [] && count <= Capacity(firsts, lasts)
    ensures exists n: nat :: n <= Period(firsts, lasts) && pairs == Collected(Walk(firsts, lasts), n)
    ensures |pairs| == if count >= 0 then count else 0
  {
    pairs := [];
    ghost var walk, period := Walk(firsts, lasts), Period(firsts, lasts);
    WalkReturns(firsts, lasts);
    var used: set<string> := {};
    var firstCursor, lastCursor := 0, 0;
    while |pairs| < count
      invariant lastCursor == 7 * firstCursor
      invariant pairs == Collected(walk, firstCursor) && used == KeysOf(pairs)
      invariant |pairs| <= (if count >= 0 then count else 0) && firstCursor <= period
      decreases period - firstCursor
    {
      var pair := PairUnder(firsts, lasts, firstCursor, lastCursor);
      CollectNext(walk, period, firstCursor, pairs, pair, count);
      if Key(pair) !in used {
        used := used + {Key(pair)};
        pairs := pairs + [pair];
      }
      firstCursor := firstCursor + 1;
      lastCursor := lastCursor + 7;
    }
  }

  /** One iteration, before the walk has come round. */
  lemma CollectNext(walk: nat -> Pair, period: nat, n: nat, pairs: seq<Pair>, pair: Pair, count: int)
    requires Returns(walk, period) && pair == walk(n)
    requires pairs == Collected(walk, n) && |pairs| < count <= |VisitedKeys(walk, period)|
    ensures n < period
    ensures Collected(walk, n + 1) == if Key(pair) in KeysOf(pairs) then pairs else pairs + [pair]
    ensures KeysOf(pairs + [pair]) == KeysOf(pairs) + {Key(pair)}
  {
    CollectedWithinVisited(walk, period, n);
    KeysGrow(pairs, pair);
  }

  lemma FirstPairsOfGoodPools(firsts: seq<string>, lasts: seq<string>, n: nat)
    requires firsts != [] && lasts != [] && n <= Period(firsts, lasts)
    ensures GoodPools(firsts, lasts) ==>
              |Collected(Walk(firsts, lasts), n)| == n
              && forall k :: 0 <= k < n ==> Collected(Walk(firsts, lasts), n)[k] == PairAt(firsts, lasts, k)
  {
    if GoodPools(firsts, lasts) {
      GoodWalkIsNew(firsts, lasts);
      NewPairsAreCollected(Walk(firsts, lasts), Period(firsts, lasts), n);
    }
  }
}
