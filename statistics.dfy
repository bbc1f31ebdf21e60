/** Statistics derived from the history log: the top-10 frequency ranking
    (App.tsx, `freqData`, lines 249-257), the even/odd balance (`evenOdd`, lines
    259-270) and the analysis of the current result (`analysisStats`, lines 272-291). */
module Statistics {
  import opened Types
  import opened History

  /** `history.flatMap(h => h.numbers)`. */
  function Flatten(h: seq<LotteryResult>): seq<int>
  {
    if h == [] then [] else h[0].numbers + Flatten(h[1..])
  }

  /** Every number of every entry is in the flattened log. */
  lemma {:induction false} InFlatten(h: seq<LotteryResult>, k: nat, x: int)
    requires k < |h| && x in h[k].numbers
    ensures x in Flatten(h)
  {
    if k > 0 {
      assert h[1..][k - 1] == h[k];
      InFlatten(h[1..], k - 1, x);
    }
  }

  /** Conversely, every number of the flattened log comes from some entry: `k`
      is the index of one entry holding `x`. */
  lemma {:induction false} FromFlatten(h: seq<LotteryResult>, x: int) returns (k: nat)
    requires x in Flatten(h)
    ensures k < |h| && x in h[k].numbers
  {
    if x in h[0].numbers {
      k := 0;
    } else {
      var j := FromFlatten(h[1..], x);
      assert h[1..][j] == h[j + 1];
      k := j + 1;
    }
  }

  /** `r` is `a / b` rounded to the nearest integer, halves up: `r - 1/2 <= a / b < r + 1/2`. */
  predicate RoundsTo(r: int, a: int, b: int) {
    (2 * r - 1) * b <= 2 * a < (2 * r + 1) * b
  }

  /** `Math.round(a / b)` for `b > 0`, exactly: the integer nearest to `a / b`,
      halves rounded up. */
  function RoundDiv(a: int, b: int): (r: int)
    requires b > 0
    ensures RoundsTo(r, a, b)
  {
    var q := (2 * a + b) / (2 * b);
    assert 2 * b * q <= 2 * a + b < 2 * b * q + 2 * b by {
      var m := (2 * a + b) % (2 * b);
      assert 2 * a + b == 2 * b * q + m && 0 <= m < 2 * b;
    }
    q
  }

  /** A rounded share of a whole is a percentage. */
  lemma PercentBounds(part: nat, whole: nat)
    requires 0 < whole && part <= whole
    ensures 0 <= RoundDiv(100 * part, whole) <= 100
  {
    var r := RoundDiv(100 * part, whole);
    assert 0 <= 200 * part < (2 * r + 1) * whole;
    PositiveFactor(2 * r + 1, whole);
    assert (2 * r - 1) * whole <= 200 * whole;
    CancelFactor(2 * r - 1, 200, whole);
  }

  lemma PositiveFactor(x: int, w: int)
    requires w > 0 && x * w > 0
    ensures x > 0
  {
  }

  lemma CancelFactor(x: int, y: int, w: int)
    requires w > 0 && x * w <= y * w
    ensures x <= y
  {
  }

  // ---------------------------------------------------------------------------
  // Frequency ranking

  /** One bar of the frequency chart. */
  datatype FreqEntry = FreqEntry(num: int, count: nat)

  /** The chart shows at most this many numbers (`slice(0, 10)`). */
  const TopCount: nat := 10

  /** `a` is listed before `b` in the ranking: a larger count, or the same count
      and a smaller number. */
  predicate RanksBefore(a: FreqEntry, b: FreqEntry) {
    a.count > b.count || (a.count == b.count && a.num < b.num)
  }

  predicate Ranked(es: seq<FreqEntry>) {
    forall i, j :: 0 <= i < j < |es| ==> RanksBefore(es[i], es[j])
  }

  /** The numbers of a list of bars, in order. */
  function Nums(es: seq<FreqEntry>): (r: seq<int>)
    ensures |r| == |es| && forall i :: 0 <= i < |es| ==> r[i] == es[i].num
  {
    seq(|es|, i requires 0 <= i < |es| => es[i].num)
  }

  /** The `counts` record filled by `forEach`: how often each number occurs. */
  method CountOccurrences(all: seq<int>) returns (counts: map<int, nat>)
    ensures forall n :: n in counts <==> n in all
    ensures forall n :: n in counts ==> counts[n] == multiset(all)[n]
  {
    counts := map[];
    var i := 0;
    while i < |all|
      invariant i <= |all|
      invariant forall n :: n in counts <==> n in all[..i]
      invariant forall n :: n in counts ==> counts[n] == multiset(all[..i])[n]
    {
      var n := all[i];
      var c := if n in counts then counts[n] else 0;
      counts := counts[n := c + 1];
      assert all[..i + 1] == all[..i] + [n];
      i := i + 1;
    }
    assert all[..i] == all;
  }

  lemma {:induction false} HasMinimum(s: set<int>)
    requires s != {}
    ensures exists m :: m in s && forall y :: y in s ==> m <= y
    decreases |s|
  {
    if forall y :: y !in s {
      assert false;
    }
    var x :| x in s;
    var rest := s - {x};
    if rest == {} {
      forall y | y in s ensures x <= y {
        assert y == x || y in rest;
      }
    } else {
      HasMinimum(rest);
      var m :| m in rest && forall y :: y in rest ==> m <= y;
      var lo := if x < m then x else m;
      forall y | y in s ensures lo <= y {
        if y != x {
          assert y in rest;
        }
      }
      assert lo in s;
    }
  }

  /** `Object.entries(counts)`: integer keys are enumerated in ascending order. */
  method AscendingEntries(counts: map<int, nat>) returns (es: seq<FreqEntry>)
    ensures forall i, j :: 0 <= i < j < |es| ==> es[i].num < es[j].num
    ensures forall i :: 0 <= i < |es| ==> es[i].num in counts && es[i].count == counts[es[i].num]
    ensures forall n :: n in counts ==> n in Nums(es)
  {
    es := [];
    var rest := counts.Keys;
    while rest != {}
      invariant rest <= counts.Keys
      invariant forall n :: n in counts ==> n in rest || n in Nums(es)
      invariant forall i, j :: 0 <= i < j < |es| ==> es[i].num < es[j].num
      invariant forall i :: 0 <= i < |es| ==> es[i].num in counts && es[i].count == counts[es[i].num]
      invariant es != [] ==> forall n :: n in rest ==> es[|es| - 1].num < n
      decreases |rest|
    {
      HasMinimum(rest);
      var k :| k in rest && forall j :: j in rest ==> k <= j;
      AppendEntry(es, k, counts, rest);
      es := es + [FreqEntry(k, counts[k])];
      rest := rest - {k};
    }
  }

  lemma AppendEntry(es: seq<FreqEntry>, k: int, counts: map<int, nat>, rest: set<int>)
    requires k in rest && rest <= counts.Keys
    requires forall j :: j in rest ==> k <= j
    requires forall n :: n in counts ==> n in rest || n in Nums(es)
    requires forall i, j :: 0 <= i < j < |es| ==> es[i].num < es[j].num
    requires es != [] ==> forall n :: n in rest ==> es[|es| - 1].num < n
    ensures var es' := es + [FreqEntry(k, counts[k])];
      (forall n :: n in counts ==> n in rest - {k} || n in Nums(es')) &&
      (forall i, j :: 0 <= i < j < |es'| ==> es'[i].num < es'[j].num) &&
      (forall n :: n in rest - {k} ==> k < n)
  {
    var es' := es + [FreqEntry(k, counts[k])];
    forall n | n in counts ensures n in rest - {k} || n in Nums(es') {
      if n == k {
        assert Nums(es')[|es|] == k;
      } else if n in Nums(es) {
        var i :| 0 <= i < |es| && Nums(es)[i] == n;
        assert Nums(es')[i] == n;
      }
    }
  }

  /** One step of a stable insertion sort with the comparator
      `(a, b) => b.count - a.count`: `x` goes before the first entry whose count
      is not larger than its own. */
  function InsertByCount(x: FreqEntry, s: seq<FreqEntry>): (r: seq<FreqEntry>)
    ensures multiset(r) == multiset(s) + multiset{x}
  {
    if s == [] || s[0].count <= x.count then [x] + s
    else
      assert s == [s[0]] + s[1..];
      [s[0]] + InsertByCount(x, s[1..])
  }

  /** The stable sort by descending count: equal counts keep their input order. */
  function SortByCount(s: seq<FreqEntry>): (r: seq<FreqEntry>)
    ensures multiset(r) == multiset(s)
  {
    if s == [] then []
    else
      assert s == [s[0]] + s[1..];
      InsertByCount(s[0], SortByCount(s[1..]))
  }

  lemma {:induction false} InsertByCountRanked(x: FreqEntry, s: seq<FreqEntry>)
    requires Ranked(s)
    requires forall i :: 0 <= i < |s| ==> x.num < s[i].num
    ensures Ranked(InsertByCount(x, s))
  {
    if s != [] && s[0].count > x.count {
      var t := s[1..];
      InsertByCountRanked(x, t);
      var rest := InsertByCount(x, t);
      forall k | 0 <= k < |rest| ensures RanksBefore(s[0], rest[k]) {
        assert rest[k] in multiset(rest);
        if rest[k] != x {
          assert rest[k] in multiset(t);
          var m :| 0 <= m < |t| && t[m] == rest[k];
          assert t[m] == s[m + 1];
        }
      }
      assert InsertByCount(x, s) == [s[0]] + rest;
    }
  }

  /** Entries with strictly ascending numbers, sorted stably by descending count,
      are ordered by count and, within one count, by ascending number. */
  lemma {:induction false} SortByCountRanked(s: seq<FreqEntry>)
    requires forall i, j :: 0 <= i < j < |s| ==> s[i].num < s[j].num
    ensures Ranked(SortByCount(s))
  {
    if s != [] {
      var t := s[1..];
      SortByCountRanked(t);
      var sorted := SortByCount(t);
      forall i | 0 <= i < |sorted| ensures s[0].num < sorted[i].num {
        assert sorted[i] in multiset(sorted);
        assert sorted[i] in multiset(t);
        var m :| 0 <= m < |t| && t[m] == sorted[i];
        assert t[m] == s[m + 1];
      }
      InsertByCountRanked(s[0], sorted);
    }
  }

  /** What the chart promises about the numbers `all` drawn from the log: at most
      ten bars, each with the true count of a number that occurs, ordered by
      count and then number, and every number left out ranks after the last bar
      (so it is left out only when ten bars are shown). */
  ghost predicate IsTopTen(all: seq<int>, top: seq<FreqEntry>) {
    |top| <= TopCount &&
    (forall i :: 0 <= i < |top| ==> top[i].num in all && top[i].count == multiset(all)[top[i].num]) &&
    Ranked(top) &&
    (forall n :: n in all && n !in Nums(top) ==>
       |top| == TopCount && RanksBefore(top[TopCount - 1], FreqEntry(n, multiset(all)[n])))
  }

  /** The first ten of a ranked list of all counted numbers form the top ten. */
  lemma TopOfRankedIsTopTen(all: seq<int>, counts: map<int, nat>, es: seq<FreqEntry>, ranked: seq<FreqEntry>,
                            top: seq<FreqEntry>)
    requires forall n :: n in counts <==> n in all
    requires forall n :: n in counts ==> counts[n] == multiset(all)[n]
    requires forall i :: 0 <= i < |es| ==> es[i].num in counts && es[i].count == counts[es[i].num]
    requires forall n :: n in counts ==> n in Nums(es)
    requires multiset(ranked) == multiset(es) && Ranked(ranked)
    requires top == ranked[..Min(|ranked|, TopCount)]
    ensures IsTopTen(all, top)
  {
    forall i | 0 <= i < |ranked|
      ensures ranked[i].num in all && ranked[i].count == multiset(all)[ranked[i].num]
    {
      assert ranked[i] in multiset(es);
    }
    assert Ranked(top);
    forall n | n in all && n !in Nums(top)
      ensures |top| == TopCount && RanksBefore(top[TopCount - 1], FreqEntry(n, multiset(all)[n]))
    {
      LeftOutRanksLater(all, counts, es, ranked, top, n);
    }
  }

  lemma LeftOutRanksLater(all: seq<int>, counts: map<int, nat>, es: seq<FreqEntry>, ranked: seq<FreqEntry>,
                          top: seq<FreqEntry>, n: int)
    requires forall n :: n in counts <==> n in all
    requires forall n :: n in counts ==> counts[n] == multiset(all)[n]
    requires forall i :: 0 <= i < |es| ==> es[i].num in counts && es[i].count == counts[es[i].num]
    requires forall n :: n in counts ==> n in Nums(es)
    requires multiset(ranked) == multiset(es) && Ranked(ranked)
    requires top == ranked[..Min(|ranked|, TopCount)]
    requires n in all && n !in Nums(top)
    ensures |top| == TopCount
    ensures RanksBefore(top[TopCount - 1], FreqEntry(n, multiset(all)[n]))
  {
    var i :| 0 <= i < |es| && Nums(es)[i] == n;
    assert es[i] in multiset(ranked);
    var j :| 0 <= j < |ranked| && ranked[j] == es[i];
  }

  /** `freqData`: counts every number of the log, lists the counts in key order,
      sorts them by count and keeps the first ten. */
  method FreqData(h: seq<LotteryResult>) returns (top: seq<FreqEntry>)
    ensures IsTopTen(Flatten(h), top)
    ensures forall i, j :: 0 <= i < j < |top| ==>
      top[i].num != top[j].num && top[i].count >= top[j].count &&
      (top[i].count == top[j].count ==> top[i].num < top[j].num)
    ensures forall n :: n in Flatten(h) && n !in Nums(top) ==>
      multiset(Flatten(h))[n] <= top[|top| - 1].count
    ensures h == [] ==> top == []
  {
    var all := Flatten(h);
    var counts := CountOccurrences(all);
    var es := AscendingEntries(counts);
    var ranked := SortByCount(es);
    SortByCountRanked(es);
    top := ranked[..Min(|ranked|, TopCount)];
    TopOfRankedIsTopTen(all, counts, es, ranked, top);
    TopTenFacts(all, top);
  }

  /** The chart's promises spelled out: distinct numbers, counts never increasing,
      equal counts in ascending number order, nothing left out with a larger count
      than the last bar, and no bars for an empty log. */
  lemma TopTenFacts(all: seq<int>, top: seq<FreqEntry>)
    requires IsTopTen(all, top)
    ensures forall i, j :: 0 <= i < j < |top| ==>
      top[i].num != top[j].num && top[i].count >= top[j].count &&
      (top[i].count == top[j].count ==> top[i].num < top[j].num)
    ensures forall n :: n in all && n !in Nums(top) ==> multiset(all)[n] <= top[|top| - 1].count
    ensures all == [] ==> top == []
  {
    forall i, j | 0 <= i < j < |top| ensures top[i].num != top[j].num {
      assert RanksBefore(top[i], top[j]);
    }
  }

  // ---------------------------------------------------------------------------
  // Even/odd balance

  /** `allNums.filter(n => n % 2 === 0).length`. The source's truncating `%`
      and Dafny's Euclidean `%` (which matches floor `%` for the divisor 2) agree on whether the remainder is zero. */
  function CountEven(s: seq<int>): (r: nat)
    ensures r <= |s|
    ensures r == |s| <==> forall i :: 0 <= i < |s| ==> s[i] % 2 == 0
    ensures r == 0 <==> forall i :: 0 <= i < |s| ==> s[i] % 2 != 0
  {
    if s == [] then 0
    else
      var rest := CountEven(s[1..]);
      assert forall i :: 1 <= i < |s| ==> s[i] == s[1..][i - 1];
      (if s[0] % 2 == 0 then 1 else 0) + rest
  }

  /** The balance card: the sentinel `"0:0"` / `"0/0"` for an empty log, otherwise
      the counts and the rounded percentages. */
  datatype Parity = NoNumbers | Parity(evens: nat, odds: nat, evenPct: int, oddPct: int)

  function EvenOdd(h: seq<LotteryResult>): (r: Parity)
    ensures r.NoNumbers? <==> Flatten(h) == []
    ensures r.Parity? ==>
      var total := |Flatten(h)|;
      r.evens == CountEven(Flatten(h)) && r.evens + r.odds == total &&
      0 <= r.evenPct <= 100 && r.evenPct + r.oddPct == 100 &&
      RoundsTo(r.evenPct, 100 * r.evens, total)
  {
    var all := Flatten(h);
    if |all| == 0 then NoNumbers
    else
      var evens := CountEven(all);
      var evenPct := RoundDiv(100 * evens, |all|);
      PercentBounds(evens, |all|);
      Parity(evens, |all| - evens, evenPct, 100 - evenPct)
  }

  // ---------------------------------------------------------------------------
  // Analysis of the current result

  /** `numbers.reduce((a, b) => a + b, 0)`. */
  function Sum(s: seq<int>): int {
    if s == [] then 0 else s[0] + Sum(s[1..])
  }

  lemma {:induction false} SumConcat(a: seq<int>, b: seq<int>)
    ensures Sum(a + b) == Sum(a) + Sum(b)
  {
    if a == [] {
      assert a + b == b;
    } else {
      assert (a + b)[1..] == a[1..] + b;
      SumConcat(a[1..], b);
    }
  }

  /** The sum of the entry sums of `h`. */
  function SumOfSums(h: seq<LotteryResult>): int {
    if h == [] then 0 else Sum(h[0].numbers) + SumOfSums(h[1..])
  }

  /** Adding up entry by entry is adding up the flattened numbers. */
  lemma {:induction false} SumOfSumsFlatten(h: seq<LotteryResult>)
    ensures SumOfSums(h) == Sum(Flatten(h))
  {
    if h != [] {
      SumOfSumsFlatten(h[1..]);
      SumConcat(h[0].numbers, Flatten(h[1..]));
    }
  }

  /** `numbers.filter(n => pool.includes(n)).length`. */
  function CountIn(nums: seq<int>, pool: seq<int>): (r: nat)
    ensures r <= |nums|
    ensures r == |nums| <==> forall i :: 0 <= i < |nums| ==> nums[i] in pool
  {
    if nums == [] then 0
    else
      var rest := CountIn(nums[1..], pool);
      assert forall i :: 1 <= i < |nums| ==> nums[i] == nums[1..][i - 1];
      (if nums[0] in pool then 1 else 0) + rest
  }

  /** How many entries at the head of the log form the comparison window. */
  const RecentCount: nat := 10

  /** The analysis card. `appearanceRate` is `None` where the source computes
      `NaN` (a current result without numbers). */
  datatype Analysis = Analysis(sum: int, avgSum: int, appearanceRate: Option<int>, appearanceCount: nat)

  /** `history.slice(0, 10)`: the comparison window. */
  function Recent(h: seq<LotteryResult>): seq<LotteryResult> {
    h[..Min(|h|, RecentCount)]
  }

  /** The rounded mean entry sum of `same`, or 0 when it is empty. */
  function MeanSum(same: seq<LotteryResult>): (avg: int)
    ensures same == [] ==> avg == 0
    ensures same != [] ==> RoundsTo(avg, Sum(Flatten(same)), |same|)
  {
    SumOfSumsFlatten(same);
    if |same| > 0 then RoundDiv(SumOfSums(same), |same|) else 0
  }

  /** `Math.round(part / whole * 100)`, or `None` for the `NaN` of `whole == 0`. */
  function Percent(part: nat, whole: nat): (r: Option<int>)
    ensures r.Some? <==> whole > 0
    ensures r.Some? ==> RoundsTo(r.value, 100 * part, whole)
    ensures r.Some? && part <= whole ==> 0 <= r.value <= 100
  {
    if whole > 0 then
      if part <= whole then PercentBounds(part, whole); Some(RoundDiv(100 * part, whole))
      else Some(RoundDiv(100 * part, whole))
    else None
  }

  function AnalysisStats(current: Option<LotteryResult>, h: seq<LotteryResult>): (r: Option<Analysis>)
    ensures r.None? <==> current.None?
  {
    match current
    case None => None
    case Some(cur) =>
      var same := FilterHistory(h, OnlyType(cur.lotteryType));
      var count := CountIn(cur.numbers, Flatten(Recent(h)));
      Some(Analysis(Sum(cur.numbers), MeanSum(same), Percent(count, |cur.numbers|), count))
  }

  /** The card's sums: the current result's own sum and the rounded mean sum
      of the logged entries of the same lottery type. */
  lemma AnalysisSums(cur: LotteryResult, h: seq<LotteryResult>)
    ensures var same := FilterHistory(h, OnlyType(cur.lotteryType));
      var a := AnalysisStats(Some(cur), h).value;
      a.sum == Sum(cur.numbers) &&
      (same == [] ==> a.avgSum == 0) &&
      (same != [] ==> RoundsTo(a.avgSum, Sum(Flatten(same)), |same|))
  {
    var same := FilterHistory(h, OnlyType(cur.lotteryType));
    var avg := MeanSum(same);
    assert AnalysisStats(Some(cur), h).value.avgSum == avg;
  }

  /** The card's overlap count: full exactly when every current number occurs
      among the ten newest log entries. */
  lemma AnalysisOverlap(cur: LotteryResult, h: seq<LotteryResult>)
    ensures var a := AnalysisStats(Some(cur), h).value;
      a.appearanceCount <= |cur.numbers| &&
      (a.appearanceCount == |cur.numbers| <==>
         forall i :: 0 <= i < |cur.numbers| ==> cur.numbers[i] in Flatten(Recent(h)))
  {
    var count := CountIn(cur.numbers, Flatten(Recent(h)));
    assert AnalysisStats(Some(cur), h).value.appearanceCount == count;
  }

  /** The card's overlap rate: the overlap count as a rounded percentage of the
      current numbers, undefined when there are none. */
  lemma AnalysisRate(cur: LotteryResult, h: seq<LotteryResult>)
    ensures var a := AnalysisStats(Some(cur), h).value;
      (a.appearanceRate.Some? <==> cur.numbers != []) &&
      (a.appearanceRate.Some? ==>
         0 <= a.appearanceRate.value <= 100 &&
         RoundsTo(a.appearanceRate.value, 100 * a.appearanceCount, |cur.numbers|))
  {
    var count := CountIn(cur.numbers, Flatten(Recent(h)));
    var rate := Percent(count, |cur.numbers|);
    assert AnalysisStats(Some(cur), h).value == Analysis(Sum(cur.numbers), AnalysisStats(Some(cur), h).value.avgSum, rate, count);
  }

  /** The only integer within a half of `100 * n / n` is 100. */
  lemma WholePercent(p: int, n: nat)
    requires n > 0 && RoundsTo(p, 100 * n, n)
    ensures p == 100
  {
  }

  /** A current result taken from the ten newest log entries (as right after a
      commit, or when opening a recent archived entry) overlaps them completely. */
  lemma RecentResultFullyOverlaps(cur: LotteryResult, h: seq<LotteryResult>)
    requires cur in Recent(h)
    ensures AnalysisStats(Some(cur), h).value.appearanceCount == |cur.numbers|
    ensures cur.numbers != [] ==> AnalysisStats(Some(cur), h).value.appearanceRate == Some(100)
  {
    var recent := Recent(h);
    var k :| 0 <= k < |recent| && recent[k] == cur;
    forall i | 0 <= i < |cur.numbers| ensures cur.numbers[i] in Flatten(recent) {
      InFlatten(recent, k, cur.numbers[i]);
    }
    var a := AnalysisStats(Some(cur), h).value;
    assert a.appearanceCount == |cur.numbers|;
    if cur.numbers != [] {
      WholePercent(a.appearanceRate.value, |cur.numbers|);
    }
  }

  /** Right after a successful commit the current result is the head of the log. */
  lemma GenerateFullyOverlaps(t: LotteryType, p: Prediction, id: string, now: int, old_h: seq<LotteryResult>)
    ensures var cur := NewResult(t, p, id, now);
      var a := AnalysisStats(Some(cur), Prepend(cur, old_h)).value;
      a.appearanceCount == |p.numbers| &&
      (p.numbers != [] ==> a.appearanceRate == Some(100))
  {
    var cur := NewResult(t, p, id, now);
    var h := Prepend(cur, old_h);
    assert Recent(h)[0] == cur;
    RecentResultFullyOverlaps(cur, h);
  }

  /** The baseline mean depends only on the logged entries of the current
      result's own type: entries of other lotteries are never mixed in. */
  lemma AverageSumOwnTypeOnly(cur: LotteryResult, h: seq<LotteryResult>)
    ensures AnalysisStats(Some(cur), h).value.avgSum
         == AnalysisStats(Some(cur), FilterHistory(h, OnlyType(cur.lotteryType))).value.avgSum
  {
    FilterTwice(h, OnlyType(cur.lotteryType));
  }

  /** Three Lotto 6/45 entries with sums 120, 130 and 140 and one Powerball entry
      with sum 200 between them: a Lotto 6/45 result is compared with the
      baseline 130. Each entry holds a single number standing in for a full draw
      with that sum; only the entry sums matter to the mean. */
  lemma AverageSumScenario(cur: LotteryResult)
    requires cur.lotteryType == Lotto645
    ensures var h := [
        LotteryResult([120], None, 4, "D", "", Lotto645),
        LotteryResult([200], Some(9), 3, "C", "", Powerball),
        LotteryResult([130], None, 2, "B", "", Lotto645),
        LotteryResult([140], None, 1, "A", "", Lotto645)];
      AnalysisStats(Some(cur), h).value.avgSum == 130
  {
    var e0 := LotteryResult([120], None, 4, "D", "", Lotto645);
    var e1 := LotteryResult([200], Some(9), 3, "C", "", Powerball);
    var e2 := LotteryResult([130], None, 2, "B", "", Lotto645);
    var e3 := LotteryResult([140], None, 1, "A", "", Lotto645);
    var h := [e0, e1, e2, e3];
    var same := ScenarioFilter(e0, e1, e2, e3);
    SumOfSumsFlatten(same);
    SumOfThree(e0, e2, e3);
    SumOfOne(120);
    SumOfOne(130);
    SumOfOne(140);
    AnalysisSums(cur, h);
    var avg := AnalysisStats(Some(cur), h).value.avgSum;
    assert RoundsTo(avg, 390, 3);
  }

  /** Filtering four entries of which only the second has another type. */
  lemma ScenarioFilter(e0: LotteryResult, e1: LotteryResult, e2: LotteryResult, e3: LotteryResult)
      returns (same: seq<LotteryResult>)
    requires e0.lotteryType == e2.lotteryType == e3.lotteryType != e1.lotteryType
    ensures same == FilterHistory([e0, e1, e2, e3], OnlyType(e0.lotteryType)) == [e0, e2, e3]
  {
    var f := OnlyType(e0.lotteryType);
    assert FilterHistory([e3], f) == [e3] by {
      assert [e3][1..] == [];
    }
    assert FilterHistory([e2, e3], f) == [e2, e3] by {
      assert [e2, e3][1..] == [e3];
    }
    assert FilterHistory([e1, e2, e3], f) == [e2, e3] by {
      assert [e1, e2, e3][1..] == [e2, e3];
    }
    assert [e0, e1, e2, e3][1..] == [e1, e2, e3];
    same := FilterHistory([e0, e1, e2, e3], f);
  }

  lemma SumOfThree(a: LotteryResult, b: LotteryResult, c: LotteryResult)
    ensures SumOfSums([a, b, c]) == Sum(a.numbers) + Sum(b.numbers) + Sum(c.numbers)
  {
    assert [c][1..] == [];
    assert SumOfSums([c]) == Sum(c.numbers);
    assert [b, c][1..] == [c];
    assert SumOfSums([b, c]) == Sum(b.numbers) + Sum(c.numbers);
    assert [a, b, c][1..] == [b, c];
  }

  lemma SumOfOne(x: int)
    ensures Sum([x]) == x
  {
    assert [x][1..] == [];
  }

  /** The top-ten conditions pin the chart down: two lists that both meet them
      are the same list. */
  lemma TopTenUnique(all: seq<int>, a: seq<FreqEntry>, b: seq<FreqEntry>)
    requires IsTopTen(all, a) && IsTopTen(all, b)
    ensures a == b
  {
    var k := 0;
    while k < |a| && k < |b|
      invariant k <= |a| && k <= |b|
      invariant a[..k] == b[..k]
    {
      TopTenSamePosition(all, a, b, k);
      TopTenSamePosition(all, b, a, k);
      assert b[k] == a[k] by {
        if a[k].num == b[k].num {
          assert a[k].count == b[k].count;
        }
      }
      assert a[..k + 1] == a[..k] + [a[k]] && b[..k + 1] == b[..k] + [b[k]];
      k := k + 1;
    }
    if |a| <= |b| {
      TopTenPrefixIsWhole(all, a, b);
    } else {
      TopTenPrefixIsWhole(all, b, a);
    }
    assert a == a[..k] && b == b[..k];
  }

  /** With equal prefixes, the next entry of `a` cannot rank strictly before the
      next entry of `b`. */
  lemma TopTenSamePosition(all: seq<int>, a: seq<FreqEntry>, b: seq<FreqEntry>, k: nat)
    requires IsTopTen(all, a) && IsTopTen(all, b)
    requires k < |a| && k < |b| && a[..k] == b[..k]
    ensures !RanksBefore(a[k], b[k])
  {
    var n := a[k].num;
    if RanksBefore(a[k], b[k]) {
      if n in Nums(b) {
        var j :| 0 <= j < |b| && Nums(b)[j] == n;
        assert false;
      } else {
        assert false;
      }
    }
  }

  /** A list meeting the conditions with fewer than ten bars lists every number,
      so no other such list can extend it. */
  lemma TopTenPrefixIsWhole(all: seq<int>, a: seq<FreqEntry>, b: seq<FreqEntry>)
    requires IsTopTen(all, a) && IsTopTen(all, b)
    requires |a| <= |b| && a == b[..|a|]
    ensures |a| == |b|
  {
    if |a| < |b| {
      RankedFreshNumber(all, b, |a|);
      assert false;
    }
  }

  /** In a ranked list of true counts, entry `k` repeats no earlier number. */
  lemma RankedFreshNumber(all: seq<int>, b: seq<FreqEntry>, k: nat)
    requires IsTopTen(all, b) && k < |b|
    ensures b[k].num !in Nums(b[..k])
  {
    if b[k].num in Nums(b[..k]) {
      assert false;
    }
  }
}
