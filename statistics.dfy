/** The statistics screen's numbers (`DrinkStatisticsScreen`): which statistics it
    shows, the summary card and the chart's scale. */
module Statistics {
  import opened Wrappers
  import opened KotlinInt
  import opened Collections
  import opened DrinkRecordDao

  datatype Period = Week | Month

  /** The period chip: "30天" picks thirty days, "7天" and anything else seven. */
  function PeriodOf(chip: string): (p: Period)
    ensures p == Month <==> chip == "30天"
  {
    if chip == "7天" then Week else if chip == "30天" then Month else Week
  }

  /** The statistics loaded for a period. */
  function PeriodStats(p: Period, records: seq<DrinkRecord.DrinkRecord>): (stats: seq<DayStats>)
    ensures p == Week ==> stats == Last7DaysStats(records)
    ensures p == Month ==> stats == Last30DaysStats(records)
  {
    match p
    case Week => Last7DaysStats(records)
    case Month => Last30DaysStats(records)
  }

  /** Whatever the period, the week shown is the start of the month's list. */
  lemma PeriodStatsNest(records: seq<DrinkRecord.DrinkRecord>)
    ensures PeriodStats(Week, records) == Take(PeriodStats(Month, records), 7)
  {
    Last7IsPrefixOfLast30(records);
  }

  function TotalOf(d: DayStats): int { d.totalAmount }

  /** A day is marked done when its total reaches the goal. */
  predicate IsCompleted(d: DayStats, dailyGoal: Int32) { d.totalAmount >= dailyGoal }

  function CompletedBy(dailyGoal: Int32): DayStats -> bool
  {
    (d: DayStats) => IsCompleted(d, dailyGoal)
  }

  /** The summary card's figures. */
  datatype Details = Details(totalAmount: Int32, averageAmount: Int32, completedDays: nat)

  /** `StatisticsDetailsCard`: nothing for no data; otherwise the sum of the day
      totals (an `Int` sum), its quotient by the number of days rounded toward zero,
      and the number of days that reached the goal. */
  function StatisticsDetails(data: seq<DayStats>, dailyGoal: Int32): Option<Details>
  {
    if |data| == 0 then None
    else
      var total := Wrap32(SumOf(data, TotalOf));
      var average := Wrap32(TruncDiv(total, |data|));
      Some(Details(total, average, CountOf(data, CompletedBy(dailyGoal))))
  }

  /** The card is shown exactly when there is data; the completed days are at most
      the days shown, all of them exactly when every day reached the goal and none
      exactly when no day did. */
  lemma DetailsCompletedDays(data: seq<DayStats>, dailyGoal: Int32)
    ensures StatisticsDetails(data, dailyGoal).None? <==> |data| == 0
    ensures StatisticsDetails(data, dailyGoal).Some? ==>
      var c := StatisticsDetails(data, dailyGoal).value.completedDays;
      && c <= |data|
      && (c == |data| <==> forall i :: 0 <= i < |data| ==> IsCompleted(data[i], dailyGoal))
      && (c == 0 <==> forall i :: 0 <= i < |data| ==> !IsCompleted(data[i], dailyGoal))
  {
    CountOfExtremes(data, CompletedBy(dailyGoal));
  }

  /** When the day totals lie between `lo >= 0` and `hi` and their sum fits an `Int`,
      the total is that sum and the average lies between `lo` and `hi`, with
      `average * days <= total < (average + 1) * days`. */
  lemma DetailsAverageBounds(data: seq<DayStats>, dailyGoal: Int32, lo: int, hi: int)
    requires |data| > 0 && 0 <= lo
    requires forall i :: 0 <= i < |data| ==> lo <= data[i].totalAmount <= hi
    requires SumOf(data, TotalOf) <= IntMax
    ensures StatisticsDetails(data, dailyGoal).Some?
    ensures StatisticsDetails(data, dailyGoal).value.totalAmount == SumOf(data, TotalOf)
    ensures StatisticsDetails(data, dailyGoal).value.averageAmount == SumOf(data, TotalOf) / |data|
    ensures lo <= StatisticsDetails(data, dailyGoal).value.averageAmount <= hi
  {
    var n := |data|;
    var total := SumOf(data, TotalOf);
    SumOfBounds(data, TotalOf, lo, hi);
    QuotientBetween(total, n, lo, hi);
    SmallQuotient(total, n);
  }

  lemma SmallQuotient(total: int, n: int)
    requires 0 <= total <= IntMax && n > 0
    ensures Wrap32(total) == total
    ensures Wrap32(TruncDiv(total, n)) == total / n
  {
    var q := TruncDiv(total, n);
    assert q == total / n;
    QuotientAtMost(total, n);
  }

  lemma QuotientAtMost(total: int, n: int)
    requires 0 <= total && n > 0
    ensures 0 <= total / n <= total
  {
    var q := total / n;
    assert q * n <= total;
    assert q <= q * n by {
      if q > 0 {
        assert q * n == q + q * (n - 1);
      }
    }
  }

  /** A quotient of a sum of `n` terms between `lo >= 0` and `hi` lies between them. */
  lemma QuotientBetween(total: int, n: int, lo: int, hi: int)
    requires n > 0 && 0 <= lo && n * lo <= total <= n * hi
    ensures total >= 0
    ensures (total / n) * n <= total < (total / n + 1) * n
    ensures lo <= total / n <= hi
  {
    assert n * lo >= 0;
    var q := total / n;
    assert q * n <= total < (q + 1) * n;
  }

  /** Kotlin `maxOfOrNull { it.totalAmount }`. */
  function MaxTotal(data: seq<DayStats>): (m: Option<Int32>)
    ensures m.None? <==> |data| == 0
    ensures m.Some? ==> forall i :: 0 <= i < |data| ==> data[i].totalAmount <= m.value
    ensures m.Some? ==> exists i :: 0 <= i < |data| && data[i].totalAmount == m.value
  {
    if |data| == 0 then None
    else
      var rest := MaxTotal(data[1..]);
      if rest.None? || data[0].totalAmount >= rest.value then Some(data[0].totalAmount)
      else
        assert forall i :: 1 <= i < |data| ==> data[i] == data[1..][i - 1];
        rest
  }

  /** The chart's top value: nothing to draw for no data; otherwise the larger of
      the largest day total (or 0) and the goal. It is at least every day total
      and the goal, and is one of them. */
  function ChartMaxValue(data: seq<DayStats>, dailyGoal: Int32): (m: Option<Int32>)
    ensures m.None? <==> |data| == 0
    ensures m.Some? ==> m.value >= dailyGoal && forall i :: 0 <= i < |data| ==> data[i].totalAmount <= m.value
    ensures m.Some? ==> m.value == dailyGoal || exists i :: 0 <= i < |data| && data[i].totalAmount == m.value
  {
    if |data| == 0 then None
    else
      var largest := MaxTotal(data).GetOr(0);
      Some(if largest >= dailyGoal then largest else dailyGoal)
  }
}
