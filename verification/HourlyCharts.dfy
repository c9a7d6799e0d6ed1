/** The hourly usage chart as a whole: built by loops, and conserving work. */
module HourlyCharts {
  import opened Wrappers
  import opened Activity
  import opened Hourly
  import opened HourlyConservation

  /** Folding deletes the total of a series exactly when a source called "Other" is in the tail. */
  lemma OnlyOtherIsMissed(t: Tally)
    requires TallyInv(t)
    ensures var ranked := Ranked(t.order, t.totals);
            AllRead(Series(ranked), FoldedTotals(t.totals, Tail(ranked))) <==> OtherSurvives(t)
  {
    var ranked := Ranked(t.order, t.totals);
    RankedHasTheNames(t);
    SplitNames(ranked);
    var series, tail := Series(ranked), Tail(ranked);
    if tail != [] {
      assert series[|series| - 1] == OTHER;
    }
  }

  /** `build_hourly_usage`; None stands for the KeyError. */
  method BuildHourlyUsage(records: seq<Record>, now: int, offset: int, hours: nat) returns (usage: Option<HourlyUsage>)
    ensures var w := WindowAt(now, offset, hours);
            var t := TallyOf(records, now, w);
            usage == if OtherSurvives(t) then Some(ChartOf(t, w)) else None
    ensures var w := WindowAt(now, offset, hours);
            NoClashIn(TallyOf(records, now, w)) ==>
              && usage.Some? && |usage.value.sources| <= MAX_SERIES + 1
              && BarSum(usage.value.hours) == usage.value.total == WindowWork(records, now, w, hours)
              && (forall i :: 0 <= i < hours ==> 0.0 <= HeightSum(usage.value.hours[i].segments) <= 100.0)
  {
    var w := WindowAt(now, offset, hours);
    var perHour, totals, order := Accumulate(records, now, w);
    var ranked := Ranked(order, totals);
    var series, tail := Series(ranked), Tail(ranked);
    var buckets := RollUpBuckets(perHour, tail);
    var folded := FoldedTotals(totals, tail);
    var maxTotal := LargestTotal(buckets);
    var bars := DrawBars(buckets, series, w, maxTotal);
    TallyKeepsInv(records, now, w);
    OnlyOtherIsMissed(Tally(perHour, totals, order));
    if NoClashIn(Tally(perHour, totals, order)) {
      ChartConservesWork(records, now, w);
      BarsFitTheChart(records, now, w);
    }
    if !AllRead(series, folded) {
      return None;
    }
    usage := Some(HourlyUsage(
      bars, series, map name | name in series && name in folded :: folded[name], maxTotal, SumOver(series, folded)));
  }
}
