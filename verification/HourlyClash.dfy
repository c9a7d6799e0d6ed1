/** The hourly chart when a source is itself called "Other": exactly what is still conserved. */
module HourlyClash {
  import opened Wrappers
  import opened Slices
  import opened Activity
  import opened Hourly
  import opened HourlyConservation

  /** A tail is folded although one of the shown series is called "Other". */
  predicate Overwrites(ranked: seq<string>) {
    Tail(ranked) != [] && OTHER in Shown(ranked) && OTHER !in Tail(ranked)
  }

  /** Changing one entry of a dictionary changes the sum over names by that entry. */
  lemma {:induction false} SumOverChanged(names: seq<string>, m: map<string, int>, n: map<string, int>, k: string)
    requires NoRepeats(names) && k in names
    requires forall i :: 0 <= i < |names| && names[i] != k ==> WorkOf(m, names[i]) == WorkOf(n, names[i])
    ensures SumOver(names, n) == SumOver(names, m) - WorkOf(m, k) + WorkOf(n, k)
  {
    var init, last := names[..|names| - 1], names[|names| - 1];
    assert names == init + [last];
    if last == k {
      SumOverAgrees(init, m, n);
    } else {
      SumOverChanged(init, m, n, k);
    }
  }

  // ----- Totals -----

  lemma SumOverSnoc(names: seq<string>, name: string, m: map<string, int>)
    ensures SumOver(names + [name], m) == SumOver(names, m) + WorkOf(m, name)
  {
    assert (names + [name])[..|names|] == names;
  }

  lemma FoldedAgrees(totals: map<string, int>, shown: seq<string>, tail: seq<string>)
    requires tail != [] && OTHER !in tail && forall s :: !(s in shown && s in tail)
    ensures var folded := FoldedTotals(totals, tail);
            && (forall i :: 0 <= i < |shown| && shown[i] != OTHER ==> WorkOf(totals, shown[i]) == WorkOf(folded, shown[i]))
            && WorkOf(folded, OTHER) == SumOver(tail, totals)
  {
  }

  /** The overwritten total is counted twice, and the real one not at all. */
  lemma TotalsUnderClash(totals: map<string, int>, ranked: seq<string>)
    requires NoRepeats(ranked) && Overwrites(ranked)
    requires forall k :: k in totals ==> k in ranked
    ensures SumOver(Series(ranked), FoldedTotals(totals, Tail(ranked))) ==
              ValueSum(totals) - WorkOf(totals, OTHER) + SumOver(Tail(ranked), totals)
  {
    var shown, tail := Shown(ranked), Tail(ranked);
    SplitNames(ranked);
    ValueSumIsSumOver(totals, ranked);
    SumOverConcat(shown, tail, totals);
    FoldedAgrees(totals, shown, tail);
    SumOverChanged(shown, totals, FoldedTotals(totals, tail), OTHER);
    SumOverSnoc(shown, OTHER, FoldedTotals(totals, tail));
  }

  /** When the chart can be drawn, its total is the work of all sources if and only if there is no
      clash, or the source called "Other" has done just as much as the tail. */
  lemma TotalIsConservedExactly(t: Tally, w: Window)
    requires TallyInv(t) && OtherSurvives(t)
    ensures var tail := Tail(Ranked(t.order, t.totals));
            ChartOf(t, w).total == ValueSum(t.totals) <==>
              NoClashIn(t) || WorkOf(t.totals, OTHER) == SumOver(tail, t.totals)
  {
    var ranked := Ranked(t.order, t.totals);
    RankedHasTheNames(t);
    SplitNames(ranked);
    if NoClashIn(t) {
      FoldKeepsTotals(t.totals, ranked);
    } else {
      TotalsUnderClash(t.totals, ranked);
    }
  }

  // ----- Bars -----

  /** The hour holds work of a source called "Other" and work of the tail. */
  predicate HoldsBoth(bucket: map<string, int>, tail: seq<string>) {
    OTHER in bucket && SumOver(tail, bucket) != 0
  }

  lemma RollUpUnderClash(bucket: map<string, int>, ranked: seq<string>)
    requires NoRepeats(ranked) && Overwrites(ranked)
    requires forall k :: k in bucket ==> k in ranked
    ensures var tail := Tail(ranked);
            ValueSum(RolledUp(bucket, tail)) ==
              ValueSum(bucket) - if HoldsBoth(bucket, tail) then bucket[OTHER] else 0
    ensures SumOver(Series(ranked), RolledUp(bucket, Tail(ranked))) ==
              ValueSum(RolledUp(bucket, Tail(ranked))) + WorkOf(RolledUp(bucket, Tail(ranked)), OTHER)
  {
    var shown, tail := Shown(ranked), Tail(ranked);
    var rolled := RolledUp(bucket, tail);
    SplitNames(ranked);
    ValueSumIsSumOver(bucket, ranked);
    SumOverConcat(shown, tail, bucket);
    SumOverChanged(shown, bucket, rolled, OTHER);
    ValueSumIsSumOver(rolled, shown);
    assert (shown + [OTHER])[..|shown|] == shown;
  }

  /** A bar shows all the work of its hour if and only if there is no clash or the hour does not hold
      both kinds of "Other"; it never shows more. */
  lemma BarIsConservedExactly(t: Tally, w: Window, i: nat)
    requires TallyInv(t) && OtherSurvives(t) && i < |t.perHour|
    ensures var tail := Tail(Ranked(t.order, t.totals));
            && ChartOf(t, w).hours[i].total <= ValueSum(t.perHour[i])
            && (ChartOf(t, w).hours[i].total == ValueSum(t.perHour[i]) <==>
                  NoClashIn(t) || !HoldsBoth(t.perHour[i], tail))
  {
    var ranked := Ranked(t.order, t.totals);
    RankedHasTheNames(t);
    SplitNames(ranked);
    if NoClashIn(t) {
      RollUpKeepsBucket(t.perHour[i], ranked);
    } else {
      RollUpUnderClash(t.perHour[i], ranked);
      if OTHER in t.perHour[i] {
        assert t.perHour[i][OTHER] > 0;
      }
    }
  }

  lemma {:induction false} BarsSumExactly(bars: seq<HourBucket>, hours: seq<map<string, int>>)
    requires |bars| == |hours|
    requires forall i :: 0 <= i < |bars| ==> bars[i].total <= ValueSum(hours[i])
    ensures BarSum(bars) <= HoursSum(hours)
    ensures BarSum(bars) == HoursSum(hours) <==> forall i :: 0 <= i < |bars| ==> bars[i].total == ValueSum(hours[i])
  {
    if bars != [] {
      var n := |bars| - 1;
      BarsSumExactly(bars[..n], hours[..n]);
      assert forall i :: 0 <= i < n ==> bars[..n][i] == bars[i] && hours[..n][i] == hours[i];
    }
  }

  /** Hours that show all their work, one by one, and the sum of all. */
  lemma FineBarsAddUp(bars: seq<HourBucket>, hours: seq<map<string, int>>, fine: nat -> bool)
    requires |bars| == |hours|
    requires forall i: nat :: i < |bars| ==> bars[i].total <= ValueSum(hours[i])
    requires forall i: nat :: i < |bars| ==> (bars[i].total == ValueSum(hours[i]) <==> fine(i))
    ensures BarSum(bars) == HoursSum(hours) <==> forall i: nat :: i < |bars| ==> fine(i)
  {
    BarsSumExactly(bars, hours);
  }

  lemma BarsAreConservedExactly(t: Tally, w: Window)
    requires TallyInv(t) && OtherSurvives(t) && |t.perHour| == w.count
    ensures BarSum(ChartOf(t, w).hours) == HoursSum(t.perHour) <==>
              NoClashIn(t) || forall i :: 0 <= i < |t.perHour| ==> !HoldsBoth(t.perHour[i], Tail(Ranked(t.order, t.totals)))
  {
    var tail, none, bars := Tail(Ranked(t.order, t.totals)), NoClashIn(t), ChartOf(t, w).hours;
    var fine := (i: nat) => i < |t.perHour| && (none || !HoldsBoth(t.perHour[i], tail));
    forall i: nat | i < |bars|
      ensures bars[i].total <= ValueSum(t.perHour[i])
      ensures bars[i].total == ValueSum(t.perHour[i]) <==> fine(i)
    {
      BarIsConservedExactly(t, w, i);
    }
    FineBarsAddUp(bars, t.perHour, fine);
    assert forall i: nat :: i < |t.perHour| ==> (fine(i) <==> none || !HoldsBoth(t.perHour[i], tail));
  }

  // ----- Heights -----

  lemma HeightGrows(total: int, more: int, maxTotal: int)
    requires 0 <= total <= maxTotal && more > 0 && maxTotal > 0
    ensures Height(total + more, maxTotal) > Height(total, maxTotal)
  {
    HeightsAdd(total, more, maxTotal);
    var q := more as real / maxTotal as real;
    assert q * maxTotal as real == more as real;
    assert q > 0.0;
  }

  /** The bar is stacked with one of its shares drawn twice. */
  predicate Twice(bar: HourBucket, share: int, maxTotal: int) {
    && HeightSum(bar.segments) == Height(bar.total + share, maxTotal)
    && (share == 0 <==> HeightSum(bar.segments) == Height(bar.total, maxTotal))
  }

  lemma DrawnTwice(bar: HourBucket, share: int, stacked: int, maxTotal: int)
    requires 0 <= share <= bar.total <= maxTotal && stacked == bar.total + share
    requires HeightSum(bar.segments) == Height(stacked, maxTotal)
    ensures Twice(bar, share, maxTotal)
  {
    if share > 0 {
      HeightGrows(bar.total, share, maxTotal);
    }
  }

  lemma ShareOfBucket(rolled: map<string, int>, k: string)
    requires AllPositive(rolled)
    ensures 0 <= WorkOf(rolled, k) <= ValueSum(rolled)
    ensures WorkOf(rolled, k) == 0 <==> k !in rolled
  {
    PositiveSum(rolled);
    if k in rolled {
      ValueSumTakesOut(rolled, k);
      PositiveSum(rolled - {k});
    }
  }

  /** One bar of the chart, and that none is larger than the largest. */
  lemma BarOfChart(t: Tally, w: Window, i: nat)
    requires i < |t.perHour|
    ensures var ranked := Ranked(t.order, t.totals);
            var rolled := RolledUp(t.perHour[i], Tail(ranked));
            var chart := ChartOf(t, w);
            && chart.hours[i].total == ValueSum(rolled) <= chart.maxTotal
            && chart.hours[i].segments == SegmentsOf(rolled, Series(ranked), chart.maxTotal)
  {
    MaxIsLargest(RolledUpAll(t.perHour, Tail(Ranked(t.order, t.totals))));
  }

  /** Under a clash what the bar shows as "Other" is drawn twice. */
  lemma StackUnderClash(t: Tally, w: Window, i: nat)
    requires TallyInv(t) && OtherSurvives(t) && !NoClashIn(t) && i < |t.perHour|
    ensures var rolled := RolledUp(t.perHour[i], Tail(Ranked(t.order, t.totals)));
            Twice(ChartOf(t, w).hours[i], WorkOf(rolled, OTHER), ChartOf(t, w).maxTotal)
  {
    var ranked := Ranked(t.order, t.totals);
    ClashOverwrites(t);
    BarOfChart(t, w, i);
    BarUnderClash(ChartOf(t, w).hours[i], t.perHour[i], ranked, ChartOf(t, w).maxTotal);
  }

  lemma BarUnderClash(bar: HourBucket, bucket: map<string, int>, ranked: seq<string>, maxTotal: int)
    requires NoRepeats(ranked) && Overwrites(ranked) && AllPositive(bucket)
    requires forall k :: k in bucket ==> k in ranked
    requires var rolled := RolledUp(bucket, Tail(ranked));
             bar.total == ValueSum(rolled) <= maxTotal && bar.segments == SegmentsOf(rolled, Series(ranked), maxTotal)
    ensures Twice(bar, WorkOf(RolledUp(bucket, Tail(ranked)), OTHER), maxTotal)
  {
    var rolled := RolledUp(bucket, Tail(ranked));
    RollUpUnderClash(bucket, ranked);
    RollUpStaysPositive(bucket, Tail(ranked));
    ShareOfBucket(rolled, OTHER);
    SegmentsSumToHeight(rolled, Series(ranked), maxTotal);
    DrawnTwice(bar, WorkOf(rolled, OTHER), SumOver(Series(ranked), rolled), maxTotal);
  }

  lemma ClashOverwrites(t: Tally)
    requires TallyInv(t) && OtherSurvives(t) && !NoClashIn(t)
    ensures var ranked := Ranked(t.order, t.totals);
            NoRepeats(ranked) && Overwrites(ranked) && forall k :: k in t.totals ==> k in ranked
  {
    RankedHasTheNames(t);
    SplitNames(Ranked(t.order, t.totals));
  }

  /** So the stack is right if and only if there is no clash or the bar shows no "Other". */
  lemma StackIsExact(t: Tally, w: Window, i: nat)
    requires TallyInv(t) && OtherSurvives(t) && i < |t.perHour|
    ensures HeightSum(ChartOf(t, w).hours[i].segments) == Height(ChartOf(t, w).hours[i].total, ChartOf(t, w).maxTotal) <==>
              NoClashIn(t) || OTHER !in RolledUp(t.perHour[i], Tail(Ranked(t.order, t.totals)))
  {
    if NoClashIn(t) {
      BarHeight(t, w, i);
    } else {
      StackUnderClash(t, w, i);
      RollUpStaysPositive(t.perHour[i], Tail(Ranked(t.order, t.totals)));
      ShareOfBucket(RolledUp(t.perHour[i], Tail(Ranked(t.order, t.totals))), OTHER);
    }
  }

  // ----- All of it, for records -----

  /** What a clash leaves of conservation: the chart's total, the sum of its bars, and the stacking of
      each bar, with the exact condition for each. */
  lemma ConservedExactly(records: seq<Record>, now: int, w: Window)
    requires OtherSurvives(TallyOf(records, now, w))
    ensures var t := TallyOf(records, now, w);
            var chart, tail := ChartOf(t, w), Tail(Ranked(t.order, t.totals));
            && (chart.total == WindowWork(records, now, w, w.count) <==>
                  NoClashIn(t) || WorkOf(t.totals, OTHER) == SumOver(tail, t.totals))
            && (BarSum(chart.hours) == WindowWork(records, now, w, w.count) <==>
                  NoClashIn(t) || forall i :: 0 <= i < w.count ==> !HoldsBoth(t.perHour[i], tail))
            && forall i :: 0 <= i < w.count ==>
                 (HeightSum(chart.hours[i].segments) == Height(chart.hours[i].total, chart.maxTotal) <==>
                    NoClashIn(t) || OTHER !in RolledUp(t.perHour[i], tail))
  {
    var t := TallyOf(records, now, w);
    TallyKeepsInv(records, now, w);
    HoursSumIsWindowWork(records, now, w, w.count);
    assert t.perHour[..w.count] == t.perHour;
    TotalIsConservedExactly(t, w);
    BarsAreConservedExactly(t, w);
    forall i | 0 <= i < w.count
      ensures HeightSum(ChartOf(t, w).hours[i].segments) == Height(ChartOf(t, w).hours[i].total, ChartOf(t, w).maxTotal) <==>
                NoClashIn(t) || OTHER !in RolledUp(t.perHour[i], Tail(Ranked(t.order, t.totals)))
    {
      StackIsExact(t, w, i);
    }
  }

  // ----- Records that reach a clash -----

  /** One second of work at the start of the window. */
  function Second(source: string, cpus: nat, w: Window): Record {
    Record("run", source, cpus, HourStart(w, 0), Some(HourStart(w, 0) + 1), w.offset)
  }

  lemma SecondIsOneSlice(source: string, cpus: nat, w: Window, now: int)
    ensures var r := Second(source, cpus, w);
            && SlicesOf(r.start, EndOf(r, now), HOUR, r.offset) == [Slice(w.first, 1)]
            && StartOf(w.first, HOUR, r.offset) == HourStart(w, 0)
  {
    var start := HourStart(w, 0);
    assert start + w.offset == w.first * HOUR;
    assert PeriodOf(start, HOUR, w.offset) == w.first;
    assert StartOf(w.first + 1, HOUR, w.offset) == start + HOUR;
    assert SlicesOf(start + 1, start + 1, HOUR, w.offset) == [];
  }

  lemma OneSliceIsCredited(t: Tally, s: Slice, r: Record, w: Window)
    requires |t.perHour| == w.count && SlotOf(w, StartOf(s.period, HOUR, r.offset)) == Some(0)
    ensures CreditSlices(t, w, [s], r) == Credited(t, 0, r.source, s.seconds * CpusOf(r))
  {
    assert [s][..0] == [];
  }

  lemma SecondIsCredited(records: seq<Record>, source: string, cpus: nat, w: Window, now: int)
    requires w.count == 1 && cpus > 0
    ensures TallyOf(records + [Second(source, cpus, w)], now, w) == Credited(TallyOf(records, now, w), 0, source, cpus)
  {
    var r := Second(source, cpus, w);
    var all := records + [r];
    assert all[..|all| - 1] == records && all[|all| - 1] == r;
    SecondIsOneSlice(source, cpus, w, now);
    assert SlotOf(w, HourStart(w, 0)) == Some(0);
    OneSliceIsCredited(TallyOf(records, now, w), Slice(w.first, 1), r, w);
  }

  predicate Ordered(names: seq<string>, totals: map<string, int>) {
    forall i, j :: 0 <= i < j < |names| ==> WorkOf(totals, names[i]) >= WorkOf(totals, names[j])
  }

  lemma OrderedInit(names: seq<string>, totals: map<string, int>)
    requires Ordered(names, totals) && names != []
    ensures var init, last := names[..|names| - 1], names[|names| - 1];
            && names == init + [last] && Ordered(init, totals)
            && forall i :: 0 <= i < |init| ==> WorkOf(totals, init[i]) >= WorkOf(totals, last)
  {
  }

  /** Names given in order of their totals are ranked as they are. */
  lemma {:induction false} OrderedIsRanked(names: seq<string>, totals: map<string, int>)
    requires Ordered(names, totals)
    ensures Ranked(names, totals) == names
  {
    if names != [] {
      OrderedInit(names, totals);
      OrderedIsRanked(names[..|names| - 1], totals);
      LeastIsLast(names[..|names| - 1], names[|names| - 1], totals);
    }
  }

  lemma {:induction false} LeastIsLast(ranked: seq<string>, name: string, totals: map<string, int>)
    requires forall i :: 0 <= i < |ranked| ==> WorkOf(totals, ranked[i]) >= WorkOf(totals, name)
    ensures Placed(ranked, name, totals) == ranked + [name]
  {
    if ranked != [] {
      LeastIsLast(ranked[1..], name, totals);
      assert ranked + [name] == [ranked[0]] + (ranked[1..] + [name]);
    }
  }

  /** One second of work of each source, on one CPU but for the first source. */
  function Seconds(names: seq<string>, first: nat, w: Window): seq<Record> {
    if names == [] then []
    else
      Seconds(names[..|names| - 1], first, w) + [Second(names[|names| - 1], if |names| == 1 then first else 1, w)]
  }

  function Shares(names: seq<string>, first: nat): map<string, int> {
    map k | k in names :: if k == names[0] then first else 1
  }

  lemma NewSourceIsCredited(m: map<string, int>, order: seq<string>, source: string, work: int)
    requires source !in m
    ensures Credited(Tally([m], m, order), 0, source, work) ==
              Tally([m[source := work]], m[source := work], order + [source])
  {
    assert [m][0 := m[source := work]] == [m[source := work]];
  }

  lemma SecondsStep(records: seq<Record>, m: map<string, int>, order: seq<string>, source: string, cpus: nat, w: Window, now: int)
    requires w.count == 1 && cpus > 0 && source !in m
    requires TallyOf(records, now, w) == Tally([m], m, order)
    ensures TallyOf(records + [Second(source, cpus, w)], now, w) ==
              Tally([m[source := cpus]], m[source := cpus], order + [source])
  {
    SecondIsCredited(records, source, cpus, w, now);
    NewSourceIsCredited(m, order, source, cpus);
  }

  lemma SharesGrow(names: seq<string>, first: nat)
    requires names != [] && NoRepeats(names)
    ensures var init, last := names[..|names| - 1], names[|names| - 1];
            && names == init + [last] && last !in Shares(init, first)
            && Shares(names, first) == Shares(init, first)[last := if |names| == 1 then first else 1]
  {
  }

  lemma {:induction false} SecondsTally(names: seq<string>, first: nat, w: Window, now: int)
    requires NoRepeats(names) && w.count == 1 && first > 0
    ensures TallyOf(Seconds(names, first, w), now, w) == Tally([Shares(names, first)], Shares(names, first), names)
  {
    if names == [] {
      assert Shares(names, first) == map[];
      assert TallyOf([], now, w).perHour == [map[]];
    } else {
      var init, last := names[..|names| - 1], names[|names| - 1];
      SecondsTally(init, first, w, now);
      SharesGrow(names, first);
      SecondsStep(Seconds(init, first, w), Shares(init, first), init, last, if |names| == 1 then first else 1, w, now);
    }
  }

  lemma SharesAreRanked(names: seq<string>, first: nat)
    requires NoRepeats(names) && first > 0
    ensures Ranked(names, Shares(names, first)) == names
  {
    OrderedIsRanked(names, Shares(names, first));
  }

  lemma DistinctNames(names: seq<string>)
    requires names == [OTHER, "a", "b", "c", "d", "e"] || names == ["a", "b", "c", "d", "e", OTHER]
    ensures NoRepeats(names)
  {
    assert |OTHER| == 5;
  }

  lemma TailOfShares(shares: map<string, int>, tail: seq<string>)
    requires tail == ["e"] && "e" in shares && shares["e"] == 1 && OTHER in shares
    ensures SumOver(tail, shares) == 1
    ensures HoldsBoth(shares, tail) && OTHER in RolledUp(shares, tail)
  {
    SumOverSnoc([], "e", shares);
    assert [] + ["e"] == tail;
  }

  lemma TwoAgainstOne(records: seq<Record>, now: int, w: Window, names: seq<string>, shares: map<string, int>)
    requires w.count == 1 && TallyOf(records, now, w) == Tally([shares], shares, names) && Ranked(names, shares) == names
    requires Tail(names) == ["e"] && "e" in shares && shares["e"] == 1
    requires OTHER in names && OTHER in shares && shares[OTHER] == 2
    ensures var t := TallyOf(records, now, w);
            && OtherSurvives(t) && !NoClashIn(t)
            && ChartOf(t, w).total != WindowWork(records, now, w, 1)
            && BarSum(ChartOf(t, w).hours) != WindowWork(records, now, w, 1)
            && HeightSum(ChartOf(t, w).hours[0].segments) != Height(ChartOf(t, w).hours[0].total, ChartOf(t, w).maxTotal)
  {
    TailOfShares(shares, ["e"]);
    ConservedExactly(records, now, w);
  }

  /** A source called "Other" with two CPU-seconds and five others with one each, all in one hour: the
      chart's total is six of the seven CPU-seconds, its bar five, and the stack higher than the bar. */
  lemma OtherLosesWork(now: int, w: Window)
    requires w.count == 1
    ensures var records := Seconds([OTHER, "a", "b", "c", "d", "e"], 2, w);
            var t := TallyOf(records, now, w);
            && OtherSurvives(t) && !NoClashIn(t)
            && ChartOf(t, w).total != WindowWork(records, now, w, 1)
            && BarSum(ChartOf(t, w).hours) != WindowWork(records, now, w, 1)
            && HeightSum(ChartOf(t, w).hours[0].segments) != Height(ChartOf(t, w).hours[0].total, ChartOf(t, w).maxTotal)
  {
    var names := [OTHER, "a", "b", "c", "d", "e"];
    DistinctNames(names);
    SecondsTally(names, 2, w, now);
    SharesAreRanked(names, 2);
    assert Tail(names) == ["e"] && names[0] == OTHER && names[5] == "e";
    TwoAgainstOne(Seconds(names, 2, w), now, w, names, Shares(names, 2));
  }

  /** With "Other" last among six equal sources the chart is not drawn at all. */
  lemma OtherStopsTheChart(now: int, w: Window)
    requires w.count == 1
    ensures !OtherSurvives(TallyOf(Seconds(["a", "b", "c", "d", "e", OTHER], 1, w), now, w))
  {
    var names := ["a", "b", "c", "d", "e", OTHER];
    DistinctNames(names);
    SecondsTally(names, 1, w, now);
    SharesAreRanked(names, 1);
    assert Tail(names) == [OTHER];
  }
}
