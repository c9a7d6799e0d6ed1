/** The hourly chart conserves work: what it shows is what the records overlap the window with. */
module HourlyConservation {
  import opened Wrappers
  import opened Slices
  import opened Activity
  import opened Hourly

  // ----- What the records amount to -----

  /** CPU-seconds one record puts into an hour of the window; misaligned records put in none. */
  function Contribution(r: Record, now: int, w: Window, i: nat): nat {
    if Aligned(r, w) then CpusOf(r) * SecondsAt(r, now, w, i) else 0
  }

  function WorkAt(records: seq<Record>, now: int, w: Window, i: nat): nat {
    if records == [] then 0
    else WorkAt(records[..|records| - 1], now, w, i) + Contribution(records[|records| - 1], now, w, i)
  }

  function SourceWorkAt(records: seq<Record>, now: int, w: Window, i: nat, source: string): nat {
    if records == [] then 0
    else
      var r := records[|records| - 1];
      SourceWorkAt(records[..|records| - 1], now, w, i, source) + if r.source == source then Contribution(r, now, w, i) else 0
  }

  // ----- Slots -----

  /** The one slot a period of an aligned record falls into. */
  lemma SlotOfPeriod(r: Record, w: Window, k: int, i: nat)
    requires i < w.count
    ensures SlotOf(w, StartOf(k, HOUR, r.offset)) == Some(i) <==>
              StartOf(k, HOUR, r.offset) == HourStart(w, i)
  {
    var d := StartOf(k, HOUR, r.offset) - HourStart(w, 0);
    assert HourStart(w, i) == HourStart(w, 0) + i * HOUR;
  }

  lemma MisalignedHasNoSlot(r: Record, w: Window, k: int)
    ensures SlotOf(w, StartOf(k, HOUR, r.offset)).Some? ==> Aligned(r, w)
  {
    var d := StartOf(k, HOUR, r.offset) - HourStart(w, 0);
    assert d == (k - w.first) * HOUR - (r.offset - w.offset);
    if d % HOUR == 0 {
      assert r.offset - w.offset == (k - w.first - d / HOUR) * HOUR;
    }
  }

  /** The period of an aligned record that is hour i of the window. */
  function PeriodAt(r: Record, w: Window, i: nat): int {
    w.first + i + (r.offset - w.offset) / HOUR
  }

  lemma PeriodAtStarts(r: Record, w: Window, i: nat)
    requires Aligned(r, w)
    ensures StartOf(PeriodAt(r, w, i), HOUR, r.offset) == HourStart(w, i)
    ensures StartOf(PeriodAt(r, w, i) + 1, HOUR, r.offset) == HourStart(w, i + 1)
    ensures forall k :: StartOf(k, HOUR, r.offset) == HourStart(w, i) <==> k == PeriodAt(r, w, i)
  {
  }

  // ----- The tally -----

  lemma {:induction false} ValueSumCredit(m: map<string, int>, k: string, work: int)
    ensures ValueSum(m[k := WorkOf(m, k) + work]) == ValueSum(m) + work
  {
    var n := m[k := WorkOf(m, k) + work];
    ValueSumTakesOut(n, k);
    if k in m {
      ValueSumTakesOut(m, k);
      assert n - {k} == m - {k};
    } else {
      assert n - {k} == m;
    }
  }

  /** Slices credit each hour the seconds of the one period that is this hour. */
  lemma {:induction false} SlicesCredit(t: Tally, w: Window, slices: seq<Slice>, r: Record, i: nat)
    requires |t.perHour| == w.count && i < w.count
    ensures var u := CreditSlices(t, w, slices, r);
            var work := if Aligned(r, w) then WorkIn(slices, PeriodAt(r, w, i), CpusOf(r)) else 0;
            && ValueSum(u.perHour[i]) == ValueSum(t.perHour[i]) + work
            && forall s :: WorkOf(u.perHour[i], s) == WorkOf(t.perHour[i], s) + if s == r.source then work else 0
  {
    if slices != [] {
      var n := |slices| - 1;
      var s := slices[n];
      SlicesCredit(t, w, slices[..n], r, i);
      var before := CreditSlices(t, w, slices[..n], r);
      SlotOfPeriod(r, w, s.period, i);
      MisalignedHasNoSlot(r, w, s.period);
      if Aligned(r, w) {
        PeriodAtStarts(r, w, i);
      }
      ValueSumCredit(before.perHour[i], r.source, s.seconds * CpusOf(r));
      assert s.seconds * CpusOf(r) == CpusOf(r) * s.seconds;
    }
  }

  lemma RecordCredit(t: Tally, w: Window, r: Record, now: int, i: nat)
    requires |t.perHour| == w.count && i < w.count
    ensures var u := CreditSlices(t, w, SlicesOf(r.start, EndOf(r, now), HOUR, r.offset), r);
            && ValueSum(u.perHour[i]) == ValueSum(t.perHour[i]) + Contribution(r, now, w, i)
            && forall s :: WorkOf(u.perHour[i], s) == WorkOf(t.perHour[i], s) + if s == r.source then Contribution(r, now, w, i) else 0
  {
    var slices := SlicesOf(r.start, EndOf(r, now), HOUR, r.offset);
    SlicesCredit(t, w, slices, r, i);
    if Aligned(r, w) {
      var k := PeriodAt(r, w, i);
      PeriodAtStarts(r, w, i);
      SliceIsOverlap(r.start, EndOf(r, now), HOUR, r.offset, k);
      WorkIsCpusTimesSeconds(slices, k, CpusOf(r));
    }
  }

  /** Each hour of the tally, in total and by source, is the cpu-weighted overlap with that hour. */
  lemma {:induction false} TallyIsOverlap(records: seq<Record>, now: int, w: Window, i: nat)
    requires i < w.count
    ensures ValueSum(TallyOf(records, now, w).perHour[i]) == WorkAt(records, now, w, i)
    ensures forall s :: WorkOf(TallyOf(records, now, w).perHour[i], s) == SourceWorkAt(records, now, w, i, s)
  {
    if records != [] {
      var init, r := records[..|records| - 1], records[|records| - 1];
      TallyIsOverlap(init, now, w, i);
      RecordCredit(TallyOf(init, now, w), w, r, now, i);
    }
  }

  // ----- What accumulation keeps -----

  ghost predicate NoRepeats(names: seq<string>) {
    forall i, j :: 0 <= i < j < |names| ==> names[i] != names[j]
  }

  ghost function HoursSum(perHour: seq<map<string, int>>): int {
    if perHour == [] then 0 else HoursSum(perHour[..|perHour| - 1]) + ValueSum(perHour[|perHour| - 1])
  }

  predicate AllPositive(m: map<string, int>) {
    forall k :: k in m ==> m[k] > 0
  }

  /** Every source ever credited is in the totals and in the insertion order, once, and the totals
      hold as much as all hours together. */
  ghost predicate TallyInv(t: Tally) {
    && NoRepeats(t.order)
    && (forall s :: s in t.order <==> s in t.totals)
    && (forall i :: 0 <= i < |t.perHour| ==> t.perHour[i].Keys <= t.totals.Keys && AllPositive(t.perHour[i]))
    && ValueSum(t.totals) == HoursSum(t.perHour)
  }

  lemma {:induction false} HoursSumUpdate(perHour: seq<map<string, int>>, i: nat, m: map<string, int>)
    requires i < |perHour|
    ensures HoursSum(perHour[i := m]) == HoursSum(perHour) - ValueSum(perHour[i]) + ValueSum(m)
  {
    var n := |perHour| - 1;
    var after := perHour[i := m];
    if i == n {
      assert after[..n] == perHour[..n];
    } else {
      HoursSumUpdate(perHour[..n], i, m);
      assert after[..n] == perHour[..n][i := m];
    }
  }

  lemma CreditKeepsNames(t: Tally, i: nat, source: string, work: int)
    requires TallyInv(t) && i < |t.perHour| && work > 0
    ensures var u := Credited(t, i, source, work);
            && NoRepeats(u.order)
            && (forall s :: s in u.order <==> s in u.totals)
  {
    var u := Credited(t, i, source, work);
    assert forall s :: s in u.order <==> s in t.order || s == source;
  }

  lemma CreditKeepsHours(t: Tally, i: nat, source: string, work: int, j: nat)
    requires TallyInv(t) && i < |t.perHour| && work > 0 && j < |t.perHour|
    ensures var u := Credited(t, i, source, work);
            u.perHour[j].Keys <= u.totals.Keys && AllPositive(u.perHour[j])
  {
    assert t.perHour[j].Keys <= t.totals.Keys;
    assert AllPositive(t.perHour[j]) && AllPositive(t.perHour[i]);
  }

  lemma CreditKeepsSums(t: Tally, i: nat, source: string, work: int)
    requires i < |t.perHour| && ValueSum(t.totals) == HoursSum(t.perHour)
    ensures var u := Credited(t, i, source, work);
            ValueSum(u.totals) == HoursSum(u.perHour)
  {
    ValueSumCredit(t.totals, source, work);
    ValueSumCredit(t.perHour[i], source, work);
    HoursSumUpdate(t.perHour, i, t.perHour[i][source := WorkOf(t.perHour[i], source) + work]);
  }

  lemma CreditKeeps(t: Tally, i: nat, source: string, work: int)
    requires TallyInv(t) && i < |t.perHour| && work > 0
    ensures TallyInv(Credited(t, i, source, work))
  {
    var u := Credited(t, i, source, work);
    CreditKeepsSums(t, i, source, work);
    CreditKeepsNames(t, i, source, work);
    forall j | 0 <= j < |u.perHour|
      ensures u.perHour[j].Keys <= u.totals.Keys && AllPositive(u.perHour[j])
    {
      CreditKeepsHours(t, i, source, work, j);
    }
  }

  lemma {:induction false} CreditSlicesKeep(t: Tally, w: Window, slices: seq<Slice>, r: Record)
    requires TallyInv(t) && |t.perHour| == w.count
    requires forall j :: 0 <= j < |slices| ==> slices[j].seconds > 0
    ensures TallyInv(CreditSlices(t, w, slices, r))
  {
    if slices != [] {
      var n := |slices| - 1;
      CreditSlicesKeep(t, w, slices[..n], r);
      var s := slices[n];
      var slot := SlotOf(w, StartOf(s.period, HOUR, r.offset));
      if slot.Some? {
        assert s.seconds * CpusOf(r) > 0;
        CreditKeeps(CreditSlices(t, w, slices[..n], r), slot.value, r.source, s.seconds * CpusOf(r));
      }
    }
  }

  lemma {:induction false} EmptyHoursSum(n: nat)
    ensures HoursSum(EmptyTally(n).perHour) == 0
  {
    if n > 0 {
      EmptyHoursSum(n - 1);
      assert EmptyTally(n).perHour[..n - 1] == EmptyTally(n - 1).perHour;
    }
  }

  lemma {:induction false} TallyKeepsInv(records: seq<Record>, now: int, w: Window)
    ensures TallyInv(TallyOf(records, now, w))
  {
    if records == [] {
      EmptyHoursSum(w.count);
    } else {
      var r := records[|records| - 1];
      TallyKeepsInv(records[..|records| - 1], now, w);
      SlicesIncrease(r.start, EndOf(r, now), HOUR, r.offset, PeriodOf(r.start, HOUR, r.offset));
      CreditSlicesKeep(
        TallyOf(records[..|records| - 1], now, w), w, SlicesOf(r.start, EndOf(r, now), HOUR, r.offset), r);
    }
  }

  // ----- Sums over names -----

  lemma {:induction false} SumOverAgrees(names: seq<string>, m: map<string, int>, n: map<string, int>)
    requires forall i :: 0 <= i < |names| ==> WorkOf(m, names[i]) == WorkOf(n, names[i])
    ensures SumOver(names, m) == SumOver(names, n)
  {
    if names != [] {
      SumOverAgrees(names[..|names| - 1], m, n);
    }
  }

  lemma {:induction false} SumOverConcat(a: seq<string>, b: seq<string>, m: map<string, int>)
    ensures SumOver(a + b, m) == SumOver(a, m) + SumOver(b, m)
  {
    if b == [] {
      assert a + b == a;
    } else {
      assert (a + b)[..|a + b| - 1] == a + b[..|b| - 1];
      SumOverConcat(a, b[..|b| - 1], m);
    }
  }

  /** Summing a dictionary is summing over any list of names that has each key once. */
  lemma {:induction false} ValueSumIsSumOver(m: map<string, int>, names: seq<string>)
    requires NoRepeats(names) && forall k :: k in m ==> k in names
    ensures ValueSum(m) == SumOver(names, m)
  {
    if names == [] {
      assert m == map[];
    } else {
      var init, k := names[..|names| - 1], names[|names| - 1];
      LastName(names, m);
      ValueSumIsSumOver(m - {k}, init);
      SumOverAgrees(init, m, m - {k});
      if k in m {
        ValueSumTakesOut(m, k);
      } else {
        assert m - {k} == m;
      }
    }
  }

  lemma LastName(names: seq<string>, m: map<string, int>)
    requires names != [] && NoRepeats(names) && forall k :: k in m ==> k in names
    ensures var init, k := names[..|names| - 1], names[|names| - 1];
            && NoRepeats(init)
            && (forall j :: j in m - {k} ==> j in init)
            && forall i :: 0 <= i < |init| ==> WorkOf(m, init[i]) == WorkOf(m - {k}, init[i])
  {
    var init, k := names[..|names| - 1], names[|names| - 1];
    assert names == init + [k];
    assert forall i :: 0 <= i < |init| ==> init[i] == names[i] != k;
  }

  lemma RankedHasTheNames(t: Tally)
    requires TallyInv(t)
    ensures var ranked := Ranked(t.order, t.totals);
            NoRepeats(ranked) && forall s :: s in ranked <==> s in t.totals
  {
    var ranked := Ranked(t.order, t.totals);
    PermutationKeepsNames(t.order, ranked);
  }

  lemma PermutationKeepsNames(a: seq<string>, b: seq<string>)
    requires multiset(a) == multiset(b) && NoRepeats(a)
    ensures NoRepeats(b) && forall s :: s in a <==> s in b
  {
    assert forall s :: s in a <==> s in multiset(a);
    assert forall s :: s in b <==> s in multiset(b);
    forall i, j | 0 <= i < j < |b|
      ensures b[i] != b[j]
    {
      if b[i] == b[j] {
        TwiceCounts(b, i, j);
        OnceCounts(a, b[i]);
      }
    }
  }

  lemma TwiceCounts(b: seq<string>, i: nat, j: nat)
    requires i < j < |b| && b[i] == b[j]
    ensures multiset(b)[b[i]] >= 2
  {
    assert b == b[..j] + [b[j]] + b[j + 1..];
    assert b[i] in multiset(b[..j]) by {
      assert b[..j][i] == b[i];
    }
  }

  lemma {:induction false} OnceCounts(a: seq<string>, s: string)
    requires NoRepeats(a)
    ensures multiset(a)[s] <= 1
  {
    if a != [] {
      var init := a[..|a| - 1];
      assert a == init + [a[|a| - 1]];
      OnceCounts(init, s);
      if s == a[|a| - 1] {
        assert s !in init;
      }
    }
  }

  // ----- Folding the tail -----

  predicate NoClash(ranked: seq<string>) {
    Tail(ranked) == [] || OTHER !in ranked
  }

  lemma SplitNames(ranked: seq<string>)
    ensures ranked == Shown(ranked) + Tail(ranked)
    ensures NoRepeats(ranked) ==>
              NoRepeats(Shown(ranked)) && NoRepeats(Tail(ranked)) && forall s :: !(s in Shown(ranked) && s in Tail(ranked))
  {
  }

  lemma SeriesHasNoRepeats(ranked: seq<string>)
    requires NoRepeats(ranked) && NoClash(ranked)
    ensures NoRepeats(Series(ranked)) && |Series(ranked)| <= MAX_SERIES + 1
    ensures forall s :: s in Shown(ranked) ==> s in ranked
  {
    SplitNames(ranked);
  }

  /** Rolling the tail up moves work between series but loses none of a bucket's. */
  lemma RollUpKeepsBucket(bucket: map<string, int>, ranked: seq<string>)
    requires NoRepeats(ranked) && NoClash(ranked)
    requires forall k :: k in bucket ==> k in ranked
    ensures var rolled := RolledUp(bucket, Tail(ranked));
            && ValueSum(rolled) == ValueSum(bucket)
            && (forall k :: k in rolled ==> k in Series(ranked))
  {
    var shown, tail := Shown(ranked), Tail(ranked);
    SplitNames(ranked);
    SeriesHasNoRepeats(ranked);
    if tail != [] {
      var rolled := RolledUp(bucket, tail);
      ValueSumIsSumOver(bucket, ranked);
      SumOverConcat(shown, tail, bucket);
      assert forall i :: 0 <= i < |shown| ==> WorkOf(rolled, shown[i]) == WorkOf(bucket, shown[i]) by {
        assert forall i :: 0 <= i < |shown| ==> shown[i] !in tail && shown[i] != OTHER;
      }
      SumOverAgrees(shown, bucket, rolled);
      ValueSumIsSumOver(rolled, shown + [OTHER]);
      assert (shown + [OTHER])[..|shown|] == shown;
    }
  }

  lemma FoldKeepsTotals(totals: map<string, int>, ranked: seq<string>)
    requires NoRepeats(ranked) && NoClash(ranked)
    requires forall k :: k in totals ==> k in ranked
    ensures SumOver(Series(ranked), FoldedTotals(totals, Tail(ranked))) == ValueSum(totals)
  {
    var shown, tail := Shown(ranked), Tail(ranked);
    SplitNames(ranked);
    ValueSumIsSumOver(totals, ranked);
    if tail == [] {
      assert Series(ranked) == ranked;
    } else {
      var folded := FoldedTotals(totals, tail);
      SumOverConcat(shown, tail, totals);
      assert forall i :: 0 <= i < |shown| ==> WorkOf(folded, shown[i]) == WorkOf(totals, shown[i]) by {
        assert forall i :: 0 <= i < |shown| ==> shown[i] !in tail && shown[i] != OTHER;
      }
      SumOverAgrees(shown, totals, folded);
      assert (shown + [OTHER])[..|shown|] == shown;
      assert OTHER !in tail;
    }
  }

  // ----- The chart -----

  /** Bar totals, summed from the left. */
  function BarSum(hours: seq<HourBucket>): int {
    if hours == [] then 0 else BarSum(hours[..|hours| - 1]) + hours[|hours| - 1].total
  }

  ghost predicate NoClashIn(t: Tally) {
    NoClash(Ranked(t.order, t.totals))
  }

  /** Each bar is as high as its hour's work, before and after folding. */
  lemma BarIsHour(t: Tally, w: Window, i: nat)
    requires TallyInv(t) && NoClashIn(t) && i < |t.perHour|
    ensures ChartOf(t, w).hours[i].total == ValueSum(t.perHour[i])
  {
    RankedHasTheNames(t);
    RollUpKeepsBucket(t.perHour[i], Ranked(t.order, t.totals));
  }

  lemma {:induction false} BarsSumToHours(bars: seq<HourBucket>, hours: seq<map<string, int>>)
    requires |bars| == |hours|
    requires forall i :: 0 <= i < |bars| ==> bars[i].total == ValueSum(hours[i])
    ensures BarSum(bars) == HoursSum(hours)
  {
    if bars != [] {
      BarsSumToHours(bars[..|bars| - 1], hours[..|hours| - 1]);
    }
  }

  /** CPU-seconds the aligned records overlap the first n hours of the window with. */
  function WindowWork(records: seq<Record>, now: int, w: Window, n: nat): nat {
    if records == [] then 0
    else
      var r := records[|records| - 1];
      WindowWork(records[..|records| - 1], now, w, n)
      + if Aligned(r, w) then CpusOf(r) * Overlap(r.start, EndOf(r, now), HourStart(w, 0), HourStart(w, n)) else 0
  }

  lemma RecordWorkGrows(r: Record, now: int, w: Window, n: nat)
    ensures CpusOf(r) * Overlap(r.start, EndOf(r, now), HourStart(w, 0), HourStart(w, n + 1)) ==
              CpusOf(r) * Overlap(r.start, EndOf(r, now), HourStart(w, 0), HourStart(w, n)) + CpusOf(r) * SecondsAt(r, now, w, n)
    ensures CpusOf(r) * Overlap(r.start, EndOf(r, now), HourStart(w, 0), HourStart(w, 0)) == 0
  {
    PeriodsAreOrdered(w.first, w.first + n, HOUR, w.offset);
    PeriodsAreOrdered(w.first + n, w.first + n + 1, HOUR, w.offset);
    WorkAdds(CpusOf(r), r.start, EndOf(r, now), HourStart(w, 0), HourStart(w, n), HourStart(w, n + 1));
  }

  lemma {:induction false} WindowWorkGrows(records: seq<Record>, now: int, w: Window, n: nat)
    ensures WindowWork(records, now, w, n + 1) == WindowWork(records, now, w, n) + WorkAt(records, now, w, n)
    ensures WindowWork(records, now, w, 0) == 0
  {
    if records != [] {
      var r := records[|records| - 1];
      WindowWorkGrows(records[..|records| - 1], now, w, n);
      RecordWorkGrows(r, now, w, n);
    }
  }

  lemma {:induction false} HoursSumIsWindowWork(records: seq<Record>, now: int, w: Window, n: nat)
    requires n <= w.count
    ensures HoursSum(TallyOf(records, now, w).perHour[..n]) == WindowWork(records, now, w, n)
  {
    var perHour := TallyOf(records, now, w).perHour;
    if n == 0 {
      WindowWorkGrows(records, now, w, 0);
    } else {
      HoursSumIsWindowWork(records, now, w, n - 1);
      TallyIsOverlap(records, now, w, n - 1);
      WindowWorkGrows(records, now, w, n - 1);
      assert perHour[..n][..n - 1] == perHour[..n - 1];
    }
  }

  /** Conservation: the bars, the series after folding, and the cpu-weighted overlap of the records
      with the window all sum to the same; each single bar is its hour's overlap. */
  lemma ChartConservesWork(records: seq<Record>, now: int, w: Window)
    ensures var chart := ChartOf(TallyOf(records, now, w), w);
            NoClashIn(TallyOf(records, now, w)) ==>
              && BarSum(chart.hours) == chart.total == WindowWork(records, now, w, w.count)
              && (forall i :: 0 <= i < w.count ==> chart.hours[i].total == WorkAt(records, now, w, i))
              && |chart.sources| <= MAX_SERIES + 1
  {
    if NoClashIn(TallyOf(records, now, w)) {
      var t := TallyOf(records, now, w);
      var ranked := Ranked(t.order, t.totals);
      TallyKeepsInv(records, now, w);
      RankedHasTheNames(t);
      SeriesHasNoRepeats(ranked);
      FoldKeepsTotals(t.totals, ranked);
      HoursSumIsWindowWork(records, now, w, w.count);
      assert t.perHour[..w.count] == t.perHour;
      forall i | 0 <= i < w.count
        ensures ChartOf(t, w).hours[i].total == ValueSum(t.perHour[i]) == WorkAt(records, now, w, i)
      {
        BarIsHour(t, w, i);
        TallyIsOverlap(records, now, w, i);
      }
      BarsSumToHours(ChartOf(t, w).hours, t.perHour);
    }
  }

  /** CPU-seconds all records overlap the window with, aligned or not. */
  function TrueWork(records: seq<Record>, now: int, w: Window): nat {
    if records == [] then 0
    else
      var r := records[|records| - 1];
      TrueWork(records[..|records| - 1], now, w)
      + CpusOf(r) * Overlap(r.start, EndOf(r, now), HourStart(w, 0), HourStart(w, w.count))
  }

  /** A record whose offset differs from the current one by a broken hour is left out altogether:
      the chart shows all the work exactly when no such record overlaps the window. */
  lemma {:induction false} ChartIsCompleteExactly(records: seq<Record>, now: int, w: Window)
    ensures WindowWork(records, now, w, w.count) <= TrueWork(records, now, w)
    ensures WindowWork(records, now, w, w.count) == TrueWork(records, now, w) <==>
              forall r :: r in records && Overlap(r.start, EndOf(r, now), HourStart(w, 0), HourStart(w, w.count)) > 0
                ==> Aligned(r, w)
  {
    if records != [] {
      var init, r := records[..|records| - 1], records[|records| - 1];
      ChartIsCompleteExactly(init, now, w);
      assert records == init + [r];
      var seconds := Overlap(r.start, EndOf(r, now), HourStart(w, 0), HourStart(w, w.count));
      assert CpusOf(r) * seconds >= seconds;
    }
  }

  // ----- Heights -----

  function HeightSum(segments: seq<Segment>): real {
    if segments == [] then 0.0 else segments[0].height + HeightSum(segments[1..])
  }

  lemma HeightsAdd(a: int, b: int, maxTotal: int)
    ensures Height(a + b, maxTotal) == Height(a, maxTotal) + Height(b, maxTotal)
    ensures Height(0, maxTotal) == 0.0
  {
    if maxTotal != 0 {
      var m := maxTotal as real;
      assert (a as real + b as real) / m == a as real / m + b as real / m;
    }
  }

  lemma {:induction false} SegmentsSumToHeight(bucket: map<string, int>, series: seq<string>, maxTotal: int)
    requires AllPositive(bucket)
    ensures HeightSum(SegmentsOf(bucket, series, maxTotal)) == Height(SumOver(series, bucket), maxTotal)
  {
    if series == [] {
      HeightsAdd(0, 0, maxTotal);
    } else {
      var name, rest := series[0], series[1..];
      SegmentsSumToHeight(bucket, rest, maxTotal);
      assert series == [name] + rest;
      SumOverConcat([name], rest, bucket);
      assert SumOver([name], bucket) == WorkOf(bucket, name) by {
        assert [name][..0] == [];
      }
      HeightsAdd(WorkOf(bucket, name), SumOver(rest, bucket), maxTotal);
      var segments := SegmentsOf(bucket, rest, maxTotal);
      if WorkOf(bucket, name) > 0 {
        var all := SegmentsOf(bucket, series, maxTotal);
        assert all[1..] == segments;
      }
    }
  }

  lemma {:induction false} MaxIsLargest(buckets: seq<map<string, int>>)
    ensures forall i :: 0 <= i < |buckets| ==> ValueSum(buckets[i]) <= MaxValueSum(buckets)
    ensures buckets != [] ==> exists i :: 0 <= i < |buckets| && ValueSum(buckets[i]) == MaxValueSum(buckets)
  {
    if |buckets| == 1 {
      assert ValueSum(buckets[0]) == MaxValueSum(buckets);
    } else if |buckets| > 1 {
      var n := |buckets| - 1;
      MaxIsLargest(buckets[..n]);
      var i :| 0 <= i < n && ValueSum(buckets[..n][i]) == MaxValueSum(buckets[..n]);
      assert ValueSum(buckets[i]) == MaxValueSum(buckets) || ValueSum(buckets[n]) == MaxValueSum(buckets);
      forall j | 0 <= j < |buckets|
        ensures ValueSum(buckets[j]) <= MaxValueSum(buckets)
      {
        if j < n {
          assert buckets[..n][j] == buckets[j];
        }
      }
    }
  }

  lemma {:induction false} PositiveSum(m: map<string, int>)
    requires AllPositive(m)
    ensures ValueSum(m) >= 0
    decreases |m|
  {
    if m != map[] {
      var k :| k in m;
      ValueSumTakesOut(m, k);
      assert (m - {k}).Keys == m.Keys - {k};
      assert |m| == |m.Keys| && |m - {k}| == |(m - {k}).Keys|;
      PositiveSum(m - {k});
    }
  }

  lemma {:induction false} PositiveSumOver(names: seq<string>, m: map<string, int>)
    requires AllPositive(m)
    ensures SumOver(names, m) >= 0
  {
    if names != [] {
      PositiveSumOver(names[..|names| - 1], m);
    }
  }

  lemma RollUpStaysPositive(bucket: map<string, int>, tail: seq<string>)
    requires AllPositive(bucket)
    ensures AllPositive(RolledUp(bucket, tail))
  {
    PositiveSumOver(tail, bucket);
  }

  /** The segments of a bar stack up to the bar's share of the largest bar. */
  lemma BarHeight(t: Tally, w: Window, i: nat)
    requires TallyInv(t) && NoClashIn(t) && i < |t.perHour|
    ensures var chart := ChartOf(t, w);
            && HeightSum(chart.hours[i].segments) == Height(chart.hours[i].total, chart.maxTotal)
            && 0 <= chart.hours[i].total <= chart.maxTotal
  {
    var ranked := Ranked(t.order, t.totals);
    var buckets := RolledUpAll(t.perHour, Tail(ranked));
    RankedHasTheNames(t);
    SeriesHasNoRepeats(ranked);
    RollUpKeepsBucket(t.perHour[i], ranked);
    RollUpStaysPositive(t.perHour[i], Tail(ranked));
    ValueSumIsSumOver(buckets[i], Series(ranked));
    SegmentsSumToHeight(buckets[i], Series(ranked), MaxValueSum(buckets));
    MaxIsLargest(buckets);
    PositiveSum(buckets[i]);
  }

  lemma HeightIsPercentage(total: int, maxTotal: int)
    requires 0 <= total <= maxTotal
    ensures 0.0 <= Height(total, maxTotal) <= 100.0
    ensures total == maxTotal && maxTotal > 0 ==> Height(total, maxTotal) == 100.0
  {
    if maxTotal > 0 {
      var q := total as real / maxTotal as real;
      assert q * maxTotal as real == total as real;
      assert 0.0 <= q <= 1.0;
    }
  }

  /** No bar is higher than the chart, and the busiest one fills it. */
  lemma BarsFitTheChart(records: seq<Record>, now: int, w: Window)
    ensures var chart := ChartOf(TallyOf(records, now, w), w);
            NoClashIn(TallyOf(records, now, w)) ==>
              && (forall i :: 0 <= i < w.count ==> 0.0 <= HeightSum(chart.hours[i].segments) <= 100.0)
              && (chart.maxTotal > 0 ==> exists i :: 0 <= i < w.count && HeightSum(chart.hours[i].segments) == 100.0)
  {
    if NoClashIn(TallyOf(records, now, w)) {
      var t := TallyOf(records, now, w);
      var chart := ChartOf(t, w);
      TallyKeepsInv(records, now, w);
      forall i | 0 <= i < w.count
        ensures 0.0 <= HeightSum(chart.hours[i].segments) <= 100.0
      {
        BarHeight(t, w, i);
        HeightIsPercentage(chart.hours[i].total, chart.maxTotal);
      }
      if chart.maxTotal > 0 {
        var buckets := RolledUpAll(t.perHour, Tail(Ranked(t.order, t.totals)));
        MaxIsLargest(buckets);
        var i :| 0 <= i < |buckets| && ValueSum(buckets[i]) == MaxValueSum(buckets);
        assert chart.hours[i].total == chart.maxTotal;
        BarHeight(t, w, i);
        HeightIsPercentage(chart.hours[i].total, chart.maxTotal);
      }
    }
  }
}
