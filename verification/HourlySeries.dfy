/** The series of the hourly chart, one by one: which sources are shown, in which order, and with what. */
module HourlySeries {
  import opened Wrappers
  import opened Slices
  import opened Activity
  import opened Hourly
  import opened HourlyConservation

  // ----- The window -----

  /** The hours of the window follow each other without gaps, and the present lies in the last one. */
  lemma WindowEndsNow(now: int, offset: int, hours: nat, i: nat)
    requires i < hours
    ensures var w := WindowAt(now, offset, hours);
            && HourStart(w, i + 1) == HourStart(w, i) + 3600
            && HourStart(w, hours - 1) <= now < HourStart(w, hours)
            && (HourStart(w, i) + offset) % 3600 == 0
  {
    PeriodContains(now, HOUR, offset);
    var w := WindowAt(now, offset, hours);
    assert HourStart(w, i) + offset == (w.first + i) * 3600;
  }

  // ----- The ranking -----

  predicate Descending(names: seq<string>, totals: map<string, int>) {
    forall i, j :: 0 <= i < j < |names| ==> WorkOf(totals, names[i]) >= WorkOf(totals, names[j])
  }

  /** The names with one total, in the order they are listed in. */
  function Tied(names: seq<string>, totals: map<string, int>, work: int): seq<string> {
    if names == [] then []
    else (if WorkOf(totals, names[0]) == work then [names[0]] else []) + Tied(names[1..], totals, work)
  }

  lemma {:induction false} TiedSnoc(names: seq<string>, name: string, totals: map<string, int>, work: int)
    ensures Tied(names + [name], totals, work) ==
              Tied(names, totals, work) + if WorkOf(totals, name) == work then [name] else []
  {
    if names == [] {
      assert [name][1..] == [];
    } else {
      assert (names + [name])[1..] == names[1..] + [name];
      TiedSnoc(names[1..], name, totals, work);
    }
  }

  lemma {:induction false} NothingTied(names: seq<string>, totals: map<string, int>, work: int)
    requires forall i :: 0 <= i < |names| ==> WorkOf(totals, names[i]) < work
    ensures Tied(names, totals, work) == []
  {
    if names != [] {
      NothingTied(names[1..], totals, work);
    }
  }

  /** Placing a name keeps the order. */
  lemma {:induction false} PlacedInOrder(ranked: seq<string>, name: string, totals: map<string, int>)
    requires Descending(ranked, totals)
    ensures Descending(Placed(ranked, name, totals), totals)
  {
    if ranked != [] && WorkOf(totals, ranked[0]) >= WorkOf(totals, name) {
      PlacedInOrder(ranked[1..], name, totals);
      PlacedBelow(ranked, Placed(ranked[1..], name, totals), name, totals);
    }
  }

  /** And it puts the name last among its equals. */
  lemma {:induction false} PlacedLast(ranked: seq<string>, name: string, totals: map<string, int>, work: int)
    requires Descending(ranked, totals)
    ensures Tied(Placed(ranked, name, totals), totals, work) ==
              Tied(ranked, totals, work) + if WorkOf(totals, name) == work then [name] else []
  {
    if ranked == [] {
      assert [name][1..] == [];
    } else if WorkOf(totals, ranked[0]) >= WorkOf(totals, name) {
      PlacedLast(ranked[1..], name, totals, work);
      PlacedBehind(ranked, name, totals, work);
    } else {
      PlacedFirst(ranked, name, totals, work);
    }
  }

  lemma PlacedBehind(ranked: seq<string>, name: string, totals: map<string, int>, work: int)
    requires ranked != [] && WorkOf(totals, ranked[0]) >= WorkOf(totals, name)
    requires Tied(Placed(ranked[1..], name, totals), totals, work) ==
               Tied(ranked[1..], totals, work) + if WorkOf(totals, name) == work then [name] else []
    ensures Tied(Placed(ranked, name, totals), totals, work) ==
              Tied(ranked, totals, work) + if WorkOf(totals, name) == work then [name] else []
  {
    PlacedUnfolds(ranked, name, totals);
    TiedBehind(ranked[0], Placed(ranked[1..], name, totals), ranked[1..], name, totals, work);
    assert ranked == [ranked[0]] + ranked[1..];
  }

  lemma TiedBehind(head: string, placed: seq<string>, rest: seq<string>, name: string, totals: map<string, int>, work: int)
    requires Tied(placed, totals, work) == Tied(rest, totals, work) + if WorkOf(totals, name) == work then [name] else []
    ensures Tied([head] + placed, totals, work) ==
              Tied([head] + rest, totals, work) + if WorkOf(totals, name) == work then [name] else []
  {
    TiedCons(head, placed, totals, work);
    TiedCons(head, rest, totals, work);
  }

  lemma PlacedUnfolds(ranked: seq<string>, name: string, totals: map<string, int>)
    requires ranked != [] && WorkOf(totals, ranked[0]) >= WorkOf(totals, name)
    ensures Placed(ranked, name, totals) == [ranked[0]] + Placed(ranked[1..], name, totals)
  {
  }

  lemma PlacedFirst(ranked: seq<string>, name: string, totals: map<string, int>, work: int)
    requires Descending(ranked, totals) && ranked != [] && WorkOf(totals, ranked[0]) < WorkOf(totals, name)
    ensures Tied(Placed(ranked, name, totals), totals, work) ==
              Tied(ranked, totals, work) + if WorkOf(totals, name) == work then [name] else []
  {
    TiedCons(name, ranked, totals, work);
    if WorkOf(totals, name) == work {
      NothingTied(ranked, totals, work);
    }
  }

  lemma TiedCons(name: string, rest: seq<string>, totals: map<string, int>, work: int)
    ensures Tied([name] + rest, totals, work) ==
              (if WorkOf(totals, name) == work then [name] else []) + Tied(rest, totals, work)
  {
    assert ([name] + rest)[1..] == rest;
  }

  lemma PlacedBelow(ranked: seq<string>, rest: seq<string>, name: string, totals: map<string, int>)
    requires ranked != [] && Descending(ranked, totals) && Descending(rest, totals)
    requires WorkOf(totals, ranked[0]) >= WorkOf(totals, name)
    requires multiset(rest) == multiset(ranked[1..]) + multiset{name}
    ensures Descending([ranked[0]] + rest, totals)
  {
    forall i | 0 <= i < |rest|
      ensures WorkOf(totals, ranked[0]) >= WorkOf(totals, rest[i])
    {
      assert rest[i] in multiset(rest);
      if rest[i] != name {
        assert rest[i] in ranked[1..];
        var j :| 0 <= j < |ranked[1..]| && ranked[1..][j] == rest[i];
        assert ranked[j + 1] == rest[i];
      }
    }
  }

  /** The ranking is by work. */
  lemma {:induction false} RankedInOrder(names: seq<string>, totals: map<string, int>)
    ensures Descending(Ranked(names, totals), totals)
  {
    if names != [] {
      var init := names[..|names| - 1];
      RankedInOrder(init, totals);
      PlacedInOrder(Ranked(init, totals), names[|names| - 1], totals);
    }
  }

  lemma RankedUnfolds(names: seq<string>, totals: map<string, int>)
    requires names != []
    ensures var init, last := names[..|names| - 1], names[|names| - 1];
            names == init + [last] && Ranked(names, totals) == Placed(Ranked(init, totals), last, totals)
  {
  }

  /** Names with the same work keep their order. */
  lemma {:induction false} RankedIsStable(names: seq<string>, totals: map<string, int>, work: int)
    ensures Tied(Ranked(names, totals), totals, work) == Tied(names, totals, work)
  {
    if names != [] {
      var init, last := names[..|names| - 1], names[|names| - 1];
      RankedIsStable(init, totals, work);
      RankedUnfolds(names, totals);
      TiedStep(Ranked(init, totals), init, last, totals, work);
    }
  }

  lemma TiedStep(ranked: seq<string>, init: seq<string>, last: string, totals: map<string, int>, work: int)
    requires ranked == Ranked(init, totals) && Tied(ranked, totals, work) == Tied(init, totals, work)
    ensures Tied(Placed(ranked, last, totals), totals, work) == Tied(init + [last], totals, work)
  {
    RankedInOrder(init, totals);
    PlacedLast(ranked, last, totals, work);
    TiedSnoc(init, last, totals, work);
  }

  // ----- The total of a source -----

  /** CPU-seconds of one source in all hours of a tally. */
  function SourceSum(perHour: seq<map<string, int>>, source: string): int {
    if perHour == [] then 0 else SourceSum(perHour[..|perHour| - 1], source) + WorkOf(perHour[|perHour| - 1], source)
  }

  lemma {:induction false} SourceSumUpdate(perHour: seq<map<string, int>>, i: nat, m: map<string, int>, source: string)
    requires i < |perHour|
    ensures SourceSum(perHour[i := m], source) == SourceSum(perHour, source) - WorkOf(perHour[i], source) + WorkOf(m, source)
  {
    var n := |perHour| - 1;
    var after := perHour[i := m];
    if i == n {
      assert after[..n] == perHour[..n];
    } else {
      SourceSumUpdate(perHour[..n], i, m, source);
      assert after[..n] == perHour[..n][i := m];
    }
  }

  lemma CreditKeepsSource(t: Tally, i: nat, credited: string, work: int, source: string)
    requires i < |t.perHour| && WorkOf(t.totals, source) == SourceSum(t.perHour, source)
    ensures var u := Credited(t, i, credited, work);
            WorkOf(u.totals, source) == SourceSum(u.perHour, source)
  {
    SourceSumUpdate(t.perHour, i, t.perHour[i][credited := WorkOf(t.perHour[i], credited) + work], source);
  }

  lemma {:induction false} SlicesKeepSource(t: Tally, w: Window, slices: seq<Slice>, r: Record, source: string)
    requires |t.perHour| == w.count && WorkOf(t.totals, source) == SourceSum(t.perHour, source)
    ensures var u := CreditSlices(t, w, slices, r);
            WorkOf(u.totals, source) == SourceSum(u.perHour, source)
  {
    if slices != [] {
      var n := |slices| - 1;
      SlicesKeepSource(t, w, slices[..n], r, source);
      var s := slices[n];
      var slot := SlotOf(w, StartOf(s.period, HOUR, r.offset));
      if slot.Some? {
        CreditKeepsSource(CreditSlices(t, w, slices[..n], r), slot.value, r.source, s.seconds * CpusOf(r), source);
      }
    }
  }

  lemma {:induction false} EmptySourceSum(n: nat, source: string)
    ensures SourceSum(EmptyTally(n).perHour, source) == 0
  {
    if n > 0 {
      EmptySourceSum(n - 1, source);
      assert EmptyTally(n).perHour[..n - 1] == EmptyTally(n - 1).perHour;
    }
  }

  lemma {:induction false} TotalIsSourceSum(records: seq<Record>, now: int, w: Window, source: string)
    ensures var t := TallyOf(records, now, w);
            WorkOf(t.totals, source) == SourceSum(t.perHour, source)
  {
    if records == [] {
      EmptySourceSum(w.count, source);
    } else {
      var r := records[|records| - 1];
      TotalIsSourceSum(records[..|records| - 1], now, w, source);
      SlicesKeepSource(
        TallyOf(records[..|records| - 1], now, w), w, SlicesOf(r.start, EndOf(r, now), HOUR, r.offset), r, source);
    }
  }

  /** CPU-seconds that the aligned records of a source overlap the first n hours of the window with. */
  function SourceWork(records: seq<Record>, now: int, w: Window, n: nat, source: string): nat {
    if n == 0 then 0 else SourceWork(records, now, w, n - 1, source) + SourceWorkAt(records, now, w, n - 1, source)
  }

  lemma {:induction false} SourceSumIsWork(records: seq<Record>, now: int, w: Window, n: nat, source: string)
    requires n <= w.count
    ensures SourceSum(TallyOf(records, now, w).perHour[..n], source) == SourceWork(records, now, w, n, source)
  {
    var hours := TallyOf(records, now, w).perHour;
    if n > 0 {
      SourceSumIsWork(records, now, w, n - 1, source);
      TallyIsOverlap(records, now, w, n - 1);
      assert hours[..n][..n - 1] == hours[..n - 1];
    }
  }

  lemma TotalIsSourceWork(records: seq<Record>, now: int, w: Window, source: string)
    ensures WorkOf(TallyOf(records, now, w).totals, source) == SourceWork(records, now, w, w.count, source)
  {
    var hours := TallyOf(records, now, w).perHour;
    TotalIsSourceSum(records, now, w, source);
    SourceSumIsWork(records, now, w, w.count, source);
    assert hours[..w.count] == hours;
  }

  // ----- Which sources are shown -----

  /** The busiest five sources are shown: none of the others has done more than any of them. */
  lemma ShownAreBusiest(records: seq<Record>, now: int, w: Window, shown: string, folded: string)
    requires var t := TallyOf(records, now, w);
             shown in Shown(Ranked(t.order, t.totals)) && folded in Tail(Ranked(t.order, t.totals))
    ensures SourceWork(records, now, w, w.count, shown) >= SourceWork(records, now, w, w.count, folded)
    ensures var t := TallyOf(records, now, w);
            |Shown(Ranked(t.order, t.totals))| == 5
  {
    var t := TallyOf(records, now, w);
    var ranked := Ranked(t.order, t.totals);
    RankedInOrder(t.order, t.totals);
    TotalIsSourceWork(records, now, w, shown);
    TotalIsSourceWork(records, now, w, folded);
    var i :| 0 <= i < |Shown(ranked)| && Shown(ranked)[i] == shown;
    var j :| 0 <= j < |Tail(ranked)| && Tail(ranked)[j] == folded;
    assert ranked[i] == shown && ranked[MAX_SERIES + j] == folded;
  }

  /** The series come busiest first, ties in the order in which their sources first had work in the window. */
  lemma SeriesAreInOrder(records: seq<Record>, now: int, w: Window, i: nat, j: nat)
    requires var t := TallyOf(records, now, w);
             i < j < |Shown(Ranked(t.order, t.totals))|
    ensures var t := TallyOf(records, now, w);
            var shown := Shown(Ranked(t.order, t.totals));
            && SourceWork(records, now, w, w.count, shown[i]) >= SourceWork(records, now, w, w.count, shown[j])
            && forall work :: Tied(Ranked(t.order, t.totals), t.totals, work) == Tied(t.order, t.totals, work)
  {
    var t := TallyOf(records, now, w);
    var ranked := Ranked(t.order, t.totals);
    forall work { RankedIsStable(t.order, t.totals, work); }
    RankedInOrder(t.order, t.totals);
    TotalIsSourceWork(records, now, w, ranked[i]);
    TotalIsSourceWork(records, now, w, ranked[j]);
  }

  // ----- The segments of a bar -----

  /** The series with work in a bucket, in stacking order. */
  function Present(bucket: map<string, int>, series: seq<string>): seq<string> {
    if series == [] then []
    else (if WorkOf(bucket, series[0]) > 0 then [series[0]] else []) + Present(bucket, series[1..])
  }

  /** A bar has one segment for each series with work in its hour, in stacking order, with that work and its
      share of the largest bar; the last one is marked as the top. */
  lemma {:induction false} SegmentsExactly(bucket: map<string, int>, series: seq<string>, maxTotal: int)
    ensures var segments, names := SegmentsOf(bucket, series, maxTotal), Present(bucket, series);
            && |segments| == |names|
            && forall k :: 0 <= k < |names| ==>
                 segments[k] == Segment(names[k], WorkOf(bucket, names[k]),
                                        if maxTotal == 0 then 0.0 else WorkOf(bucket, names[k]) as real / maxTotal as real * 100.0,
                                        k == |names| - 1)
  {
    if series != [] {
      SegmentsExactly(bucket, series[1..], maxTotal);
      var rest, names := SegmentsOf(bucket, series[1..], maxTotal), Present(bucket, series[1..]);
      if WorkOf(bucket, series[0]) > 0 {
        var segments := SegmentsOf(bucket, series, maxTotal);
        assert forall k :: 1 <= k < |segments| ==> segments[k] == rest[k - 1];
      }
    }
  }

  lemma {:induction false} PresentIfPositive(bucket: map<string, int>, series: seq<string>, name: string)
    ensures name in Present(bucket, series) <==> name in series && WorkOf(bucket, name) > 0
  {
    if series != [] {
      PresentIfPositive(bucket, series[1..], name);
      assert name in series <==> name == series[0] || name in series[1..];
    }
  }

  // ----- What is shown of a source -----

  lemma RollUpKeepsShown(bucket: map<string, int>, ranked: seq<string>, name: string)
    requires NoRepeats(ranked) && name in Shown(ranked) && (name != OTHER || Tail(ranked) == [])
    ensures WorkOf(RolledUp(bucket, Tail(ranked)), name) == WorkOf(bucket, name)
    ensures WorkOf(FoldedTotals(bucket, Tail(ranked)), name) == WorkOf(bucket, name)
    ensures name in FoldedTotals(bucket, Tail(ranked)) <==> name in bucket
  {
    SplitNames(ranked);
  }

  /** Each shown source, "Other" under a fold aside, has in each bar the CPU-seconds that its aligned records
      overlap the hour with, no segment if there are none, and in the legend the sum over all hours. */
  lemma SourceIsShown(records: seq<Record>, now: int, w: Window, name: string, i: nat)
    requires i < w.count
    requires var t := TallyOf(records, now, w);
             var ranked := Ranked(t.order, t.totals);
             name in Shown(ranked) && (name != OTHER || Tail(ranked) == [])
    ensures var chart := ChartOf(TallyOf(records, now, w), w);
            && name in chart.totals && chart.totals[name] == SourceWork(records, now, w, w.count, name)
            && IsSegmentOf(chart.hours[i].segments, name, SourceWorkAt(records, now, w, i, name))
  {
    TallyKeepsInv(records, now, w);
    TotalIsSourceWork(records, now, w, name);
    TallyIsOverlap(records, now, w, i);
    SourceInChart(TallyOf(records, now, w), w, name, i);
  }

  lemma SourceInChart(t: Tally, w: Window, name: string, i: nat)
    requires TallyInv(t) && i < |t.perHour|
    requires var ranked := Ranked(t.order, t.totals);
             name in Shown(ranked) && (name != OTHER || Tail(ranked) == [])
    ensures var chart := ChartOf(t, w);
            && name in chart.totals && chart.totals[name] == WorkOf(t.totals, name)
            && IsSegmentOf(chart.hours[i].segments, name, WorkOf(t.perHour[i], name))
  {
    var ranked := Ranked(t.order, t.totals);
    RankedHasTheNames(t);
    SplitNames(ranked);
    RollUpKeepsShown(t.totals, ranked, name);
    RollUpKeepsShown(t.perHour[i], ranked, name);
    assert name in ranked && name in t.totals && name in Series(ranked);
    SegmentOfSeries(RolledUp(t.perHour[i], Tail(ranked)), Series(ranked), ChartOf(t, w).maxTotal, name);
  }

  /** The segments of a name have this work, and there are some if and only if it is positive. */
  ghost predicate IsSegmentOf(segments: seq<Segment>, name: string, work: int) {
    && (forall k :: 0 <= k < |segments| && segments[k].source == name ==> segments[k].work == work)
    && ((exists k :: 0 <= k < |segments| && segments[k].source == name) <==> work > 0)
  }

  lemma SegmentOfSeries(bucket: map<string, int>, series: seq<string>, maxTotal: int, name: string)
    requires name in series
    ensures IsSegmentOf(SegmentsOf(bucket, series, maxTotal), name, WorkOf(bucket, name))
  {
    var segments, names := SegmentsOf(bucket, series, maxTotal), Present(bucket, series);
    SegmentsExactly(bucket, series, maxTotal);
    PresentIfPositive(bucket, series, name);
    if name in names {
      var k :| 0 <= k < |names| && names[k] == name;
      assert segments[k].source == name;
    }
  }
}
