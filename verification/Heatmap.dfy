/** Shading and layout of the activity grid, and the grid as a whole. */
module Heatmap {
  import opened Wrappers
  import opened Lists
  import opened Activity

  // ----- Shading -----

  predicate Sorted(xs: seq<int>) {
    forall i, j :: 0 <= i <= j < |xs| ==> xs[i] <= xs[j]
  }

  /** `sorted(xs)` */
  function SortedCopy(xs: seq<int>): (ys: seq<int>)
    ensures Sorted(ys) && multiset(ys) == multiset(xs)
  {
    if xs == [] then []
    else
      assert xs == [xs[0]] + xs[1..];
      Inserted(xs[0], SortedCopy(xs[1..]))
  }

  function Inserted(x: int, ys: seq<int>): (r: seq<int>)
    requires Sorted(ys)
    ensures Sorted(r) && multiset(r) == multiset(ys) + multiset{x}
  {
    if ys == [] then [x]
    else if x <= ys[0] then
      SortedCons(x, ys);
      [x] + ys
    else
      var rest := Inserted(x, ys[1..]);
      InsertedIsAbove(x, ys, rest);
      SortedCons(ys[0], rest);
      [ys[0]] + rest
  }

  lemma SortedCons(x: int, ys: seq<int>)
    requires Sorted(ys) && forall i :: 0 <= i < |ys| ==> x <= ys[i]
    ensures Sorted([x] + ys)
  {
  }

  lemma InsertedIsAbove(x: int, ys: seq<int>, rest: seq<int>)
    requires Sorted(ys) && ys != [] && x > ys[0]
    requires multiset(rest) == multiset(ys[1..]) + multiset{x}
    ensures forall i :: 0 <= i < |rest| ==> ys[0] <= rest[i]
    ensures multiset([ys[0]] + rest) == multiset(ys) + multiset{x}
  {
    assert ys == [ys[0]] + ys[1..];
    forall i | 0 <= i < |rest|
      ensures ys[0] <= rest[i]
    {
      assert rest[i] in multiset(rest);
      assert rest[i] in ys[1..] || rest[i] == x;
    }
  }

  /** The quartile cuts are indexed off the last position, so that none of them is beyond it. */
  function Cut(values: seq<int>, quarter: nat): int
    requires |values| > 0 && quarter <= 3
  {
    values[(|values| - 1) * quarter / 4]
  }

  function Level(work: int, values: seq<int>): nat
    requires |values| > 0
  {
    if work <= 0 then 0
    else if work >= values[|values| - 1] then 4
    else if work <= Cut(values, 1) then 1
    else if work <= Cut(values, 2) then 2
    else if work <= Cut(values, 3) then 3
    else 4
  }

  /** The work of the busy days. */
  function BusyOf(works: seq<int>): seq<int> {
    if works == [] then []
    else BusyOf(works[..|works| - 1]) + if Last(works) > 0 then [Last(works)] else []
  }

  lemma {:induction false} BusyMembers(works: seq<int>)
    ensures forall w :: w in BusyOf(works) <==> w in works && w > 0
  {
    if works != [] {
      BusyMembers(works[..|works| - 1]);
      assert works == works[..|works| - 1] + [Last(works)];
    }
  }

  /** The busy days' work, sorted. */
  ghost predicate SortedBusy(values: seq<int>, works: seq<int>) {
    Sorted(values) && multiset(values) == multiset(BusyOf(works))
  }

  lemma SortedBusyMembers(values: seq<int>, works: seq<int>)
    requires SortedBusy(values, works)
    ensures forall w :: w in values <==> w in works && w > 0
  {
    BusyMembers(works);
    assert forall w :: w in values <==> w in multiset(values);
    assert forall w :: w in BusyOf(works) <==> w in multiset(BusyOf(works));
  }

  /** Shading is faithful: more work is never lighter, idle days and only those are blank, and
      every busiest day is darkest. */
  lemma ShadingIsFaithful(values: seq<int>, works: seq<int>, a: int, b: int)
    requires SortedBusy(values, works) && values != []
    requires a in works && b in works
    ensures Level(a, values) <= 4
    ensures a <= b ==> Level(a, values) <= Level(b, values)
    ensures Level(a, values) == 0 <==> a <= 0
    ensures (forall w :: w in works ==> w <= a) ==> Level(a, values) == 4
  {
    var n := |values| - 1;
    SortedBusyMembers(values, works);
    assert n * 1 / 4 <= n * 2 / 4 <= n * 3 / 4 <= n;
    assert Cut(values, 1) <= Cut(values, 2) <= Cut(values, 3) <= values[n];
    assert values[n] in values;
    if forall w :: w in works ==> w <= a {
      assert values[n] in works;
    }
  }

  function Works(days: seq<ActivityDay>): (r: seq<int>)
    reads days
    ensures |r| == |days| && forall i :: 0 <= i < |r| ==> r[i] == days[i].work
  {
    seq(|days|, i requires 0 <= i < |days| reads days => days[i].work)
  }

  method BusyWorks(days: seq<ActivityDay>) returns (busy: seq<int>)
    ensures busy == BusyOf(Works(days))
  {
    busy := [];
    for i := 0 to |days|
      invariant busy == BusyOf(Works(days)[..i])
    {
      assert Works(days)[..i + 1][..i] == Works(days)[..i];
      if days[i].work > 0 {
        busy := busy + [days[i].work];
      }
    }
    assert Works(days)[..|days|] == Works(days);
  }

  // ----- The rank of a day -----

  /** The values that are less than a given one. */
  function Lighter(values: seq<int>, work: int): seq<int> {
    Collect(values, (v: int) => if v < work then [v] else [])
  }

  lemma LighterIgnoresOrder(values: seq<int>, shuffled: seq<int>, work: int)
    requires multiset(values) == multiset(shuffled)
    ensures |Lighter(values, work)| == |Lighter(shuffled, work)|
  {
    OrderIsIrrelevant(values, shuffled, (v: int) => if v < work then [v] else []);
    assert |Lighter(values, work)| == |multiset(Lighter(values, work))|;
    assert |Lighter(shuffled, work)| == |multiset(Lighter(shuffled, work))|;
  }

  lemma {:induction false} LighterComeFirst(values: seq<int>, work: int)
    requires Sorted(values)
    ensures |Lighter(values, work)| <= |values|
    ensures forall i :: 0 <= i < |values| ==> (values[i] < work <==> i < |Lighter(values, work)|)
  {
    if values != [] {
      var init, last := values[..|values| - 1], Last(values);
      LighterComeFirst(init, work);
      assert Lighter(values, work) == Lighter(init, work) + if last < work then [last] else [];
      if last < work {
        assert forall i :: 0 <= i < |init| ==> init[i] <= last;
        assert init != [] ==> init[|init| - 1] < work;
      }
    }
  }

  predicate Heavier(works: seq<int>, work: int) {
    exists i :: 0 <= i < |works| && works[i] > work
  }

  /** A level of at most q is for days that are not the busiest, and than which no more than q quarters of the
      other busy days, rounded down, are less busy. */
  predicate RankAtMost(works: seq<int>, work: int, q: nat) {
    Heavier(works, work) && |Lighter(BusyOf(works), work)| <= (|BusyOf(works)| - 1) * q / 4
  }

  /** The level that a busy day has by its rank. */
  predicate LevelOfRank(level: nat, work: int, works: seq<int>) {
    && (level <= 1 <==> RankAtMost(works, work, 1))
    && (level <= 2 <==> RankAtMost(works, work, 2))
    && (level <= 3 <==> RankAtMost(works, work, 3))
  }

  lemma CutByRank(values: seq<int>, work: int, q: nat)
    requires Sorted(values) && values != [] && q <= 3
    ensures work <= Cut(values, q) <==> |Lighter(values, work)| <= (|values| - 1) * q / 4
  {
    LighterComeFirst(values, work);
  }

  lemma TopIsHeaviest(values: seq<int>, works: seq<int>, work: int)
    requires SortedBusy(values, works) && values != [] && work > 0
    ensures work < values[|values| - 1] <==> Heavier(works, work)
  {
    var top := values[|values| - 1];
    SortedBusyMembers(values, works);
    assert top in values;
    if i :| 0 <= i < |works| && works[i] > work {
      assert works[i] in works && works[i] in values;
    }
  }

  lemma LevelFromCuts(values: seq<int>, work: int, q: nat)
    requires Sorted(values) && values != [] && work > 0 && 1 <= q <= 3
    ensures Level(work, values) <= q <==> work < values[|values| - 1] && work <= Cut(values, q)
  {
    var n := |values| - 1;
    assert n * 1 / 4 <= n * 2 / 4 <= n * 3 / 4 <= n;
    assert Cut(values, 1) <= Cut(values, 2) <= Cut(values, 3);
  }

  /** The level of every busy day is the one of its rank among them. */
  lemma LevelByRank(values: seq<int>, works: seq<int>, work: int)
    requires SortedBusy(values, works) && work in works && work > 0
    ensures values != [] && LevelOfRank(Level(work, values), work, works)
  {
    SortedBusyMembers(values, works);
    assert |values| == |multiset(values)| == |multiset(BusyOf(works))| == |BusyOf(works)|;
    TopIsHeaviest(values, works, work);
    LighterIgnoresOrder(values, BusyOf(works), work);
    LevelFromCuts(values, work, 1);
    LevelFromCuts(values, work, 2);
    LevelFromCuts(values, work, 3);
    CutByRank(values, work, 1);
    CutByRank(values, work, 2);
    CutByRank(values, work, 3);
  }

  /** `_assign_levels`; with no busy day the levels stay as they are. */
  method AssignLevels(days: seq<ActivityDay>) returns (ghost values: seq<int>)
    modifies days`level
    ensures SortedBusy(values, Works(days))
    ensures forall i :: 0 <= i < |days| ==>
              days[i].level == if values == [] then old(days[i].level) else Level(days[i].work, values)
  {
    ghost var works := Works(days);
    var sorted := BusyValues(days);
    values := sorted;
    if sorted == [] {
      return;
    }
    Shade(days, sorted);
    assert Works(days) == works;
  }

  method BusyValues(days: seq<ActivityDay>) returns (sorted: seq<int>)
    ensures SortedBusy(sorted, Works(days))
  {
    var busy := BusyWorks(days);
    sorted := SortedCopy(busy);
  }

  /** The loop that writes the levels. */
  method Shade(days: seq<ActivityDay>, sorted: seq<int>)
    requires sorted != []
    modifies days`level
    ensures forall i :: 0 <= i < |days| ==> days[i].level == Level(days[i].work, sorted)
  {
    for k := 0 to |days|
      invariant forall i :: 0 <= i < k ==> days[i].level == Level(days[i].work, sorted)
    {
      AssignLevel(days[k], sorted);
    }
  }

  method AssignLevel(d: ActivityDay, sorted: seq<int>)
    requires sorted != []
    modifies d`level
    ensures d.level == Level(d.work, sorted)
  {
    var top := sorted[|sorted| - 1];
    if d.work <= 0 {
      d.level := 0;
    } else if d.work >= top {
      d.level := 4;
    } else if d.work <= Cut(sorted, 1) {
      d.level := 1;
    } else if d.work <= Cut(sorted, 2) {
      d.level := 2;
    } else if d.work <= Cut(sorted, 3) {
      d.level := 3;
    } else {
      d.level := 4;
    }
  }

  // ----- Layout -----

  /** Monday is 0; day 0 is 1 January 1970, a Thursday. */
  function Weekday(day: int): (w: nat)
    ensures w < 7
  {
    (day + 3) % 7
  }

  /** The cell of week w and weekday i: a day of the window, or empty. */
  function CellDay(first: int, today: int, w: int, i: int): Option<int> {
    var day := first - Weekday(first) + 7 * w + i;
    if first <= day <= today then Some(day) else None
  }

  function WeekCount(first: int, today: int): nat {
    if first - Weekday(first) > today then 0 else (today - (first - Weekday(first))) / 7 + 1
  }

  predicate RowsLaidOut(weeks: seq<seq<Option<int>>>, first: int, today: int) {
    forall w :: 0 <= w < |weeks| ==>
      |weeks[w]| == 7 && forall i :: 0 <= i < 7 ==> weeks[w][i] == CellDay(first, today, w, i)
  }

  /** One column per week, one row per weekday, each cell with its day or empty. */
  predicate LaidOut(weeks: seq<seq<Option<int>>>, first: int, today: int) {
    |weeks| == WeekCount(first, today) && RowsLaidOut(weeks, first, today)
  }

  /** The layout loop: columns from the Monday on or before the first day. */
  method LayOut(first: int, today: int) returns (weeks: seq<seq<Option<int>>>)
    ensures LaidOut(weeks, first, today)
  {
    weeks := [];
    var cursor := first - Weekday(first);
    while cursor <= today
      invariant cursor == first - Weekday(first) + 7 * |weeks|
      invariant |weeks| > 0 ==> cursor - 7 <= today
      invariant RowsLaidOut(weeks, first, today)
      decreases today - cursor
    {
      var row: seq<Option<int>> := [];
      for i := 0 to 7
        invariant |row| == i && forall j :: 0 <= j < i ==> row[j] == CellDay(first, today, |weeks|, j)
      {
        row := row + [if first <= cursor + i <= today then Some(cursor + i) else None];
      }
      weeks := weeks + [row];
      cursor := cursor + 7;
    }
  }

  /** Each day of the window stands in exactly one cell, in the row of its weekday. */
  lemma EachDayOnce(first: int, today: int, day: int)
    requires first <= day <= today
    ensures var w := (day - (first - Weekday(first))) / 7;
            && 0 <= w < WeekCount(first, today)
            && CellDay(first, today, w, Weekday(day)) == Some(day)
            && forall v, i :: 0 <= i < 7 && CellDay(first, today, v, i) == Some(day) ==> v == w && i == Weekday(day)
  {
    var start := first - Weekday(first);
    var w := (day - start) / 7;
    assert (start + 3) % 7 == 0;
    WeekdayOfCell(start, w, day - start - 7 * w);
    forall v, i | 0 <= i < 7 && CellDay(first, today, v, i) == Some(day)
      ensures v == w && i == Weekday(day)
    {
      WeekdayOfCell(start, v, i);
    }
  }

  lemma WeekdayOfCell(monday: int, w: int, i: int)
    requires (monday + 3) % 7 == 0 && 0 <= i < 7
    ensures Weekday(monday + 7 * w + i) == i
  {
    var q := (monday + 3) / 7;
    assert monday + 7 * w + i + 3 == 7 * (q + w) + i;
  }

  /** Reading the columns left to right and each from Monday, the days come in order. */
  lemma CellsAreChronological(first: int, today: int, v: int, i: int, w: int, j: int)
    requires 0 <= i < 7 && 0 <= j < 7
    requires CellDay(first, today, v, i).Some? && CellDay(first, today, w, j).Some?
    ensures v < w || (v == w && i < j) <==> CellDay(first, today, v, i).value < CellDay(first, today, w, j).value
  {
  }

  // ----- The grid -----

  /** The days of a window, filled from the records. */
  ghost predicate Filled(days: seq<ActivityDay>, records: seq<Record>, first: int, now: int)
    reads days`work, days`tasks, days`runIds
  {
    Buckets(days, first) && Tallied(days, records, first, now)
  }

  ghost predicate WellShaded(days: seq<ActivityDay>)
    reads days`work, days`level
  {
    && (forall i :: 0 <= i < |days| ==> days[i].level <= 4 && (days[i].level == 0 <==> days[i].work <= 0))
    && (forall i, j :: 0 <= i < |days| && 0 <= j < |days| && days[i].work <= days[j].work ==>
          days[i].level <= days[j].level)
  }

  /** Each busy day has the level of its rank among them. */
  ghost predicate RankShaded(days: seq<ActivityDay>)
    reads days
  {
    forall i :: 0 <= i < |days| && days[i].work > 0 ==> LevelOfRank(days[i].level, days[i].work, Works(days))
  }

  ghost predicate IsBusiest(days: seq<ActivityDay>, k: int)
    reads days`work
  {
    && 0 <= k < |days| && days[k].work > 0
    && (forall i :: 0 <= i < |days| ==> days[i].work <= days[k].work)
    && (forall i :: 0 <= i < k ==> days[i].work < days[k].work)
  }

  method FillDays(records: seq<Record>, first: int, now: int, n: nat) returns (days: seq<ActivityDay>)
    ensures |days| == n && Filled(days, records, first, now) && WellShaded(days) && RankShaded(days)
    ensures forall k :: IsBusiest(days, k) ==> days[k].level == 4
  {
    days := EmptyBuckets(first, n);
    AddRecords(days, first, records, now);
    ghost var values := AssignLevels(days);
    LevelsFollow(days, values);
    RanksFollow(days, values);
  }

  lemma RanksFollow(days: seq<ActivityDay>, values: seq<int>)
    requires SortedBusy(values, Works(days))
    requires forall i :: 0 <= i < |days| ==>
               days[i].level == if values == [] then 0 else Level(days[i].work, values)
    ensures RankShaded(days)
  {
    var works := Works(days);
    forall i | 0 <= i < |days| && days[i].work > 0
      ensures LevelOfRank(days[i].level, days[i].work, works)
    {
      assert works[i] in works;
      LevelByRank(values, works, days[i].work);
    }
  }

  /** `build_activity_grid` for a window of n days ending today. */
  method BuildActivityGrid(records: seq<Record>, today: int, now: int, n: nat)
    returns (
      first: int, days: seq<ActivityDay>, weeks: seq<seq<Option<int>>>, total: int, activeDays: nat, busiest: Option<int>)
    ensures first == today - n + 1
    ensures |days| == n && Filled(days, records, first, now) && WellShaded(days) && RankShaded(days)
    ensures if busiest.Some? then IsBusiest(days, busiest.value) && days[busiest.value].level == 4
            else forall i :: 0 <= i < n ==> days[i].work <= 0
    ensures total == WorkInDays(records, now, first, n)
    ensures activeDays == |set i | 0 <= i < n && days[i].work > 0|
    ensures LaidOut(weeks, first, today)
  {
    first := today - n + 1;
    weeks := LayOut(first, today);
    days := FillDays(records, first, now, n);
    total, activeDays, busiest := Summarize(days, records, first, now);
  }

  method Summarize(days: seq<ActivityDay>, records: seq<Record>, first: int, now: int)
    returns (total: int, activeDays: nat, busiest: Option<int>)
    requires Filled(days, records, first, now)
    ensures if busiest.Some? then IsBusiest(days, busiest.value) else forall i :: 0 <= i < |days| ==> days[i].work <= 0
    ensures total == WorkInDays(records, now, first, |days|)
    ensures activeDays == |set i | 0 <= i < |days| && days[i].work > 0|
  {
    total := Total(days, records, now, first);
    activeDays, busiest := Busiest(days);
  }

  method EmptyBuckets(first: int, n: nat) returns (days: seq<ActivityDay>)
    ensures |days| == n && Buckets(days, first) && fresh(days)
    ensures forall i :: 0 <= i < n ==> days[i].work == 0 && days[i].tasks == 0 && days[i].runIds == {} && days[i].level == 0
  {
    days := [];
    for i := 0 to n
      invariant |days| == i && Buckets(days, first) && fresh(days)
      invariant forall j :: 0 <= j < i ==>
                  days[j].work == 0 && days[j].tasks == 0 && days[j].runIds == {} && days[j].level == 0
    {
      var d := new ActivityDay(first + i);
      days := days + [d];
    }
  }

  lemma LevelsFollow(days: seq<ActivityDay>, values: seq<int>)
    requires SortedBusy(values, Works(days))
    requires forall i :: 0 <= i < |days| ==>
               days[i].level == if values == [] then 0 else Level(days[i].work, values)
    ensures forall i :: 0 <= i < |days| ==> days[i].level <= 4 && (days[i].level == 0 <==> days[i].work <= 0)
    ensures forall i, j :: 0 <= i < |days| && 0 <= j < |days| && days[i].work <= days[j].work ==>
              days[i].level <= days[j].level
    ensures forall k :: IsBusiest(days, k) ==> days[k].level == 4
  {
    SortedBusyMembers(values, Works(days));
    forall k | IsBusiest(days, k)
      ensures days[k].level == 4
    {
      assert Works(days)[k] in Works(days) && days[k].work in values;
      assert forall w :: w in Works(days) ==> w <= days[k].work;
      ShadingIsFaithful(values, Works(days), days[k].work, days[k].work);
    }
    forall i, j | 0 <= i < |days| && 0 <= j < |days|
      ensures days[i].level <= 4 && (days[i].level == 0 <==> days[i].work <= 0)
      ensures days[i].work <= days[j].work ==> days[i].level <= days[j].level
    {
      assert Works(days)[i] in Works(days) && Works(days)[j] in Works(days);
      if values != [] {
        ShadingIsFaithful(values, Works(days), days[i].work, days[j].work);
      } else {
        assert days[i].work !in values && days[j].work !in values;
      }
    }
  }

  method Total(days: seq<ActivityDay>, records: seq<Record>, now: int, first: int) returns (total: int)
    requires forall i :: 0 <= i < |days| ==> days[i].work == WorkOn(records, now, first + i)
    ensures total == WorkInDays(records, now, first, |days|)
  {
    total := 0;
    for i := 0 to |days|
      invariant total == GridTotal(records, now, first, i)
    {
      total := total + days[i].work;
    }
    GridConservesWork(records, now, first, |days|);
  }

  /** The number of busy days, and the first of the busiest ones. */
  method Busiest(days: seq<ActivityDay>) returns (count: nat, busiest: Option<int>)
    ensures if busiest.Some? then IsBusiest(days, busiest.value) else forall i :: 0 <= i < |days| ==> days[i].work <= 0
    ensures count == |set i | 0 <= i < |days| && days[i].work > 0|
  {
    count, busiest := 0, None;
    for k := 0 to |days|
      invariant if busiest.Some? then IsBusiest(days[..k], busiest.value) else forall i :: 0 <= i < k ==> days[i].work <= 0
      invariant count == |set i | 0 <= i < k && days[i].work > 0|
    {
      ghost var before := set i | 0 <= i < k && days[i].work > 0;
      ghost var after := set i | 0 <= i < k + 1 && days[i].work > 0;
      if days[k].work > 0 {
        assert after == before + {k};
        count := count + 1;
        if busiest.None? || days[k].work > days[busiest.value].work {
          busiest := Some(k);
        }
      } else {
        assert after == before;
      }
    }
    assert days[..|days|] == days;
  }
}
