/** The Gantt chart of a run: the time axis, its markers, and one bar per item. Times are exact
    seconds on the real line. */
module Gantt {
  import opened Wrappers
  import Poll

  /** What the chart reads of a run item. */
  datatype Item = Item(status: Poll.Status, submittedAt: Option<real>, startedAt: Option<real>, finishedAt: Option<real>) {
    predicate InFlight() {
      status.Submitted? || status.Queued? || status.Running? || status.Settling?
    }

    /** `end_ts = item.finished_at or now` */
    function End(now: real): real {
      finishedAt.GetOr(now)
    }

    /** Seconds between submission and start or, for an item that has not started, its end. */
    function Wait(now: real): real
      requires submittedAt.Some?
    {
      Max(0.0, startedAt.GetOr(End(now)) - submittedAt.value)
    }

    function Run(now: real): real {
      if startedAt.Some? then Max(0.0, End(now) - startedAt.value) else 0.0
    }

    /** Where the bar ends on the clock; only items that have started stretch the axis to it. */
    function VisualEnd(now: real): Option<real> {
      if submittedAt.Some? && startedAt.Some? then Some(submittedAt.value + (Wait(now) + Run(now))) else None
    }
  }

  function Max(a: real, b: real): real {
    if b > a then b else a
  }

  // ----- The end of the time axis -----

  function Later(ts: Option<real>, end: real): real {
    if ts.Some? && ts.value > end then ts.value else end
  }

  function AfterStamps(items: seq<Item>, end: real): real {
    if items == [] then end
    else
      var item := items[|items| - 1];
      Later(item.submittedAt, Later(item.startedAt, Later(item.finishedAt, AfterStamps(items[..|items| - 1], end))))
  }

  function AfterBars(items: seq<Item>, now: real, end: real): real {
    if items == [] then end
    else Later(items[|items| - 1].VisualEnd(now), AfterBars(items[..|items| - 1], now, end))
  }

  predicate AnyInFlight(items: seq<Item>) {
    exists i :: 0 <= i < |items| && items[i].InFlight()
  }

  function AxisStart(items: seq<Item>, created: real, now: real): real {
    if AnyInFlight(items) then now else created
  }

  function AxisEnd(items: seq<Item>, created: real, now: real): real {
    AfterBars(items, now, AfterStamps(items, AxisStart(items, created, now)))
  }

  function Span(items: seq<Item>, created: real, now: real): (span: real)
    ensures span > 0.0
  {
    var span := AxisEnd(items, created, now) - created;
    if span <= 0.0 then 1.0 else span
  }

  /** All the moments of one item that the axis has to reach are at most `end`. */
  predicate Reaches(end: real, item: Item, now: real) {
    && (item.submittedAt.Some? ==> item.submittedAt.value <= end)
    && (item.startedAt.Some? ==> item.startedAt.value <= end)
    && (item.finishedAt.Some? ==> item.finishedAt.value <= end)
    && (item.VisualEnd(now).Some? ==> item.VisualEnd(now).value <= end)
  }

  lemma {:induction false} StampsAreReached(items: seq<Item>, end: real, bound: real)
    ensures AfterStamps(items, end) <= bound <==>
              && end <= bound
              && forall i :: 0 <= i < |items| ==>
                   && (items[i].submittedAt.Some? ==> items[i].submittedAt.value <= bound)
                   && (items[i].startedAt.Some? ==> items[i].startedAt.value <= bound)
                   && (items[i].finishedAt.Some? ==> items[i].finishedAt.value <= bound)
  {
    if items != [] {
      var init := items[..|items| - 1];
      StampsAreReached(init, end, bound);
      assert items == init + [items[|items| - 1]];
    }
  }

  lemma {:induction false} BarsAreReached(items: seq<Item>, now: real, end: real, bound: real)
    ensures AfterBars(items, now, end) <= bound <==>
              && end <= bound
              && forall i :: 0 <= i < |items| && items[i].VisualEnd(now).Some? ==> items[i].VisualEnd(now).value <= bound
  {
    if items != [] {
      var init := items[..|items| - 1];
      BarsAreReached(init, now, end, bound);
      assert items == init + [items[|items| - 1]];
    }
  }

  /** The axis ends at the latest moment of the run: an upper bound of all of them, and the least. */
  lemma AxisEndIsLatest(items: seq<Item>, created: real, now: real, bound: real)
    ensures AxisEnd(items, created, now) <= bound <==>
              && AxisStart(items, created, now) <= bound
              && forall i :: 0 <= i < |items| ==> Reaches(bound, items[i], now)
  {
    var stamps := AfterStamps(items, AxisStart(items, created, now));
    BarsAreReached(items, now, stamps, bound);
    StampsAreReached(items, AxisStart(items, created, now), bound);
  }

  method FindAxisEnd(items: seq<Item>, created: real, now: real) returns (end: real)
    ensures end == AxisEnd(items, created, now)
  {
    end := if AnyInFlight(items) then now else created;
    assert items[..0] == [];
    for i := 0 to |items|
      invariant end == AfterStamps(items[..i], AxisStart(items, created, now))
    {
      assert items[..i + 1][..i] == items[..i];
      for k := 0 to 3
        invariant end == var before := AfterStamps(items[..i], AxisStart(items, created, now));
                         if k == 0 then before
                         else if k == 1 then Later(items[i].finishedAt, before)
                         else if k == 2 then Later(items[i].startedAt, Later(items[i].finishedAt, before))
                         else AfterStamps(items[..i + 1], AxisStart(items, created, now))
      {
        var ts := [items[i].finishedAt, items[i].startedAt, items[i].submittedAt][k];
        if ts.Some? && ts.value > end {
          end := ts.value;
        }
      }
    }
    assert items[..|items|] == items;
    ghost var stamps := end;
    for i := 0 to |items|
      invariant end == AfterBars(items[..i], now, stamps)
    {
      assert items[..i + 1][..i] == items[..i];
      var item := items[i];
      if item.submittedAt.Some? && item.startedAt.Some? {
        var wait := Max(0.0, item.startedAt.value - item.submittedAt.value);
        var run := Max(0.0, item.finishedAt.GetOr(now) - item.startedAt.value);
        var visualEnd := item.submittedAt.value + (wait + run);
        if visualEnd > end {
          end := visualEnd;
        }
      }
    }
  }

  // ----- Markers -----

  const NICE := [1, 5, 10, 30, 60, 120, 300, 600, 1800, 3600, 7200, 14400, 28800, 86400]
  const LONGEST := 86400

  /** The first nice interval that needs at most ten steps. */
  method ChooseInterval(span: real) returns (interval: int)
    requires span > 0.0
    ensures interval in NICE && interval >= 1
    ensures span <= 864000.0 ==> span <= 10.0 * interval as real
    ensures span > 864000.0 ==> interval == LONGEST
    ensures forall ni :: ni in NICE && ni < interval ==> span > 10.0 * ni as real
  {
    interval := NICE[|NICE| - 1];
    for i := 0 to |NICE|
      invariant interval == LONGEST
      invariant forall j :: 0 <= j < i ==> span > 10.0 * NICE[j] as real
    {
      if span / NICE[i] as real <= 10.0 {
        DivLe(span, NICE[i] as real, 10.0);
        interval := NICE[i];
        break;
      }
      DivLe(span, NICE[i] as real, 10.0);
    }
  }

  lemma DivLe(x: real, d: real, q: real)
    requires d > 0.0
    ensures x / d <= q <==> x <= q * d
  {
    var y := x / d;
    assert x == y * d;
    if y <= q {
      assert (q - y) * d >= 0.0;
    } else {
      assert (y - q) * d > 0.0;
    }
  }

  function Percent(x: real, span: real): real
    requires span > 0.0
  {
    x / span * 100.0
  }

  /** Percentages add up, keep order, and reach 100 just at the span. */
  lemma PercentIsLinear(x: real, y: real, span: real)
    requires span > 0.0
    ensures Percent(x + y, span) == Percent(x, span) + Percent(y, span)
    ensures Percent(0.0, span) == 0.0
    ensures x < y <==> Percent(x, span) < Percent(y, span)
    ensures x <= span <==> Percent(x, span) <= 100.0
  {
    assert (x + y) / span == x / span + y / span;
    DivLe(y, span, x / span);
    DivLe(x, span, 1.0);
    assert x / span * span == x;
  }

  /** The markers of an axis: at every multiple of the interval that the span reaches. */
  ghost predicate IsRuler(markers: seq<real>, span: real, interval: int)
    requires span > 0.0
  {
    && (forall k :: 0 <= k < |markers| ==> markers[k] == Percent(k as real * interval as real, span))
    && IsCount(|markers|, span, interval)
  }

  /** How many multiples of the interval, from 0 on, the span reaches. */
  predicate IsCount(n: nat, span: real, interval: int) {
    (n - 1) as real * interval as real <= span < n as real * interval as real
  }

  lemma NextMultiple(n: nat, interval: int)
    ensures n as real * interval as real + interval as real == (n + 1) as real * interval as real
  {
    var x, y := n as real, interval as real;
    assert (x + 1.0) * y == x * y + y;
  }

  method MakeMarkers(span: real, interval: int) returns (markers: seq<real>)
    requires span > 0.0 && interval >= 1
    ensures IsRuler(markers, span, interval)
  {
    markers := [];
    var t := 0.0;
    while t <= span
      invariant t == |markers| as real * interval as real
      invariant |markers| > 0 ==> (|markers| - 1) as real * interval as real <= span
      invariant forall k :: 0 <= k < |markers| ==> markers[k] == Percent(k as real * interval as real, span)
      decreases span - t
    {
      NextMultiple(|markers|, interval);
      markers := markers + [t / span * 100.0];
      t := t + interval as real;
    }
  }

  lemma MultipleOrder(x: real, y: real, step: real)
    requires step > 0.0
    ensures x < y <==> x * step < y * step
  {
    assert (y - x) * step == y * step - x * step;
    if x < y {
      assert (y - x) * step > 0.0;
    } else {
      assert (x - y) * step >= 0.0;
    }
  }

  lemma Multiples(j: nat, k: nat, interval: int)
    requires interval >= 1
    ensures j < k <==> j as real * interval as real < k as real * interval as real
  {
    MultipleOrder(j as real, k as real, interval as real);
  }

  lemma MultipleIsNatural(x: real, y: real)
    requires x >= 0.0 && y >= 0.0
    ensures x * y >= 0.0
    ensures x == 0.0 ==> x * y == 0.0
  {
  }

  /** A multiple before the count is within the chart. */
  lemma MultipleWithinChart(k: nat, n: nat, span: real, interval: int)
    requires span > 0.0 && interval >= 1 && k < n && IsCount(n, span, interval)
    ensures 0.0 <= Percent(k as real * interval as real, span) <= 100.0
    ensures k == 0 ==> Percent(k as real * interval as real, span) == 0.0
  {
    var mark, last := k as real * interval as real, (n - 1) as real * interval as real;
    assert last <= span;
    assert mark <= last by {
      Multiples(n - 1, k, interval);
    }
    assert mark >= 0.0 && (k == 0 ==> mark == 0.0) by {
      MultipleIsNatural(k as real, interval as real);
    }
    PercentBounds(mark, span);
  }

  lemma PercentBounds(x: real, span: real)
    requires span > 0.0
    ensures 0.0 <= x <= span ==> 0.0 <= Percent(x, span) <= 100.0
    ensures Percent(0.0, span) == 0.0
  {
    PercentIsLinear(x, 0.0, span);
  }

  lemma MarkWithinChart(markers: seq<real>, span: real, interval: int, k: nat)
    requires span > 0.0 && interval >= 1 && IsRuler(markers, span, interval)
    requires k < |markers|
    ensures 0.0 <= markers[k] <= 100.0
    ensures k == 0 ==> markers[k] == 0.0
  {
    MultipleWithinChart(k, |markers|, span, interval);
  }

  lemma MarksIncrease(markers: seq<real>, span: real, interval: int, j: nat, k: nat)
    requires span > 0.0 && interval >= 1 && IsRuler(markers, span, interval)
    requires j < k < |markers|
    ensures markers[j] < markers[k]
  {
    Multiples(j, k, interval);
    PercentIsLinear(j as real * interval as real, k as real * interval as real, span);
  }

  lemma MarkersAreOrdered(markers: seq<real>, span: real, interval: int)
    requires span > 0.0 && interval >= 1 && IsRuler(markers, span, interval)
    ensures markers != [] && markers[0] == 0.0
    ensures forall k :: 0 <= k < |markers| ==> 0.0 <= markers[k] <= 100.0
    ensures forall j, k :: 0 <= j < k < |markers| ==> markers[j] < markers[k]
  {
    MarkerCount(|markers|, span, interval, 0);
    MarkWithinChart(markers, span, interval, 0);
    forall k | 0 <= k < |markers|
      ensures 0.0 <= markers[k] <= 100.0
    {
      MarkWithinChart(markers, span, interval, k);
    }
    forall j, k | 0 <= j < k < |markers|
      ensures markers[j] < markers[k]
    {
      MarksIncrease(markers, span, interval, j, k);
    }
  }

  /** The number of markers tells how often the interval goes into the span. */
  lemma MarkerCount(n: nat, span: real, interval: int, q: nat)
    requires span > 0.0 && interval >= 1 && IsCount(n, span, interval)
    ensures n > 0
    ensures span <= q as real * interval as real ==> n <= q + 1
    ensures span >= q as real * interval as real ==> n > q
  {
    CountBounds(q as real, n as real, span, interval as real, (n - 1) as real * interval as real, n as real * interval as real);
  }

  lemma CountBounds(q: real, n: real, span: real, step: real, last: real, next: real)
    requires step > 0.0 && span > 0.0 && last == (n - 1.0) * step && next == n * step && last <= span < next
    ensures n > 0.0
    ensures span <= q * step ==> n <= q + 1.0
    ensures span >= q * step ==> n > q
  {
    assert 0.0 * step == 0.0 < next;
    MultipleOrder(0.0, n, step);
    assert q < n - 1.0 <==> q * step < last by {
      MultipleOrder(q, n - 1.0, step);
    }
    assert q < n <==> q * step < next by {
      MultipleOrder(q, n, step);
    }
  }

  /** With a chosen interval there are at most eleven markers on an axis of up to ten days, and at
      least three on one of more than ten seconds. */
  lemma MarkersAreFew(n: nat, span: real, interval: int)
    requires span > 0.0 && interval in NICE && interval >= 1 && IsCount(n, span, interval)
    requires span <= 864000.0 ==> span <= 10.0 * interval as real
    requires forall ni :: ni in NICE && ni < interval ==> span > 10.0 * ni as real
    ensures span <= 864000.0 ==> n <= 11
    ensures span > 10.0 ==> n >= 3
  {
    if span > 10.0 {
      SpanIsLong(span, interval);
    }
    MarkerCount(n, span, interval, 10);
    MarkerCount(n, span, interval, 2);
  }

  /** An interval chosen over a shorter one goes into the span at least twice. */
  lemma SpanIsLong(span: real, interval: int)
    requires span > 10.0 && interval in NICE
    requires forall ni :: ni in NICE && ni < interval ==> span > 10.0 * ni as real
    ensures span >= 2.0 * interval as real
  {
    var ni := PreviousNice(interval);
  }

  /** Each nice interval is at most five times the one before it. */
  lemma PreviousNice(interval: int) returns (ni: int)
    requires interval in NICE
    ensures interval == 1 || (ni in NICE && ni < interval <= 5 * ni)
  {
    var i :| 0 <= i < |NICE| && NICE[i] == interval;
    ni := if i == 0 then 1 else NICE[i - 1];
  }

  // ----- Bars -----

  datatype Bar = Bar(
    shown: bool, waitLeft: real, waitWidth: real, runLeft: real, runWidth: real, start: real, end: real)

  const NO_BAR := Bar(false, 0.0, 0.0, 0.0, 0.0, 0.0, 0.0)

  /** One item's entry of the chart. */
  function BarOf(item: Item, created: real, now: real, span: real): Bar
    requires span > 0.0
  {
    if item.submittedAt.None? then NO_BAR
    else
      var offset := Max(0.0, item.submittedAt.value - created);
      var wait, run := item.Wait(now), item.Run(now);
      var waitLeft, waitWidth := Percent(offset, span), Percent(wait, span);
      if item.startedAt.Some? then
        var runLeft, runWidth := Percent(offset + wait, span), Percent(run, span);
        Bar(true, waitLeft, waitWidth, runLeft, runWidth, waitLeft, runLeft + runWidth)
      else
        Bar(true, waitLeft, waitWidth, 0.0, 0.0, waitLeft, waitLeft + waitWidth)
  }

  predicate WithinChart(bar: Bar) {
    0.0 <= bar.start <= bar.end <= 100.0
  }

  /** How far the right end of the bar is from the start of the axis, in seconds. */
  function Extent(item: Item, created: real, now: real): real
    requires item.submittedAt.Some?
  {
    Max(0.0, item.submittedAt.value - created) + item.Wait(now) + item.Run(now)
  }

  /** A bar is drawn to scale: it runs from 0 on to its extent, and the run segment starts where
      the wait segment ends. */
  lemma BarIsToScale(item: Item, created: real, now: real, span: real)
    requires span > 0.0 && item.submittedAt.Some?
    ensures var bar := BarOf(item, created, now, span);
            && bar.end == Percent(Extent(item, created, now), span)
            && 0.0 <= bar.start <= bar.end
            && (item.startedAt.Some? ==> bar.runLeft == bar.start + bar.waitWidth)
            && (WithinChart(bar) <==> Extent(item, created, now) <= span)
  {
    var offset := Max(0.0, item.submittedAt.value - created);
    var wait, run := item.Wait(now), item.Run(now);
    PercentIsLinear(offset, wait, span);
    PercentIsLinear(offset + wait, run, span);
    PercentIsLinear(offset, 0.0, span);
    PercentIsLinear(offset, offset + wait + run, span);
    PercentIsLinear(offset + wait + run, offset, span);
  }

  /** A length in the chart stands for these seconds. */
  predicate Measures(percent: real, span: real, seconds: real) {
    percent * span == 100.0 * seconds
  }

  lemma PercentMeasures(x: real, span: real)
    requires span > 0.0
    ensures Measures(Percent(x, span), span, x)
  {
    assert x / span * span == x;
  }

  /** The pieces of a bar, in seconds: it starts at the submission, the wait segment lasts until the start or,
      for an item that has not started, until its end or the present, and the run segment from the start to
      the end or the present. Nothing is of negative length; an item never submitted has no bar. */
  lemma BarMeasuresTime(item: Item, created: real, now: real, span: real)
    requires span > 0.0
    ensures var bar := BarOf(item, created, now, span);
            && (bar.shown <==> item.submittedAt.Some?)
            && (item.submittedAt.Some? ==>
                  var submitted, end := item.submittedAt.value, if item.finishedAt.Some? then item.finishedAt.value else now;
                  && bar.start == bar.waitLeft
                  && Measures(bar.start, span, if submitted > created then submitted - created else 0.0)
                  && (item.startedAt.Some? ==>
                        var started := item.startedAt.value;
                        && Measures(bar.waitWidth, span, if started > submitted then started - submitted else 0.0)
                        && Measures(bar.runWidth, span, if end > started then end - started else 0.0)
                        && bar.end == bar.runLeft + bar.runWidth)
                  && (item.startedAt.None? ==>
                        && Measures(bar.waitWidth, span, if end > submitted then end - submitted else 0.0)
                        && bar.runWidth == 0.0 && bar.end == bar.waitLeft + bar.waitWidth))
  {
    if item.submittedAt.Some? {
      PercentMeasures(Max(0.0, item.submittedAt.value - created), span);
      PercentMeasures(item.Wait(now), span);
      PercentMeasures(item.Run(now), span);
    }
  }

  /** What an item must be like for its bar to fit: submitted no earlier than the run was created
      and, unless it has started or finished, in flight. An item stamped earlier fits only if its
      bar has no length at all. */
  predicate WellStamped(item: Item, created: real) {
    || item.submittedAt.None?
    || (item.submittedAt.value >= created && (item.startedAt.Some? || item.finishedAt.Some?
            || item.status.Submitted? || item.status.Queued? || item.status.Running? || item.status.Settling?))
    || (item.finishedAt.Some?
        && item.startedAt.GetOr(item.finishedAt.value) <= item.submittedAt.value
        && (item.startedAt.Some? ==> item.finishedAt.value <= item.startedAt.value))
  }

  /** A well-stamped item's bar lies within the chart, whatever the clock and the other items. */
  lemma WellStampedBarFits(items: seq<Item>, i: nat, created: real, now: real)
    requires i < |items| && WellStamped(items[i], created)
    ensures WithinChart(BarOf(items[i], created, now, Span(items, created, now)))
  {
    var item, end := items[i], AxisEnd(items, created, now);
    if item.submittedAt.Some? {
      AxisEndIsLatest(items, created, now, end);
      assert Reaches(end, item, now);
      assert item.InFlight() ==> now <= end;
      BarIsToScale(item, created, now, Span(items, created, now));
    }
  }

  // ----- Bars that do not fit -----

  /** A companion that is finished, and early enough to leave the axis shorter than `length`. */
  function Companion(created: real, length: real): Item {
    Item(Poll.Completed, Some(created), Some(created), Some(created + length / 2.0))
  }

  /** When to draw the chart: for an item without an end, after everything that happened. */
  function DrawnAt(item: Item, created: real): (now: real)
    ensures now >= created
  {
    if item.finishedAt.Some? then created
    else 1.0 + Max(created, Max(item.submittedAt.GetOr(created), item.startedAt.GetOr(created)))
  }

  /** All moments of an ill-stamped item, the axis start included, are earlier than its bar is long. */
  lemma MomentsFallShort(item: Item, created: real, now: real) returns (bound: real)
    requires !WellStamped(item, created) && now == DrawnAt(item, created)
    ensures Extent(item, created, now) > 0.0
    ensures created <= bound < created + Extent(item, created, now)
    ensures Reaches(bound, item, now) && (item.InFlight() ==> now <= bound)
  {
    var s := item.submittedAt.value;
    var last := Max(s, Max(item.startedAt.GetOr(s), item.finishedAt.GetOr(s)));
    var axisStart := if item.InFlight() then now else created;
    bound := Max(Max(created, axisStart), Max(last, item.VisualEnd(now).GetOr(last)));
  }

  /** Any other item has a run, and a time at which the chart is drawn, in which its bar overflows. */
  lemma IllStampedBarOverflows(item: Item, created: real) returns (items: seq<Item>, now: real)
    requires !WellStamped(item, created)
    ensures items != [] && items[0] == item && now >= created
    ensures !WithinChart(BarOf(item, created, now, Span(items, created, now)))
  {
    now := DrawnAt(item, created);
    var extent := Extent(item, created, now);
    var company := Companion(created, extent);
    items := [item, company];
    var moments := MomentsFallShort(item, created, now);
    var bound := Max(moments, created + extent / 2.0);
    assert Reaches(bound, company, now);
    AxisEndIsLatest(items, created, now, bound);
    var end := AxisEnd(items, created, now);
    AxisEndIsLatest(items, created, now, end);
    assert Reaches(end, items[1], now);
    BarIsToScale(item, created, now, Span(items, created, now));
  }

  /** So a bar fits in every run and at every time after the run's creation exactly when its item
      is well stamped. */
  lemma BarsFitExactly(item: Item, created: real)
    ensures WellStamped(item, created) <==>
              forall items: seq<Item>, now: real | items != [] && items[0] == item && now >= created ::
                WithinChart(BarOf(item, created, now, Span(items, created, now)))
  {
    if WellStamped(item, created) {
      forall items: seq<Item>, now: real | items != [] && items[0] == item && now >= created
        ensures WithinChart(BarOf(item, created, now, Span(items, created, now)))
      {
        WellStampedBarFits(items, 0, created, now);
      }
    } else {
      var items, now := IllStampedBarOverflows(item, created);
    }
  }

  // ----- The chart -----

  method MakeBar(item: Item, created: real, now: real, span: real) returns (bar: Bar)
    requires span > 0.0
    ensures bar == BarOf(item, created, now, span)
  {
    bar := NO_BAR;
    if item.submittedAt.Some? {
      var offset := Max(0.0, item.submittedAt.value - created);
      if item.startedAt.Some? {
        var wait := Max(0.0, item.startedAt.value - item.submittedAt.value);
        var run := Max(0.0, item.finishedAt.GetOr(now) - item.startedAt.value);
        var visualStart := offset + wait;
        bar := bar.(shown := true,
                    waitLeft := offset / span * 100.0, waitWidth := wait / span * 100.0,
                    runLeft := visualStart / span * 100.0, runWidth := run / span * 100.0);
        bar := bar.(start := bar.waitLeft, end := bar.runLeft + bar.runWidth);
      } else {
        var wait := Max(0.0, item.finishedAt.GetOr(now) - item.submittedAt.value);
        bar := bar.(shown := true, waitLeft := offset / span * 100.0, waitWidth := wait / span * 100.0);
        bar := bar.(start := bar.waitLeft, end := bar.waitLeft + bar.waitWidth);
      }
    }
  }

  /** `_compute_gantt_data` */
  method ComputeGantt(items: seq<Item>, created: real, now: real) returns (bars: seq<Bar>, markers: seq<real>)
    ensures |bars| == |items|
    ensures forall i :: 0 <= i < |items| ==> bars[i] == BarOf(items[i], created, now, Span(items, created, now))
    ensures forall i :: 0 <= i < |items| && WellStamped(items[i], created) ==> WithinChart(bars[i])
    ensures markers != [] && forall k :: 0 <= k < |markers| ==> 0.0 <= markers[k] <= 100.0
    ensures forall j, k :: 0 <= j < k < |markers| ==> markers[j] < markers[k]
    ensures Span(items, created, now) <= 864000.0 ==> |markers| <= 11
    ensures Span(items, created, now) > 10.0 ==> |markers| >= 3
  {
    var end := FindAxisEnd(items, created, now);
    var span := end - created;
    if span <= 0.0 {
      span := 1.0;
    }
    var interval := ChooseInterval(span);
    markers := MakeMarkers(span, interval);
    MarkersAreOrdered(markers, span, interval);
    MarkersAreFew(|markers|, span, interval);
    bars := [];
    for i := 0 to |items|
      invariant |bars| == i
      invariant forall j :: 0 <= j < i ==> bars[j] == BarOf(items[j], created, now, span)
      invariant forall j :: 0 <= j < i && WellStamped(items[j], created) ==> WithinChart(bars[j])
    {
      var bar := MakeBar(items[i], created, now, span);
      bars := bars + [bar];
      if WellStamped(items[i], created) {
        WellStampedBarFits(items, i, created, now);
      }
    }
  }
}
