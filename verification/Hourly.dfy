/** Usage per local hour over a trailing window, stacked by source. Work is in CPU-seconds. */
module Hourly {
  import opened Wrappers
  import opened Slices
  import opened Activity

  const HOUR := 3600
  const MAX_SERIES := 5

  /** The window: `count` local hours from hour `first`, in the offset of the current time. */
  datatype Window = Window(first: int, count: nat, offset: int)

  function WindowAt(now: int, offset: int, hours: nat): Window {
    Window(PeriodOf(now, HOUR, offset) - hours + 1, hours, offset)
  }

  function HourStart(w: Window, i: int): int {
    StartOf(w.first + i, HOUR, w.offset)
  }

  /** The slot whose hour starts at this very moment, if the window has one. */
  function SlotOf(w: Window, moment: int): Option<nat> {
    var d := moment - HourStart(w, 0);
    if d % HOUR == 0 && 0 <= d / HOUR < w.count then Some(d / HOUR) else None
  }

  /** Hours read in the record's offset start on the window's hours. */
  predicate Aligned(r: Record, w: Window) {
    (r.offset - w.offset) % HOUR == 0
  }

  /** The record's seconds in one hour of the window. */
  function SecondsAt(r: Record, now: int, w: Window, i: nat): nat {
    Overlap(r.start, EndOf(r, now), HourStart(w, i), HourStart(w, i + 1))
  }

  // ----- Dictionaries -----

  function WorkOf(m: map<string, int>, k: string): int {
    Get(m, k, 0)
  }

  function SumOver(names: seq<string>, m: map<string, int>): int {
    if names == [] then 0 else SumOver(names[..|names| - 1], m) + WorkOf(m, names[|names| - 1])
  }

  /** `sum(m.values())` */
  ghost function ValueSum(m: map<string, int>): int {
    if m == map[] then 0
    else
      var k :| k in m;
      m[k] + ValueSum(m - {k})
  }

  // ----- Accumulation -----

  /** `per_hour` and `totals`; `order` is the order in which the keys of `totals` were inserted. */
  datatype Tally = Tally(perHour: seq<map<string, int>>, totals: map<string, int>, order: seq<string>)

  function EmptyTally(n: nat): Tally {
    Tally(seq(n, _ => map[]), map[], [])
  }

  /** Work credited to one hour and one source. */
  function Credited(t: Tally, i: nat, source: string, work: int): Tally
    requires i < |t.perHour|
  {
    Tally(
      t.perHour[i := t.perHour[i][source := WorkOf(t.perHour[i], source) + work]],
      t.totals[source := WorkOf(t.totals, source) + work],
      if source in t.totals then t.order else t.order + [source])
  }

  function CreditSlice(t: Tally, w: Window, s: Slice, r: Record): (u: Tally)
    requires |t.perHour| == w.count
    ensures |u.perHour| == w.count
  {
    match SlotOf(w, StartOf(s.period, HOUR, r.offset))
    case None => t
    case Some(i) => Credited(t, i, r.source, s.seconds * CpusOf(r))
  }

  function CreditSlices(t: Tally, w: Window, slices: seq<Slice>, r: Record): (u: Tally)
    requires |t.perHour| == w.count
    ensures |u.perHour| == w.count
  {
    if slices == [] then t
    else CreditSlice(CreditSlices(t, w, slices[..|slices| - 1], r), w, slices[|slices| - 1], r)
  }

  function TallyOf(records: seq<Record>, now: int, w: Window): (t: Tally)
    ensures |t.perHour| == w.count
  {
    if records == [] then EmptyTally(w.count)
    else
      var r := records[|records| - 1];
      CreditSlices(TallyOf(records[..|records| - 1], now, w), w, SlicesOf(r.start, EndOf(r, now), HOUR, r.offset), r)
  }

  /** The accumulation loops. */
  method Accumulate(records: seq<Record>, now: int, w: Window)
    returns (perHour: seq<map<string, int>>, totals: map<string, int>, order: seq<string>)
    ensures Tally(perHour, totals, order) == TallyOf(records, now, w)
  {
    perHour, totals, order := seq(w.count, _ => map[]), map[], [];
    assert records[..0] == [];
    for n := 0 to |records|
      invariant Tally(perHour, totals, order) == TallyOf(records[..n], now, w)
    {
      var r := records[n];
      var slices, _ := IterSlices(r.start, EndOf(r, now), HOUR, r.offset);
      assert records[..n + 1][..n] == records[..n];
      perHour, totals, order := AddRecordSlices(perHour, totals, order, w, slices, r);
    }
    assert records[..|records|] == records;
  }

  method AddRecordSlices(
    perHour0: seq<map<string, int>>, totals0: map<string, int>, order0: seq<string>, w: Window, slices: seq<Slice>, r: Record)
    returns (perHour: seq<map<string, int>>, totals: map<string, int>, order: seq<string>)
    requires |perHour0| == w.count
    ensures Tally(perHour, totals, order) == CreditSlices(Tally(perHour0, totals0, order0), w, slices, r)
  {
    perHour, totals, order := perHour0, totals0, order0;
    assert slices[..0] == [];
    for j := 0 to |slices|
      invariant |perHour| == w.count
      invariant Tally(perHour, totals, order) == CreditSlices(Tally(perHour0, totals0, order0), w, slices[..j], r)
    {
      assert slices[..j + 1][..j] == slices[..j];
      var s := slices[j];
      var slot := SlotOf(w, StartOf(s.period, HOUR, r.offset));
      if slot.None? {
        continue;
      }
      var i := slot.value;
      var work := s.seconds * CpusOf(r);
      perHour := perHour[i := perHour[i][r.source := WorkOf(perHour[i], r.source) + work]];
      if r.source !in totals {
        order := order + [r.source];
      }
      totals := totals[r.source := WorkOf(totals, r.source) + work];
    }
    assert slices[..|slices|] == slices;
  }

  // ----- Ranking and folding -----

  /** `sorted(names, key=totals, reverse=True)`: busiest first, ties in insertion order. */
  function Ranked(names: seq<string>, totals: map<string, int>): (r: seq<string>)
    ensures multiset(r) == multiset(names)
  {
    if names == [] then []
    else
      var last := names[|names| - 1];
      assert names == names[..|names| - 1] + [last];
      Placed(Ranked(names[..|names| - 1], totals), last, totals)
  }

  /** A later name goes behind those that are at least as busy. */
  function Placed(ranked: seq<string>, name: string, totals: map<string, int>): (r: seq<string>)
    ensures multiset(r) == multiset(ranked) + multiset{name}
  {
    if ranked == [] then [name]
    else if WorkOf(totals, ranked[0]) >= WorkOf(totals, name) then
      assert ranked == [ranked[0]] + ranked[1..];
      [ranked[0]] + Placed(ranked[1..], name, totals)
    else [name] + ranked
  }

  const OTHER := "Other"

  function Shown(ranked: seq<string>): seq<string> {
    if |ranked| <= MAX_SERIES then ranked else ranked[..MAX_SERIES]
  }

  function Tail(ranked: seq<string>): seq<string> {
    if |ranked| <= MAX_SERIES then [] else ranked[MAX_SERIES..]
  }

  /** The tail of one bucket is rolled up under "Other"; a roll-up of nothing leaves no key. */
  function RolledUp(bucket: map<string, int>, tail: seq<string>): map<string, int> {
    var kept := map k | k in bucket && k !in tail :: bucket[k];
    var rolled := SumOver(tail, bucket);
    if tail == [] then bucket
    else if rolled != 0 then kept[OTHER := rolled]
    else kept
  }

  function FoldedTotals(totals: map<string, int>, tail: seq<string>): map<string, int> {
    if tail == [] then totals
    else
      var withOther := totals[OTHER := SumOver(tail, totals)];
      map k | k in withOther && k !in tail :: withOther[k]
  }

  function Series(ranked: seq<string>): seq<string> {
    Shown(ranked) + if Tail(ranked) == [] then [] else [OTHER]
  }

  // ----- Buckets -----

  datatype Segment = Segment(source: string, work: int, height: real, isTop: bool)

  datatype HourBucket = HourBucket(start: int, total: int, segments: seq<Segment>)

  datatype HourlyUsage = HourlyUsage(
    hours: seq<HourBucket>, sources: seq<string>, totals: map<string, int>, maxTotal: int, total: int)

  function Height(work: int, maxTotal: int): real {
    if maxTotal == 0 then 0.0 else work as real / maxTotal as real * 100.0
  }

  /** The series present in a bucket, in stacking order; the last one is the top. */
  function SegmentsOf(bucket: map<string, int>, series: seq<string>, maxTotal: int): (r: seq<Segment>) {
    if series == [] then []
    else
      var name := series[0];
      var rest := SegmentsOf(bucket, series[1..], maxTotal);
      if WorkOf(bucket, name) > 0 then [Segment(name, bucket[name], Height(bucket[name], maxTotal), rest == [])] + rest
      else rest
  }

  method SumValues(m: map<string, int>) returns (sum: int)
    ensures sum == ValueSum(m)
  {
    sum := 0;
    var rest := m;
    while rest != map[]
      invariant sum + ValueSum(rest) == ValueSum(m)
      decreases |rest|
    {
      var k :| k in rest;
      ValueSumTakesOut(rest, k);
      sum := sum + rest[k];
      assert (rest - {k}).Keys == rest.Keys - {k};
      assert |rest| == |rest.Keys| && |rest - {k}| == |(rest - {k}).Keys|;
      rest := rest - {k};
    }
  }

  lemma {:induction false} ValueSumTakesOut(m: map<string, int>, k: string)
    requires k in m
    ensures ValueSum(m) == m[k] + ValueSum(m - {k})
    decreases |m|
  {
    var j :| j in m && ValueSum(m) == m[j] + ValueSum(m - {j});
    if j != k {
      assert (m - {j}).Keys == m.Keys - {j};
      assert |m| == |m.Keys| && |m - {j}| == |(m - {j}).Keys|;
      ValueSumTakesOut(m - {j}, k);
      var without := m - {k};
      assert (without.Keys) == m.Keys - {k};
      assert |without| == |without.Keys|;
      ValueSumTakesOut(without, j);
      assert m - {j} - {k} == m - {k} - {j};
    }
  }

  // ----- The chart -----

  function RolledUpAll(buckets: seq<map<string, int>>, tail: seq<string>): (r: seq<map<string, int>>)
    ensures |r| == |buckets| && forall i :: 0 <= i < |r| ==> r[i] == RolledUp(buckets[i], tail)
  {
    seq(|buckets|, i requires 0 <= i < |buckets| => RolledUp(buckets[i], tail))
  }

  ghost function MaxValueSum(buckets: seq<map<string, int>>): int {
    if buckets == [] then 0
    else if |buckets| == 1 then ValueSum(buckets[0])
    else Max(MaxValueSum(buckets[..|buckets| - 1]), ValueSum(buckets[|buckets| - 1]))
  }

  ghost function Bars(buckets: seq<map<string, int>>, series: seq<string>, w: Window, maxTotal: int): (r: seq<HourBucket>)
    ensures |r| == |buckets|
    ensures forall i :: 0 <= i < |r| ==>
              r[i] == HourBucket(HourStart(w, i), ValueSum(buckets[i]), SegmentsOf(buckets[i], series, maxTotal))
  {
    seq(|buckets|, i requires 0 <= i < |buckets| =>
      HourBucket(HourStart(w, i), ValueSum(buckets[i]), SegmentsOf(buckets[i], series, maxTotal)))
  }

  /** What the chart shows for a tally. */
  ghost function ChartOf(t: Tally, w: Window): HourlyUsage {
    var ranked := Ranked(t.order, t.totals);
    var series, tail := Series(ranked), Tail(ranked);
    var buckets, totals := RolledUpAll(t.perHour, tail), FoldedTotals(t.totals, tail);
    var maxTotal := MaxValueSum(buckets);
    HourlyUsage(
      Bars(buckets, series, w, maxTotal), series, map name | name in series && name in totals :: totals[name],
      maxTotal, SumOver(series, totals))
  }

  /** Whether all series still have a total after folding, which is then read. */
  predicate AllRead(series: seq<string>, folded: map<string, int>) {
    forall i :: 0 <= i < |series| ==> series[i] in folded
  }

  /** When a source that is itself called "Other" falls into the tail, the roll-up that was going
      to be shown is deleted with the tail, and reading it raises a KeyError. */
  predicate OtherSurvives(t: Tally) {
    OTHER !in Tail(Ranked(t.order, t.totals))
  }

  method RollUpBuckets(perHour: seq<map<string, int>>, tail: seq<string>) returns (buckets: seq<map<string, int>>)
    ensures buckets == RolledUpAll(perHour, tail)
  {
    buckets := [];
    for i := 0 to |perHour|
      invariant |buckets| == i && forall j :: 0 <= j < i ==> buckets[j] == RolledUp(perHour[j], tail)
    {
      buckets := buckets + [RolledUp(perHour[i], tail)];
    }
  }

  method LargestTotal(buckets: seq<map<string, int>>) returns (maxTotal: int)
    ensures maxTotal == MaxValueSum(buckets)
  {
    maxTotal := 0;
    for i := 0 to |buckets|
      invariant maxTotal == MaxValueSum(buckets[..i])
    {
      var sum := SumValues(buckets[i]);
      assert buckets[..i + 1][..i] == buckets[..i];
      if i == 0 || sum > maxTotal {
        maxTotal := sum;
      }
    }
    assert buckets[..|buckets|] == buckets;
  }

  method DrawBars(buckets: seq<map<string, int>>, series: seq<string>, w: Window, maxTotal: int)
    returns (hours: seq<HourBucket>)
    ensures hours == Bars(buckets, series, w, maxTotal)
  {
    hours := [];
    for i := 0 to |buckets|
      invariant |hours| == i && forall j :: 0 <= j < i ==>
        hours[j] == HourBucket(HourStart(w, j), ValueSum(buckets[j]), SegmentsOf(buckets[j], series, maxTotal))
    {
      var sum := SumValues(buckets[i]);
      hours := hours + [HourBucket(HourStart(w, i), sum, SegmentsOf(buckets[i], series, maxTotal))];
    }
  }
}
