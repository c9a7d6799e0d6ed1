/** Splitting an interval of work at the local days, or hours, it covers. Times are in whole
    seconds; a period is a day or an hour; local time is a fixed offset from the clock. */
module Slices {

  /** The seconds that fall into one period; periods are numbered in local time. */
  datatype Slice = Slice(period: int, seconds: int)

  function Min(a: int, b: int): int {
    if a < b then a else b
  }

  function Max(a: int, b: int): int {
    if a > b then a else b
  }

  /** How much of [a, b) lies in [c, d). */
  function Overlap(a: int, b: int, c: int, d: int): nat {
    Max(0, Min(b, d) - Max(a, c))
  }

  /** When local period k starts. */
  function StartOf(k: int, p: int, offset: int): int {
    k * p - offset
  }

  /** The local period a moment lies in. */
  function PeriodOf(t: int, p: int, offset: int): int
    requires p > 0
  {
    (t + offset) / p
  }

  lemma PeriodContains(t: int, p: int, offset: int)
    requires p > 0
    ensures var k := PeriodOf(t, p, offset);
            StartOf(k, p, offset) <= t < StartOf(k + 1, p, offset)
  {
    var k := PeriodOf(t, p, offset);
    assert t + offset == k * p + (t + offset) % p;
    assert (k + 1) * p == k * p + p;
  }

  lemma PeriodsAreOrdered(j: int, k: int, p: int, offset: int)
    requires p > 0 && j <= k
    ensures StartOf(j, p, offset) <= StartOf(k, p, offset)
    ensures j < k ==> StartOf(j, p, offset) < StartOf(k, p, offset)
  {
    assert (k - j) * p == k * p - j * p;
    if j < k {
      assert (k - j) * p >= p by {
        assert (k - j - 1) * p >= 0;
        assert (k - j) * p == (k - j - 1) * p + p;
      }
    }
  }

  /** Cpu-weighted overlap adds up over adjacent intervals. */
  lemma WorkAdds(cpus: nat, a: int, b: int, c: int, d: int, e: int)
    requires c <= d <= e
    ensures cpus * Overlap(a, b, c, e) == cpus * Overlap(a, b, c, d) + cpus * Overlap(a, b, d, e)
  {
    var x, y := Overlap(a, b, c, d), Overlap(a, b, d, e);
    assert Overlap(a, b, c, e) == x + y;
    assert cpus * (x + y) == cpus * x + cpus * y;
  }

  function SlicesOf(cursor: int, end: int, p: int, offset: int): seq<Slice>
    requires p > 0
    decreases end - cursor
  {
    if cursor >= end then []
    else
      PeriodContains(cursor, p, offset);
      var k := PeriodOf(cursor, p, offset);
      var sliceEnd := Min(StartOf(k + 1, p, offset), end);
      [Slice(k, sliceEnd - cursor)] + SlicesOf(sliceEnd, end, p, offset)
  }

  /** `_iter_day_slices` and `_iter_hour_slices`: under a fixed offset the cursor always advances,
      and the guard against a stalled cursor is never needed. */
  method IterSlices(start: int, end: int, p: int, offset: int) returns (slices: seq<Slice>, stalled: bool)
    requires p > 0
    ensures slices == SlicesOf(start, end, p, offset)
    ensures !stalled
  {
    slices, stalled := [], false;
    var cursor := start;
    while cursor < end
      invariant slices + SlicesOf(cursor, end, p, offset) == SlicesOf(start, end, p, offset)
      invariant cursor >= end ==> SlicesOf(cursor, end, p, offset) == []
      invariant !stalled
      decreases end - cursor
    {
      var k := PeriodOf(cursor, p, offset);
      var sliceEnd := Min(StartOf(k + 1, p, offset), end);
      PeriodContains(cursor, p, offset);
      if sliceEnd <= cursor {
        stalled := true;
        break;
      }
      slices := slices + [Slice(k, sliceEnd - cursor)];
      cursor := sliceEnd;
    }
  }

  /** Positive amounts in strictly increasing periods, none before `from`. */
  ghost predicate Increasing(s: seq<Slice>, from: int) {
    && (forall i :: 0 <= i < |s| ==> s[i].seconds > 0 && s[i].period >= from)
    && (forall i, j :: 0 <= i < j < |s| ==> s[i].period < s[j].period)
  }

  lemma IncreasingCons(s: Slice, rest: seq<Slice>, from: int)
    requires s.seconds > 0 && s.period >= from && Increasing(rest, s.period + 1)
    ensures Increasing([s] + rest, from)
  {
    var all := [s] + rest;
    forall i, j | 0 <= i < j < |all|
      ensures all[i].period < all[j].period
    {
      assert all[j] == rest[j - 1];
    }
  }

  lemma NextPeriod(k: int, p: int, offset: int)
    requires p > 0
    ensures PeriodOf(StartOf(k, p, offset), p, offset) >= k
  {
    var t := StartOf(k, p, offset);
    PeriodContains(t, p, offset);
    var k' := PeriodOf(t, p, offset);
    if k' + 1 <= k {
      PeriodsAreOrdered(k' + 1, k, p, offset);
    }
  }

  /** The periods of the slices strictly increase, and every slice is a positive amount. */
  lemma {:induction false} SlicesIncrease(cursor: int, end: int, p: int, offset: int, from: int)
    requires p > 0
    requires cursor < end ==> from <= PeriodOf(cursor, p, offset)
    ensures Increasing(SlicesOf(cursor, end, p, offset), from)
    decreases end - cursor
  {
    if cursor < end {
      PeriodContains(cursor, p, offset);
      var k := PeriodOf(cursor, p, offset);
      var sliceEnd := Min(StartOf(k + 1, p, offset), end);
      NextPeriod(k + 1, p, offset);
      SlicesIncrease(sliceEnd, end, p, offset, k + 1);
      IncreasingCons(Slice(k, sliceEnd - cursor), SlicesOf(sliceEnd, end, p, offset), from);
    }
  }

  /** The seconds of the slices of one period. */
  function SecondsIn(slices: seq<Slice>, k: int): int {
    if slices == [] then 0
    else (if slices[0].period == k then slices[0].seconds else 0) + SecondsIn(slices[1..], k)
  }

  function TotalSeconds(slices: seq<Slice>): int {
    if slices == [] then 0 else slices[0].seconds + TotalSeconds(slices[1..])
  }

  /** Nothing is lost: the slices of an interval sum to its length. */
  lemma {:induction false} SlicesSumToLength(start: int, end: int, p: int, offset: int)
    requires p > 0
    ensures TotalSeconds(SlicesOf(start, end, p, offset)) == Max(0, end - start)
    decreases end - start
  {
    if start < end {
      PeriodContains(start, p, offset);
      var k := PeriodOf(start, p, offset);
      SlicesSumToLength(Min(StartOf(k + 1, p, offset), end), end, p, offset);
    }
  }

  /** And nothing is misplaced: each period is credited exactly its overlap with the interval. */
  lemma {:induction false} SliceIsOverlap(start: int, end: int, p: int, offset: int, k: int)
    requires p > 0
    ensures SecondsIn(SlicesOf(start, end, p, offset), k) ==
              Overlap(start, end, StartOf(k, p, offset), StartOf(k + 1, p, offset))
    decreases end - start
  {
    PeriodsAreOrdered(k, k + 1, p, offset);
    if start < end {
      PeriodContains(start, p, offset);
      var k0 := PeriodOf(start, p, offset);
      var sliceEnd := Min(StartOf(k0 + 1, p, offset), end);
      SliceIsOverlap(sliceEnd, end, p, offset, k);
      if k < k0 {
        PeriodsAreOrdered(k + 1, k0, p, offset);
      } else if k > k0 {
        PeriodsAreOrdered(k0 + 1, k, p, offset);
      }
    }
  }

  /** The seconds of a window of n consecutive periods. */
  function SecondsInWindow(slices: seq<Slice>, first: int, n: nat): int {
    if n == 0 then 0 else SecondsInWindow(slices, first, n - 1) + SecondsIn(slices, first + n - 1)
  }

  lemma {:induction false} WindowIsOverlap(start: int, end: int, p: int, offset: int, first: int, n: nat)
    requires p > 0
    ensures SecondsInWindow(SlicesOf(start, end, p, offset), first, n) ==
              Overlap(start, end, StartOf(first, p, offset), StartOf(first + n, p, offset))
  {
    if n > 0 {
      WindowIsOverlap(start, end, p, offset, first, n - 1);
      SliceIsOverlap(start, end, p, offset, first + n - 1);
      PeriodsAreOrdered(first, first + n - 1, p, offset);
      PeriodsAreOrdered(first + n - 1, first + n, p, offset);
    }
  }
}
