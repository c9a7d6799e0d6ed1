/** The activity grid: work per local day over a trailing window, its shading, and its layout. */
module Activity {
  import opened Wrappers
  import opened Slices

  const DAY := 86400

  /** One task's use of the cluster. `offset` is the local offset the start time is read in. */
  datatype Record = Record(runId: string, source: string, cpus: nat, start: int, finish: Option<int>, offset: int)

  /** `rec.cpus or 1` */
  function CpusOf(r: Record): nat {
    if r.cpus == 0 then 1 else r.cpus
  }

  function EndOf(r: Record, now: int): int {
    r.finish.GetOr(now)
  }

  /** The record's seconds on a local day. */
  function SecondsOn(r: Record, now: int, day: int): nat {
    Overlap(r.start, EndOf(r, now), StartOf(day, DAY, r.offset), StartOf(day + 1, DAY, r.offset))
  }

  /** CPU-seconds of all records on a day: each one's CPUs times its overlap with the day. */
  function WorkOn(records: seq<Record>, now: int, day: int): nat {
    if records == [] then 0
    else
      var r := records[|records| - 1];
      WorkOn(records[..|records| - 1], now, day) + CpusOf(r) * SecondsOn(r, now, day)
  }

  function TasksOn(records: seq<Record>, now: int, day: int): nat {
    if records == [] then 0
    else
      TasksOn(records[..|records| - 1], now, day) + if SecondsOn(records[|records| - 1], now, day) > 0 then 1 else 0
  }

  function RunsOn(records: seq<Record>, now: int, day: int): set<string> {
    set r | r in records && SecondsOn(r, now, day) > 0 :: r.runId
  }

  /** What one day amounts to. */
  datatype Amount = Amount(work: int, tasks: nat, runIds: set<string>) {
    function Plus(other: Amount): Amount {
      Amount(work + other.work, tasks + other.tasks, runIds + other.runIds)
    }
  }

  const NOTHING := Amount(0, 0, {})

  function AmountOn(records: seq<Record>, now: int, day: int): Amount {
    Amount(WorkOn(records, now, day), TasksOn(records, now, day), RunsOn(records, now, day))
  }

  // ----- Accumulating -----

  class ActivityDay {
    const day: int
    var work: int
    var tasks: nat
    var runIds: set<string>
    var level: nat

    constructor (day: int)
      ensures this.day == day && work == 0 && tasks == 0 && runIds == {} && level == 0
    {
      this.day, work, tasks, runIds, level := day, 0, 0, {}, 0;
    }

    ghost function Holds(): Amount
      reads this`work, this`tasks, this`runIds
    {
      Amount(work, tasks, runIds)
    }

    method Add(seconds: int, cpus: nat, runId: string)
      modifies this`work, this`tasks, this`runIds
      ensures Holds() == old(Holds()).Plus(Amount(cpus * seconds, 1, {runId}))
    {
      work := work + seconds * cpus;
      tasks := tasks + 1;
      runIds := runIds + {runId};
    }
  }

  /** The buckets of a window: one per day, in order. */
  ghost predicate Buckets(days: seq<ActivityDay>, first: int) {
    forall i :: 0 <= i < |days| ==> days[i].day == first + i
  }

  lemma {:induction false} SecondsInSnoc(slices: seq<Slice>, s: Slice, k: int)
    ensures SecondsIn(slices + [s], k) == SecondsIn(slices, k) + if s.period == k then s.seconds else 0
  {
    if slices == [] {
      assert slices + [s] == [s];
    } else {
      assert (slices + [s])[1..] == slices[1..] + [s];
      SecondsInSnoc(slices[1..], s, k);
    }
  }

  /** In increasing slices a period occurs at most once, and exactly when it has any seconds. */
  lemma {:induction false} OneSlicePerPeriod(slices: seq<Slice>, from: int, k: int)
    requires Increasing(slices, from)
    ensures SecondsIn(slices, k) >= 0
    ensures SecondsIn(slices, k) > 0 <==> exists i :: 0 <= i < |slices| && slices[i].period == k
  {
    if slices != [] {
      var rest := slices[1..];
      assert forall i :: 0 <= i < |rest| ==> rest[i] == slices[i + 1];
      OneSlicePerPeriod(rest, slices[0].period + 1, k);
      if exists i :: 0 <= i < |slices| && slices[i].period == k {
        var i :| 0 <= i < |slices| && slices[i].period == k;
        if i > 0 {
          assert rest[i - 1].period == k;
        }
      }
    }
  }

  function CountIn(slices: seq<Slice>, k: int): nat {
    if slices == [] then 0
    else CountIn(slices[..|slices| - 1], k) + if slices[|slices| - 1].period == k then 1 else 0
  }

  lemma {:induction false} CountIsPresence(slices: seq<Slice>, from: int, k: int)
    requires Increasing(slices, from)
    ensures CountIn(slices, k) == if exists i :: 0 <= i < |slices| && slices[i].period == k then 1 else 0
  {
    if slices != [] {
      var n := |slices| - 1;
      CountIsPresence(slices[..n], from, k);
      if exists i :: 0 <= i < n && slices[..n][i].period == k {
        var i :| 0 <= i < n && slices[..n][i].period == k;
        assert slices[i].period == k;
      }
    }
  }

  /** The CPU-seconds of the slices of one period. */
  function WorkIn(slices: seq<Slice>, k: int, cpus: nat): int {
    if slices == [] then 0
    else
      var s := slices[|slices| - 1];
      WorkIn(slices[..|slices| - 1], k, cpus) + if s.period == k then cpus * s.seconds else 0
  }

  lemma {:induction false} WorkIsCpusTimesSeconds(slices: seq<Slice>, k: int, cpus: nat)
    ensures WorkIn(slices, k, cpus) == cpus * SecondsIn(slices, k)
  {
    if slices == [] {
      assert cpus * 0 == 0;
    } else {
      var n := |slices| - 1;
      var s := slices[n];
      WorkIsCpusTimesSeconds(slices[..n], k, cpus);
      assert slices == slices[..n] + [s];
      SecondsInSnoc(slices[..n], s, k);
      assert cpus * (SecondsIn(slices[..n], k) + s.seconds) == cpus * SecondsIn(slices[..n], k) + cpus * s.seconds;
    }
  }

  /** What a record's slices put on one day. */
  function AmountIn(slices: seq<Slice>, k: int, cpus: nat, runId: string): Amount {
    Amount(WorkIn(slices, k, cpus), CountIn(slices, k), if CountIn(slices, k) > 0 then {runId} else {})
  }

  function AmountOfSlice(s: Slice, k: int, cpus: nat, runId: string): Amount {
    if s.period == k then Amount(cpus * s.seconds, 1, {runId}) else NOTHING
  }

  lemma OneMoreSlice(slices: seq<Slice>, j: nat, k: int, cpus: nat, runId: string, base: Amount)
    requires j < |slices|
    ensures base.Plus(AmountIn(slices[..j + 1], k, cpus, runId)) ==
              base.Plus(AmountIn(slices[..j], k, cpus, runId)).Plus(AmountOfSlice(slices[j], k, cpus, runId))
  {
    assert slices[..j + 1][..j] == slices[..j];
  }

  /** One slice goes to its bucket, or nowhere when it is outside the window. */
  method AddSlice(days: seq<ActivityDay>, first: int, s: Slice, cpus: nat, runId: string)
    requires Buckets(days, first)
    modifies days`work, days`tasks, days`runIds
    ensures forall i :: 0 <= i < |days| ==>
              days[i].Holds() == old(days[i].Holds()).Plus(AmountOfSlice(s, first + i, cpus, runId))
  {
    var i := s.period - first;
    if 0 <= i < |days| {
      days[i].Add(s.seconds, cpus, runId);
    }
  }

  /** The inner loop: a record's slices are added one by one. */
  method AddSlices(days: seq<ActivityDay>, first: int, slices: seq<Slice>, cpus: nat, runId: string)
    requires Buckets(days, first)
    modifies days`work, days`tasks, days`runIds
    ensures forall i :: 0 <= i < |days| ==>
              days[i].Holds() == old(days[i].Holds()).Plus(AmountIn(slices, first + i, cpus, runId))
  {
    assert forall k :: AmountIn(slices[..0], k, cpus, runId) == NOTHING;
    for j := 0 to |slices|
      invariant forall i :: 0 <= i < |days| ==>
                  days[i].Holds() == old(days[i].Holds()).Plus(AmountIn(slices[..j], first + i, cpus, runId))
    {
      AddSlice(days, first, slices[j], cpus, runId);
      forall i | 0 <= i < |days|
        ensures days[i].Holds() == old(days[i].Holds()).Plus(AmountIn(slices[..j + 1], first + i, cpus, runId))
      {
        OneMoreSlice(slices, j, first + i, cpus, runId, old(days[i].Holds()));
      }
    }
    assert slices[..|slices|] == slices;
  }

  /** The buckets hold what some records amount to. */
  ghost predicate Tallied(days: seq<ActivityDay>, records: seq<Record>, first: int, now: int)
    reads days`work, days`tasks, days`runIds
  {
    forall i :: 0 <= i < |days| ==> days[i].Holds() == AmountOn(records, now, first + i)
  }

  /** One more record is split at its local midnights and added. */
  method AddRecord(days: seq<ActivityDay>, first: int, records: seq<Record>, n: nat, now: int)
    requires Buckets(days, first) && n < |records| && Tallied(days, records[..n], first, now)
    modifies days`work, days`tasks, days`runIds
    ensures Tallied(days, records[..n + 1], first, now)
  {
    var r := records[n];
    var slices, _ := IterSlices(r.start, EndOf(r, now), DAY, r.offset);
    AddSlices(days, first, slices, CpusOf(r), r.runId);
    forall i | 0 <= i < |days|
      ensures days[i].Holds() == AmountOn(records[..n + 1], now, first + i)
    {
      OneMoreRecord(records, n, now, first + i);
    }
  }

  /** The outer loop over the records. */
  method AddRecords(days: seq<ActivityDay>, first: int, records: seq<Record>, now: int)
    requires Buckets(days, first)
    requires forall i :: 0 <= i < |days| ==> days[i].Holds() == NOTHING
    modifies days`work, days`tasks, days`runIds
    ensures Tallied(days, records, first, now)
  {
    assert records[..0] == [];
    assert forall day :: AmountOn([], now, day) == NOTHING;
    for n := 0 to |records|
      invariant Tallied(days, records[..n], first, now)
    {
      AddRecord(days, first, records, n, now);
    }
    assert records[..|records|] == records;
  }

  lemma OneMoreRecord(records: seq<Record>, n: nat, now: int, day: int)
    requires n < |records|
    ensures var r := records[n];
            AmountOn(records[..n + 1], now, day) ==
              AmountOn(records[..n], now, day).Plus(
                AmountIn(SlicesOf(r.start, EndOf(r, now), DAY, r.offset), day, CpusOf(r), r.runId))
  {
    var r := records[n];
    RecordSlices(r, now, day);
    WorkIsCpusTimesSeconds(SlicesOf(r.start, EndOf(r, now), DAY, r.offset), day, CpusOf(r));
    assert records[..n + 1] == records[..n] + [r];
    assert records[..n + 1][..n] == records[..n];
  }

  /** A day slice exists exactly when the record ran on that day, and then holds all it ran. */
  lemma RecordSlices(r: Record, now: int, day: int)
    ensures var slices := SlicesOf(r.start, EndOf(r, now), DAY, r.offset);
            && SecondsIn(slices, day) == SecondsOn(r, now, day)
            && CountIn(slices, day) == if SecondsOn(r, now, day) > 0 then 1 else 0
  {
    var end := EndOf(r, now);
    var from := PeriodOf(r.start, DAY, r.offset);
    SliceIsOverlap(r.start, end, DAY, r.offset, day);
    SlicesIncrease(r.start, end, DAY, r.offset, from);
    OneSlicePerPeriod(SlicesOf(r.start, end, DAY, r.offset), from, day);
    CountIsPresence(SlicesOf(r.start, end, DAY, r.offset), from, day);
  }

  // ----- Conservation -----

  /** The record's seconds in the window of n days from `first`, in its own local time. */
  function SecondsInDays(r: Record, now: int, first: int, n: nat): nat {
    Overlap(r.start, EndOf(r, now), StartOf(first, DAY, r.offset), StartOf(first + n, DAY, r.offset))
  }

  function WorkInDays(records: seq<Record>, now: int, first: int, n: nat): nat {
    if records == [] then 0
    else
      var r := records[|records| - 1];
      WorkInDays(records[..|records| - 1], now, first, n) + CpusOf(r) * SecondsInDays(r, now, first, n)
  }

  function GridTotal(records: seq<Record>, now: int, first: int, n: nat): nat {
    if n == 0 then 0 else GridTotal(records, now, first, n - 1) + WorkOn(records, now, first + n - 1)
  }

  lemma RecordGrows(r: Record, now: int, first: int, n: nat)
    requires n > 0
    ensures CpusOf(r) * SecondsInDays(r, now, first, n) ==
              CpusOf(r) * SecondsInDays(r, now, first, n - 1) + CpusOf(r) * SecondsOn(r, now, first + n - 1)
  {
    PeriodsAreOrdered(first, first + n - 1, DAY, r.offset);
    PeriodsAreOrdered(first + n - 1, first + n, DAY, r.offset);
    WorkAdds(
      CpusOf(r), r.start, EndOf(r, now),
      StartOf(first, DAY, r.offset), StartOf(first + n - 1, DAY, r.offset), StartOf(first + n, DAY, r.offset));
  }

  lemma {:induction false} WindowGrows(records: seq<Record>, now: int, first: int, n: nat)
    requires n > 0
    ensures WorkInDays(records, now, first, n) ==
              WorkInDays(records, now, first, n - 1) + WorkOn(records, now, first + n - 1)
  {
    if records != [] {
      WindowGrows(records[..|records| - 1], now, first, n);
      RecordGrows(records[|records| - 1], now, first, n);
    }
  }

  lemma {:induction false} NothingInNoDays(records: seq<Record>, now: int, first: int)
    ensures WorkInDays(records, now, first, 0) == 0
  {
    if records != [] {
      NothingInNoDays(records[..|records| - 1], now, first);
      var r := records[|records| - 1];
      assert SecondsInDays(r, now, first, 0) == 0;
      assert CpusOf(r) * 0 == 0;
    }
  }

  /** The grid conserves work: its days sum to every record's CPUs times its overlap with the window. */
  lemma {:induction false} GridConservesWork(records: seq<Record>, now: int, first: int, n: nat)
    ensures GridTotal(records, now, first, n) == WorkInDays(records, now, first, n)
  {
    if n == 0 {
      NothingInNoDays(records, now, first);
    } else {
      GridConservesWork(records, now, first, n - 1);
      WindowGrows(records, now, first, n);
    }
  }
}
