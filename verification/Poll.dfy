/** One poll of a backend: items are resolved from what the queue and the accounting database say. */
module Poll {
  import opened Wrappers

  datatype Status = Pending | Submitted | Queued | Running | Settling | Completed | Failed | DepFailed

  /** The fields of a run item that polling reads or writes. Times are in seconds. */
  datatype Item = Item(
    status: Status,
    jobId: Option<string>,
    submittedAt: Option<int>,
    startedAt: Option<int>,
    finishedAt: Option<int>,
    error: Option<string>,
    schedulerState: Option<string>,
    exitCode: Option<int>,
    cpuEfficiency: Option<real>,
    maxRss: Option<string>)
  {
    predicate HasJob() {
      jobId.Some? && jobId.value != ""
    }

    predicate Decided() {
      status == Completed || status == Failed
    }

    /** The verdict is in and accounting has confirmed a final state. */
    predicate Locked() {
      Decided() && schedulerState.Some?
    }
  }

  /** One row of accounting. */
  datatype Stats = Stats(
    cpuEfficiency: real, maxRss: string, start: Option<int>, end: Option<int>, state: Option<string>, exitCode: Option<int>)
  {
    /** The state, when the row has a non-empty one. */
    predicate Tells(s: string) {
      s != "" && state == Some(s)
    }

    predicate TellsSomething() {
      state.Some? && state.value != ""
    }
  }

  const DISAPPEARED := "Job vanished before being observed running"
  const NO_RECORD := "sbatch accepted the job but the scheduler has no record of it"
  const UNCONFIRMED :=
    "marked COMPLETED after the scheduler queue clear but accounting never returned a row — exit code unknown"

  /** The timeouts of the run manager and the state tables of a backend. */
  datatype Policy = Policy(
    submitGrace: int, noRecordTimeout: int, settlingTimeout: int, failures: map<string, string>, terminal: set<string>)
  {
    predicate Valid() {
      && submitGrace <= noRecordTimeout
      && failures.Keys <= terminal
      && "COMPLETED" in terminal && "COMPLETED" !in failures && "" !in failures
    }
  }

  // ----- What a poll does to one item -----

  /** Is accounting asked about this item? */
  predicate Queried(i: Item, live: set<string>, now: int, p: Policy) {
    i.HasJob() &&
    if i.Decided() && i.schedulerState.None? then true
    else if i.status == Submitted && i.jobId.value !in live && i.submittedAt.Some? then
      now - i.submittedAt.value > p.submitGrace
    else i.status == Settling
  }

  function OrElse<T>(a: Option<T>, b: Option<T>): Option<T> {
    if a.Some? then a else b
  }

  /** Every row leaves its figures, and a terminal state is recorded as confirmed. */
  function Stamped(i: Item, s: Stats, p: Policy): Item {
    i.(cpuEfficiency := Some(s.cpuEfficiency),
       maxRss := Some(s.maxRss),
       startedAt := OrElse(s.start, i.startedAt),
       finishedAt := OrElse(s.end, i.finishedAt),
       schedulerState := if s.TellsSomething() && s.state.value in p.terminal then s.state else i.schedulerState,
       exitCode := OrElse(s.exitCode, i.exitCode))
  }

  /** The verdict of a row on an item that was waiting for one. */
  function Resolved(i: Item, s: Stats, now: int, p: Policy): Item {
    var j := i.(startedAt := OrElse(i.startedAt, i.submittedAt), finishedAt := OrElse(s.end, Some(now)));
    if s.Tells("COMPLETED") then j.(status := Completed)
    else if s.TellsSomething() && s.state.value in p.failures then
      j.(status := Failed, error := Some("Scheduler: " + p.failures[s.state.value]))
    else i
  }

  function WithRow(i: Item, s: Stats, now: int, p: Policy): Item {
    var j := Stamped(i, s, p);
    if s.TellsSomething() && s.state.value in p.failures && j.status == Completed then
      j.(status := Failed, error := Some("Scheduler: " + p.failures[s.state.value]))
    else if j.status == Settling && s.TellsSomething() then Resolved(j, s, now, p)
    else if j.status == Submitted && s.TellsSomething() then Resolved(j, s, now, p)
    else if s.Tells("COMPLETED") && j.status == Failed && j.error == Some(DISAPPEARED) then
      j.(status := Completed, error := None)
    else j
  }

  function Written(i: Item, stats: map<string, Stats>, now: int, p: Policy): Item {
    if i.HasJob() && i.jobId.value in stats then WithRow(i, stats[i.jobId.value], now, p) else i
  }

  /** Known to neither the queue nor accounting, for too long: the scheduler dropped the job. */
  function Dropped(i: Item, live: set<string>, stats: map<string, Stats>, now: int, p: Policy): Item {
    if && i.status == Submitted && i.HasJob()
       && i.jobId.value !in live && i.jobId.value !in stats
       && i.submittedAt.Some? && now - i.submittedAt.value > p.noRecordTimeout
    then i.(startedAt := i.submittedAt, status := Failed, error := Some(NO_RECORD), finishedAt := Some(now))
    else i
  }

  /** Out of the queue and unknown to accounting for too long: completed, but unconfirmed. */
  function Settled(i: Item, stats: map<string, Stats>, now: int, p: Policy): Item {
    if && i.status == Settling && i.HasJob() && i.jobId.value !in stats
       && i.finishedAt.Some? && now - i.finishedAt.value > p.settlingTimeout
    then i.(status := Completed, error := Some(UNCONFIRMED))
    else i
  }

  /** A whole poll, as one item sees it; `later` is the clock while rows are being written. */
  function Polled(i: Item, live: set<string>, stats: map<string, Stats>, now: int, later: int, p: Policy): Item {
    Settled(Dropped(Written(i, stats, later, p), live, stats, now, p), stats, now, p)
  }

  /** What accounting returns for the queried ids; a failed query (None) is an empty answer. */
  function Fetched(queried: set<string>, accounting: Option<map<string, Stats>>): (stats: map<string, Stats>)
    ensures stats.Keys <= queried
  {
    if accounting.None? then map[]
    else map id | id in queried && id in accounting.value :: accounting.value[id]
  }

  // ----- The poll itself -----

  class RunItem {
    const jobId: Option<string>
    const submittedAt: Option<int>
    var status: Status
    var startedAt: Option<int>
    var finishedAt: Option<int>
    var error: Option<string>
    var schedulerState: Option<string>
    var exitCode: Option<int>
    var cpuEfficiency: Option<real>
    var maxRss: Option<string>

    function View(): Item
      reads this
    {
      Item(status, jobId, submittedAt, startedAt, finishedAt, error, schedulerState, exitCode, cpuEfficiency, maxRss)
    }

    constructor (i: Item)
      ensures View() == i
    {
      jobId, submittedAt, status, startedAt, finishedAt := i.jobId, i.submittedAt, i.status, i.startedAt, i.finishedAt;
      error, schedulerState, exitCode := i.error, i.schedulerState, i.exitCode;
      cpuEfficiency, maxRss := i.cpuEfficiency, i.maxRss;
    }

    method Resolve(s: Stats, now: int, p: Policy)
      modifies this
      ensures View() == Resolved(old(View()), s, now, p)
    {
      if s.Tells("COMPLETED") {
        startedAt := OrElse(startedAt, submittedAt);
        status := Completed;
        finishedAt := OrElse(s.end, Some(now));
      } else if s.TellsSomething() && s.state.value in p.failures {
        startedAt := OrElse(startedAt, submittedAt);
        status := Failed;
        error := Some("Scheduler: " + p.failures[s.state.value]);
        finishedAt := OrElse(s.end, Some(now));
      }
    }

    /** The figures of a row, and a terminal state, are recorded. */
    method Stamp(s: Stats, p: Policy)
      modifies this
      ensures View() == Stamped(old(View()), s, p)
    {
      cpuEfficiency := Some(s.cpuEfficiency);
      maxRss := Some(s.maxRss);
      if s.start.Some? {
        startedAt := s.start;
      }
      if s.end.Some? {
        finishedAt := s.end;
      }
      if s.TellsSomething() && s.state.value in p.terminal {
        schedulerState := s.state;
      }
      if s.exitCode.Some? {
        exitCode := s.exitCode;
      }
    }

    /** The body of the write-back loop, for an item whose job has a row. */
    method ApplyRow(s: Stats, now: int, p: Policy)
      modifies this
      ensures View() == WithRow(old(View()), s, now, p)
    {
      Stamp(s, p);
      if s.TellsSomething() && s.state.value in p.failures && status == Completed {
        status := Failed;
        error := Some("Scheduler: " + p.failures[s.state.value]);
      } else if status == Settling && s.TellsSomething() {
        Resolve(s, now, p);
      } else if status == Submitted && s.TellsSomething() {
        Resolve(s, now, p);
      } else if s.Tells("COMPLETED") && status == Failed && error == Some(DISAPPEARED) {
        status := Completed;
        error := None;
      }
    }
  }

  class Run {
    const backend: string
    const items: seq<RunItem>

    constructor (backend: string, items: seq<RunItem>)
      ensures this.backend == backend && this.items == items
    {
      this.backend, this.items := backend, items;
    }
  }

  /** Every item object occurs once, in one run. */
  ghost predicate Separate(runs: seq<Run>) {
    && (forall r :: r in runs ==> forall i, j :: 0 <= i < j < |r.items| ==> r.items[i] != r.items[j])
    && (forall a, b, x :: 0 <= a < b < |runs| && x in runs[a].items ==> x !in runs[b].items)
  }

  function ItemsOf(runs: seq<Run>): set<RunItem> {
    set r, x | r in runs && x in r.items :: x
  }

  /** The job ids of the backend's items that accounting is asked about. */
  function QueryOf(runs: seq<Run>, backend: string, live: set<string>, now: int, p: Policy): set<string>
    reads ItemsOf(runs)
  {
    set r, x | r in runs && r.backend == backend && x in r.items && Queried(x.View(), live, now, p) :: x.jobId.value
  }

  method CollectQueries(runs: seq<Run>, backend: string, live: set<string>, now: int, p: Policy) returns (ids: set<string>)
    ensures ids == QueryOf(runs, backend, live, now, p)
  {
    ids := {};
    for a := 0 to |runs|
      invariant ids == QueryOf(runs[..a], backend, live, now, p)
    {
      assert runs[..a + 1] == runs[..a] + [runs[a]];
      if runs[a].backend != backend {
        continue;
      }
      var items := runs[a].items;
      for k := 0 to |items|
        invariant ids == QueryOf(runs[..a], backend, live, now, p)
                         + set x | x in items[..k] && Queried(x.View(), live, now, p) :: x.jobId.value
      {
        assert items[..k + 1] == items[..k] + [items[k]];
        if Queried(items[k].View(), live, now, p) {
          ids := ids + {items[k].jobId.value};
        }
      }
      assert items[..|items|] == items;
    }
    assert runs[..|runs|] == runs;
  }

  /** The three writing passes over the items of one run. */
  method WriteRows(items: seq<RunItem>, stats: map<string, Stats>, now: int, p: Policy)
    requires forall i, j :: 0 <= i < j < |items| ==> items[i] != items[j]
    modifies items
    ensures forall x :: x in items ==> x.View() == Written(old(x.View()), stats, now, p)
  {
    for k := 0 to |items|
      invariant forall i :: 0 <= i < k ==> items[i].View() == Written(old(items[i].View()), stats, now, p)
      invariant forall i :: k <= i < |items| ==> items[i].View() == old(items[i].View())
    {
      var item := items[k];
      if item.View().HasJob() && item.jobId.value in stats {
        item.ApplyRow(stats[item.jobId.value], now, p);
      }
    }
  }

  method DropUnknown(items: seq<RunItem>, live: set<string>, stats: map<string, Stats>, now: int, p: Policy)
    requires forall i, j :: 0 <= i < j < |items| ==> items[i] != items[j]
    modifies items
    ensures forall x :: x in items ==> x.View() == Dropped(old(x.View()), live, stats, now, p)
  {
    for k := 0 to |items|
      invariant forall i :: 0 <= i < k ==> items[i].View() == Dropped(old(items[i].View()), live, stats, now, p)
      invariant forall i :: k <= i < |items| ==> items[i].View() == old(items[i].View())
    {
      var item := items[k];
      if && item.status == Submitted && item.View().HasJob()
         && item.jobId.value !in live && item.jobId.value !in stats && item.submittedAt.Some?
      {
        var age := now - item.submittedAt.value;
        if age > p.noRecordTimeout {
          item.startedAt := item.submittedAt;
          item.status := Failed;
          item.error := Some(NO_RECORD);
          item.finishedAt := Some(now);
        }
      }
    }
  }

  method SettleUnconfirmed(items: seq<RunItem>, stats: map<string, Stats>, now: int, p: Policy)
    requires forall i, j :: 0 <= i < j < |items| ==> items[i] != items[j]
    modifies items
    ensures forall x :: x in items ==> x.View() == Settled(old(x.View()), stats, now, p)
  {
    for k := 0 to |items|
      invariant forall i :: 0 <= i < k ==> items[i].View() == Settled(old(items[i].View()), stats, now, p)
      invariant forall i :: k <= i < |items| ==> items[i].View() == old(items[i].View())
    {
      var item := items[k];
      if item.status == Settling && item.View().HasJob() && item.jobId.value !in stats && item.finishedAt.Some? {
        var age := now - item.finishedAt.value;
        if age > p.settlingTimeout {
          item.status := Completed;
          item.error := Some(UNCONFIRMED);
        }
      }
    }
  }

  /** The item is one of the backend's. */
  ghost predicate Mine(x: RunItem, runs: seq<Run>, backend: string) {
    exists a :: 0 <= a < |runs| && runs[a].backend == backend && x in runs[a].items
  }

  lemma OnlyRun(x: RunItem, runs: seq<Run>, a: nat, backend: string)
    requires Separate(runs) && a < |runs| && x in runs[a].items
    ensures Mine(x, runs, backend) <==> runs[a].backend == backend
    ensures Mine(x, runs[..a + 1], backend) <==> runs[a].backend == backend
    ensures !Mine(x, runs[..a], backend)
  {
    assert forall b :: 0 <= b < a ==> runs[..a][b] == runs[b];
    assert forall b :: 0 <= b <= a ==> runs[..a + 1][b] == runs[b];
  }

  lemma MineSoFar(x: RunItem, runs: seq<Run>, a: nat, backend: string)
    requires Separate(runs) && a < |runs| && x !in runs[a].items
    ensures Mine(x, runs[..a + 1], backend) <==> Mine(x, runs[..a], backend)
  {
    assert forall b :: 0 <= b < a ==> runs[..a + 1][b] == runs[..a][b];
  }

  lemma MineAfter(x: RunItem, runs: seq<Run>, a: nat, backend: string)
    requires Separate(runs) && a < |runs|
    ensures Mine(x, runs[..a + 1], backend) <==>
              Mine(x, runs[..a], backend) || (x in runs[a].items && runs[a].backend == backend)
    ensures x in runs[a].items ==> !Mine(x, runs[..a], backend)
  {
    if x in runs[a].items {
      OnlyRun(x, runs, a, backend);
    } else {
      MineSoFar(x, runs, a, backend);
    }
  }

  /** Accounting's rows are written back to the backend's items. */
  method WriteAll(runs: seq<Run>, backend: string, stats: map<string, Stats>, now: int, p: Policy)
    requires Separate(runs)
    modifies ItemsOf(runs)
    ensures forall x :: x in ItemsOf(runs) ==>
              x.View() == if Mine(x, runs, backend) then Written(old(x.View()), stats, now, p) else old(x.View())
  {
    for a := 0 to |runs|
      invariant forall x :: x in ItemsOf(runs) ==>
                  x.View() == if Mine(x, runs[..a], backend) then Written(old(x.View()), stats, now, p) else old(x.View())
    {
      forall x | x in ItemsOf(runs) { MineAfter(x, runs, a, backend); }
      if runs[a].backend == backend {
        assert runs[a] in runs;
        assert forall x :: x in runs[a].items ==> x in ItemsOf(runs);
        WriteRows(runs[a].items, stats, now, p);
      }
    }
    assert runs[..|runs|] == runs;
  }

  /** Items with no record anywhere time out. */
  method DropAll(runs: seq<Run>, backend: string, live: set<string>, stats: map<string, Stats>, now: int, p: Policy)
    requires Separate(runs)
    modifies ItemsOf(runs)
    ensures forall x :: x in ItemsOf(runs) ==>
              x.View() == if Mine(x, runs, backend) then Dropped(old(x.View()), live, stats, now, p) else old(x.View())
  {
    for a := 0 to |runs|
      invariant forall x :: x in ItemsOf(runs) ==>
                  x.View() == if Mine(x, runs[..a], backend) then Dropped(old(x.View()), live, stats, now, p) else old(x.View())
    {
      forall x | x in ItemsOf(runs) { MineAfter(x, runs, a, backend); }
      if runs[a].backend == backend {
        assert runs[a] in runs;
        assert forall x :: x in runs[a].items ==> x in ItemsOf(runs);
        DropUnknown(runs[a].items, live, stats, now, p);
      }
    }
    assert runs[..|runs|] == runs;
  }

  /** Items that accounting never confirmed are settled. */
  method SettleAll(runs: seq<Run>, backend: string, stats: map<string, Stats>, now: int, p: Policy)
    requires Separate(runs)
    modifies ItemsOf(runs)
    ensures forall x :: x in ItemsOf(runs) ==>
              x.View() == if Mine(x, runs, backend) then Settled(old(x.View()), stats, now, p) else old(x.View())
  {
    for a := 0 to |runs|
      invariant forall x :: x in ItemsOf(runs) ==>
                  x.View() == if Mine(x, runs[..a], backend) then Settled(old(x.View()), stats, now, p) else old(x.View())
    {
      forall x | x in ItemsOf(runs) { MineAfter(x, runs, a, backend); }
      if runs[a].backend == backend {
        assert runs[a] in runs;
        assert forall x :: x in runs[a].items ==> x in ItemsOf(runs);
        SettleUnconfirmed(runs[a].items, stats, now, p);
      }
    }
    assert runs[..|runs|] == runs;
  }

  /** `poll_backend`, from the collection of accounting ids to the settling fallback. */
  method PollBackend(
    runs: seq<Run>, backend: string, live: set<string>, now: int, later: int,
    accounting: Option<map<string, Stats>>, p: Policy)
    requires Separate(runs)
    modifies ItemsOf(runs)
    ensures var stats := Fetched(old(QueryOf(runs, backend, live, now, p)), accounting);
            forall x :: x in ItemsOf(runs) ==>
              x.View() == if Mine(x, runs, backend) then Polled(old(x.View()), live, stats, now, later, p) else old(x.View())
  {
    var queried := CollectQueries(runs, backend, live, now, p);
    var stats := Fetched(queried, accounting);
    PollAll(runs, backend, live, stats, now, later, p);
  }

  /** The three writing passes over all runs. */
  method PollAll(
    runs: seq<Run>, backend: string, live: set<string>, stats: map<string, Stats>, now: int, later: int, p: Policy)
    requires Separate(runs)
    modifies ItemsOf(runs)
    ensures forall x :: x in ItemsOf(runs) ==>
              x.View() == if Mine(x, runs, backend) then Polled(old(x.View()), live, stats, now, later, p) else old(x.View())
  {
    WriteAll(runs, backend, stats, later, p);
    label AfterWriting:
    DropAll(runs, backend, live, stats, now, p);
    label AfterDropping:
    SettleAll(runs, backend, stats, now, p);
    forall x | x in ItemsOf(runs)
      ensures x.View() == if Mine(x, runs, backend) then Polled(old(x.View()), live, stats, now, later, p) else old(x.View())
    {
      var before, written := old(x.View()), old@AfterWriting(x.View());
      assert written == if Mine(x, runs, backend) then Written(before, stats, later, p) else before;
      var dropped := old@AfterDropping(x.View());
      assert dropped == if Mine(x, runs, backend) then Dropped(written, live, stats, now, p) else written;
    }
  }
}
