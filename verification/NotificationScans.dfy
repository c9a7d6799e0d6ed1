/** What one operation of the hub adds to the log, completely: every failure that a scan finds is seen,
    every end of a run is announced, and every status is recorded. */
module NotificationScans {
  import opened Wrappers
  import opened Lists
  import opened Runs
  import opened Notifications
  import opened NotificationHistory

  /** The events from h to g. */
  predicate Grows(h: Hub, g: Hub) {
    h.log <= g.log
  }

  function Added(h: Hub, g: Hub): seq<Event>
    requires Grows(h, g)
  {
    g.log[|h.log|..]
  }

  lemma AddedChains(h: Hub, g: Hub, k: Hub)
    requires Grows(h, g) && Grows(g, k)
    ensures Grows(h, k) && Added(h, k) == Added(h, g) + Added(g, k)
  {
  }

  // ----- Tasks -----

  ghost predicate HasFailed(tasks: seq<Task>, task: string) {
    exists k :: 0 <= k < |tasks| && tasks[k].failed && tasks[k].id == task
  }

  lemma HasFailedSnoc(tasks: seq<Task>, task: string)
    requires tasks != []
    ensures HasFailed(tasks, task) <==> HasFailed(tasks[..|tasks| - 1], task) || (Last(tasks).failed && Last(tasks).id == task)
  {
    var init := tasks[..|tasks| - 1];
    assert forall k :: 0 <= k < |init| ==> init[k] == tasks[k];
    assert tasks[|init|] == Last(tasks);
  }

  /** Scanning the tasks of a run adds just a sighting of each failed one, some of them announced. */
  ghost predicate SightingsOf(events: seq<Event>, run: string, tasks: seq<Task>) {
    && (forall i :: 0 <= i < |events| ==> events[i].Seen? || events[i].Announced?)
    && (forall i :: 0 <= i < |events| && events[i].Seen? ==> events[i].run == run)
    && (forall task :: Seen(run, task) in events <==> HasFailed(tasks, task))
  }

  lemma {:induction false} TasksAreSeen(h: Hub, run: string, tasks: seq<Task>, step: (Hub, Task) -> Hub)
    requires forall g: Hub, t: Task :: step(g, t) == ScanTask(g, run, t)
    ensures var g := Fold(h, tasks, step);
            g.status == h.status && Grows(h, g) && SightingsOf(Added(h, g), run, tasks)
  {
    if tasks != [] {
      var init, t := tasks[..|tasks| - 1], Last(tasks);
      TasksAreSeen(h, run, init, step);
      var before := Fold(h, init, step);
      var after := ScanTask(before, run, t);
      assert Fold(h, tasks, step) == after;
      AddedChains(h, before, after);
      SightingsGrow(Added(h, before), Added(before, after), run, tasks);
    }
  }

  lemma SightingsGrow(before: seq<Event>, more: seq<Event>, run: string, tasks: seq<Task>)
    requires tasks != [] && SightingsOf(before, run, tasks[..|tasks| - 1])
    requires more == [] || more == [Seen(run, Last(tasks).id)] || more == [Seen(run, Last(tasks).id), Announced(run, Last(tasks).id)]
    requires more == [] <==> !Last(tasks).failed
    ensures SightingsOf(before + more, run, tasks)
  {
    forall task
      ensures Seen(run, task) in before + more <==> HasFailed(tasks, task)
    {
      HasFailedSnoc(tasks, task);
      assert Seen(run, task) in more <==> Last(tasks).failed && Last(tasks).id == task;
    }
  }

  // ----- The end of a run -----

  /** A run that was pending or running when last heard of is found to have ended. */
  predicate EndsNow(before: seq<Event>, r: Run) {
    && (LastStatus(before, r.id) == Some(Pending) || LastStatus(before, r.id) == Some(RunStatus.Running))
    && (r.status == Completed || r.status == RunStatus.Failed || r.status == Cancelled)
  }

  /** The scan of one run announces its end if and only if it ends now: one notice, last, and right after
      the record of the status; and a status is recorded if it is news. */
  ghost predicate EndsWell(before: seq<Event>, events: seq<Event>, r: Run) {
    && (EndsNow(before, r) <==> Done(r.id) in events)
    && (EndsNow(before, r) ==>
          |events| >= 2 && events[|events| - 2] == Recorded(r.id, r.status) && events[|events| - 1] == Done(r.id))
    && (forall i :: 0 <= i < |events| && events[i].Done? ==> i == |events| - 1 && events[i].run == r.id)
    && (LastStatus(before, r.id) != Some(r.status) <==> Recorded(r.id, r.status) in events)
  }

  ghost predicate StatusKnown(h: Hub) {
    forall run :: LastStatus(h.log, run) == if run in h.status then Some(h.status[run]) else None
  }

  function OnRecord(h: Hub, id: string): Option<RunStatus> {
    if id in h.status then Some(h.status[id]) else None
  }

  lemma RunIsScanned(h: Hub, r: Run)
    requires StatusKnown(h)
    ensures var g := ScanRun(h, r);
            && Grows(h, g) && EndsWell(h.log, Added(h, g), r) && SeenIn(Added(h, g), r)
            && r.id in g.status && g.status == h.status[r.id := r.status]
  {
    var step := (g: Hub, t: Task) => ScanTask(g, r.id, t);
    var seen := Fold(h, r.tasks, step);
    TasksAreSeen(h, r.id, r.tasks, step);
    var g := ScanStatus(seen, r.id, r.status);
    StatusAdds(seen, r);
    AddedChains(h, seen, g);
    assert g == ScanRun(h, r);
    assert LastStatus(h.log, r.id) == OnRecord(h, r.id) == OnRecord(seen, r.id);
    SightingsAndEnd(h.log, Added(h, seen), Added(seen, g), r);
  }

  /** The sightings of a scanned run followed by what its status adds. */
  lemma SightingsAndEnd(before: seq<Event>, sightings: seq<Event>, end: seq<Event>, r: Run)
    requires SightingsOf(sightings, r.id, r.tasks)
    requires end == if LastStatus(before, r.id) == Some(r.status) then []
                    else if EndsNow(before, r) then [Recorded(r.id, r.status), Done(r.id)]
                    else [Recorded(r.id, r.status)]
    ensures EndsWell(before, sightings + end, r) && SeenIn(sightings + end, r)
  {
    var events := sightings + end;
    assert forall e :: e in events <==> e in sightings || e in end;
    assert forall e :: e in sightings ==> e.Seen? || e.Announced?;
    forall run, task
      ensures Seen(run, task) in events <==> run == r.id && HasFailed(r.tasks, task)
    {
      assert Seen(run, task) in events <==> Seen(run, task) in sightings;
    }
    if EndsNow(before, r) {
      assert events[|events| - 2] == end[0] && events[|events| - 1] == end[1];
      assert end[1] in events && end[0] in events;
    } else if LastStatus(before, r.id) != Some(r.status) {
      assert end[0] in events;
    }
  }

  /** What the status adds: nothing, its record, or its record and the notice. */
  lemma StatusAdds(h: Hub, r: Run)
    ensures var g := ScanStatus(h, r.id, r.status);
            && Grows(h, g) && g.status == h.status[r.id := r.status]
            && Added(h, g) ==
                 if r.id in h.status && h.status[r.id] == r.status then []
                 else if && r.id in h.status && (h.status[r.id] == Pending || h.status[r.id] == RunStatus.Running)
                         && (r.status == Completed || r.status == RunStatus.Failed || r.status == Cancelled)
                 then [Recorded(r.id, r.status), Done(r.id)]
                 else [Recorded(r.id, r.status)]
  {
  }

  /** All sightings are of the run, and each failed task is among them. */
  ghost predicate SeenIn(events: seq<Event>, r: Run) {
    && (forall i :: 0 <= i < |events| ==> !events[i].Scheduled? && !events[i].Primed? && !events[i].Stats?)
    && (forall run, task :: Seen(run, task) in events <==> run == r.id && HasFailed(r.tasks, task))
  }

  // ----- Scans -----

  lemma StatusKnownIfInv(h: Hub)
    requires StatusInv(h)
    ensures StatusKnown(h)
  {
  }

  lemma StatusInvAlways(ops: seq<Op>)
    ensures StatusInv(After(ops))
  {
    forall h: Hub, n | 0 <= n < |ops| && StatusInv(h)
      ensures StatusInv(Apply(h, ops[n]))
    {
      ApplyStep(h, ops[n]);
    }
    FoldKeeps(NEW_HUB, ops, Apply, StatusInv);
  }

  /** The hub after the first n operations and the first i runs of the scan that comes next. */
  function Amid(ops: seq<Op>, n: nat, i: nat): Hub
    requires n < |ops| && ops[n].ScanOp? && i <= |ops[n].runs|
  {
    Fold(After(ops[..n]), ops[n].runs[..i], ScanRun)
  }

  lemma {:induction false} AmidKeepsInv(ops: seq<Op>, n: nat, i: nat)
    requires n < |ops| && ops[n].ScanOp? && i <= |ops[n].runs|
    ensures StatusInv(Amid(ops, n, i))
  {
    StatusInvAlways(ops[..n]);
    var runs := ops[n].runs[..i];
    forall h: Hub, j | 0 <= j < |runs| && StatusInv(h)
      ensures StatusInv(ScanRun(h, runs[j]))
    {
      ScanRunStep(h, runs[j]);
    }
    FoldKeeps(After(ops[..n]), runs, ScanRun, StatusInv);
  }

  lemma {:induction false} FoldGrows<X>(h: Hub, xs: seq<X>, step: (Hub, X) -> Hub)
    requires forall g, x :: Grows(g, step(g, x))
    ensures Grows(h, Fold(h, xs, step))
  {
    if xs != [] {
      FoldGrows(h, xs[..|xs| - 1], step);
      AddedChains(h, Fold(h, xs[..|xs| - 1], step), Fold(h, xs, step));
    }
  }

  lemma ScanRunGrows(h: Hub, r: Run)
    ensures Grows(h, ScanRun(h, r))
  {
    var step := (g: Hub, t: Task) => ScanTask(g, r.id, t);
    TasksAreSeen(h, r.id, r.tasks, step);
    StatusAdds(Fold(h, r.tasks, step), r);
    AddedChains(h, Fold(h, r.tasks, step), ScanRun(h, r));
  }

  lemma PrimeRunGrows(h: Hub, r: Run)
    ensures Grows(h, PrimeRun(h, r))
  {
    var recorded := Record(h, r.id, r.status);
    FoldGrows(recorded, r.tasks, (g: Hub, t: Task) => PrimeTask(g, r.id, t));
    AddedChains(h, recorded, PrimeRun(h, r));
  }

  lemma ApplyGrows(h: Hub, op: Op)
    ensures Grows(h, Apply(h, op))
  {
    match op
    case ScheduleOp(r) =>
    case StatsOp =>
    case PrimeOp(runs) =>
      forall g, r { PrimeRunGrows(g, r); }
      FoldGrows(h, runs, PrimeRun);
      AddedChains(h, Fold(h, runs, PrimeRun), Prime(h, runs));
    case ScanOp(runs) =>
      forall g, r { ScanRunGrows(g, r); }
      FoldGrows(h, runs, ScanRun);
  }

  /** What happened stays in the log. */
  lemma AmidIsInTheLog(ops: seq<Op>, n: nat, i: nat)
    requires n < |ops| && ops[n].ScanOp? && i <= |ops[n].runs|
    ensures Grows(Amid(ops, n, i), After(ops))
  {
    var runs := ops[n].runs;
    var later := ops[n + 1..];
    assert runs == runs[..i] + runs[i..] && ops == ops[..n] + [ops[n]] + later;
    FoldConcat(After(ops[..n]), runs[..i], runs[i..], ScanRun);
    forall g, r { ScanRunGrows(g, r); }
    FoldGrows(Amid(ops, n, i), runs[i..], ScanRun);
    FoldConcat(NEW_HUB, ops[..n], [ops[n]], Apply);
    FoldOne(After(ops[..n]), ops[n], Apply);
    FoldConcat(NEW_HUB, ops[..n] + [ops[n]], later, Apply);
    forall g, op { ApplyGrows(g, op); }
    var scanned := Apply(After(ops[..n]), ops[n]);
    FoldGrows(scanned, later, Apply);
    AddedChains(Amid(ops, n, i), scanned, After(ops));
  }

  /** Over every history: the scan of a run announces its end if and only if the status last recorded was
      pending or running and the one found is completed, failed or cancelled; then exactly once, right
      after the record of that status. The notice stays in the log. */
  lemma EndIsAnnouncedExactly(ops: seq<Op>, n: nat, i: nat)
    requires n < |ops| && ops[n].ScanOp? && i < |ops[n].runs|
    ensures var before, after := Amid(ops, n, i), Amid(ops, n, i + 1);
            && Grows(before, after) && Grows(after, After(ops))
            && EndsWell(before.log, Added(before, after), ops[n].runs[i])
  {
    var before, r := Amid(ops, n, i), ops[n].runs[i];
    AmidKeepsInv(ops, n, i);
    StatusKnownIfInv(before);
    RunIsScanned(before, r);
    assert ops[n].runs[..i + 1][..i] == ops[n].runs[..i];
    assert Amid(ops, n, i + 1) == ScanRun(before, r);
    AmidIsInTheLog(ops, n, i + 1);
  }

  // ----- Failures that are found -----

  /** Events other than a new scheduling keep the first contact, and the first sighting makes it one by
      sight, the first priming one by priming. */
  lemma {:induction false} ContactOver(log: seq<Event>, events: seq<Event>, run: string, task: string, contact: Contact)
    requires Scheduled(run) !in events
    requires (if contact == BySight then Primed(run, task) else Seen(run, task)) !in events
    ensures var sign := if contact == BySight then Seen(run, task) else Primed(run, task);
            FirstContact(log + events, run, task) ==
              if FirstContact(log, run, task).Some? then FirstContact(log, run, task)
              else if sign in events then Some(contact)
              else None
  {
    if events == [] {
      assert log + events == log;
    } else {
      var init, e := events[..|events| - 1], Last(events);
      assert events == init + [e];
      assert log + events == (log + init) + [e];
      Appended(log + init, e);
      ContactOver(log, init, run, task, contact);
      assert e in events;
    }
  }

  ghost predicate FailedIn(runs: seq<Run>, run: string, task: string) {
    exists i :: 0 <= i < |runs| && runs[i].id == run && HasFailed(runs[i].tasks, task)
  }

  lemma FailedInSnoc(runs: seq<Run>, run: string, task: string)
    requires runs != []
    ensures FailedIn(runs, run, task) <==>
              FailedIn(runs[..|runs| - 1], run, task) || (Last(runs).id == run && HasFailed(Last(runs).tasks, task))
  {
    var init := runs[..|runs| - 1];
    assert forall k :: 0 <= k < |init| ==> init[k] == runs[k];
    assert runs[|init|] == Last(runs);
  }

  ghost predicate SeesFailures(events: seq<Event>, runs: seq<Run>) {
    && (forall i :: 0 <= i < |events| ==> !events[i].Scheduled? && !events[i].Primed? && !events[i].Stats?)
    && (forall run, task :: Seen(run, task) in events <==> FailedIn(runs, run, task))
  }

  lemma {:induction false} RunsAreSeen(h: Hub, runs: seq<Run>)
    requires StatusInv(h)
    ensures var g := Scan(h, runs);
            StatusInv(g) && Grows(h, g) && SeesFailures(Added(h, g), runs)
  {
    if runs != [] {
      var init, r := runs[..|runs| - 1], Last(runs);
      RunsAreSeen(h, init);
      var before, after := Scan(h, init), Scan(h, runs);
      assert after == ScanRun(before, r);
      StatusKnownIfInv(before);
      RunIsScanned(before, r);
      ScanRunStep(before, r);
      AddedChains(h, before, after);
      forall run, task
        ensures Seen(run, task) in Added(h, after) <==> FailedIn(runs, run, task)
      {
        FailedInSnoc(runs, run, task);
      }
    }
  }

  lemma LastOp(ops: seq<Op>)
    requires ops != []
    ensures After(ops) == Apply(After(ops[..|ops| - 1]), Last(ops))
  {
  }

  /** Over every history: after a scan each failure that it found is known, and a failure that was not
      known before is then known by sight, which is what announces it, just if the scan found it. */
  lemma FoundFailuresAreKnown(ops: seq<Op>, runs: seq<Run>, run: string, task: string)
    ensures var before, after := After(ops).log, After(ops + [ScanOp(runs)]).log;
            FirstContact(after, run, task) ==
              if FirstContact(before, run, task).Some? then FirstContact(before, run, task)
              else if FailedIn(runs, run, task) then Some(BySight)
              else None
  {
    var longer := ops + [ScanOp(runs)];
    assert longer[..|longer| - 1] == ops;
    LastOp(longer);
    StatusInvAlways(ops);
    RunsAreSeen(After(ops), runs);
    var events := Added(After(ops), After(longer));
    assert After(longer).log == After(ops).log + events;
    ContactOver(After(ops).log, events, run, task, BySight);
  }

  // ----- Priming -----

  ghost predicate PrimesFailures(events: seq<Event>, runs: seq<Run>) {
    && (forall i :: 0 <= i < |events| ==> events[i].Primed? || events[i].Recorded?)
    && (forall run, task :: Primed(run, task) in events <==> FailedIn(runs, run, task))
  }

  lemma {:induction false} TasksArePrimed(h: Hub, run: string, tasks: seq<Task>, step: (Hub, Task) -> Hub)
    requires forall g: Hub, t: Task :: step(g, t) == PrimeTask(g, run, t)
    ensures var g := Fold(h, tasks, step);
            && g.status == h.status && Grows(h, g)
            && (forall i :: 0 <= i < |Added(h, g)| ==> Added(h, g)[i].Primed? && Added(h, g)[i].run == run)
            && (forall task :: Primed(run, task) in Added(h, g) <==> HasFailed(tasks, task))
  {
    if tasks != [] {
      var init, t := tasks[..|tasks| - 1], Last(tasks);
      TasksArePrimed(h, run, init, step);
      var before := Fold(h, init, step);
      var after := PrimeTask(before, run, t);
      assert Fold(h, tasks, step) == after;
      AddedChains(h, before, after);
      forall task
        ensures Primed(run, task) in Added(h, after) <==> HasFailed(tasks, task)
      {
        HasFailedSnoc(tasks, task);
      }
    }
  }

  lemma RunIsPrimed(h: Hub, r: Run)
    ensures var g := PrimeRun(h, r);
            && Grows(h, g) && g.status == h.status[r.id := r.status] && PrimesFailures(Added(h, g), [r])
  {
    var recorded := Record(h, r.id, r.status);
    var step := (g: Hub, t: Task) => PrimeTask(g, r.id, t);
    var g := Fold(recorded, r.tasks, step);
    TasksArePrimed(recorded, r.id, r.tasks, step);
    AddedChains(h, recorded, g);
    assert Added(h, recorded) == [Recorded(r.id, r.status)];
    forall run, task
      ensures Primed(run, task) in Added(h, g) <==> FailedIn([r], run, task)
    {
      assert FailedIn([r], run, task) <==> r.id == run && HasFailed(r.tasks, task) by {
        assert [r][0] == r;
      }
    }
  }

  lemma {:induction false} RunsArePrimed(h: Hub, runs: seq<Run>)
    ensures var g := Fold(h, runs, PrimeRun);
            Grows(h, g) && PrimesFailures(Added(h, g), runs)
  {
    if runs != [] {
      var init, r := runs[..|runs| - 1], Last(runs);
      RunsArePrimed(h, init);
      var before, after := Fold(h, init, PrimeRun), Fold(h, runs, PrimeRun);
      assert after == PrimeRun(before, r);
      RunIsPrimed(before, r);
      AddedChains(h, before, after);
      forall run, task
        ensures Primed(run, task) in Added(h, after) <==> FailedIn(runs, run, task)
      {
        FailedInSnoc(runs, run, task);
        assert FailedIn([r], run, task) <==> r.id == run && HasFailed(r.tasks, task) by {
          assert [r][0] == r;
        }
      }
    }
  }

  lemma PrimeAdds(h: Hub, runs: seq<Run>)
    ensures Grows(h, Prime(h, runs))
    ensures var events := Added(h, Prime(h, runs));
            && (forall i :: 0 <= i < |events| ==> !events[i].Scheduled? && !events[i].Seen?)
            && (forall run, task :: Primed(run, task) in events <==> FailedIn(runs, run, task))
  {
    RunsArePrimed(h, runs);
    var primed := Fold(h, runs, PrimeRun);
    AddedChains(h, primed, Prime(h, runs));
    assert Added(primed, Prime(h, runs)) == [Stats];
  }

  /** After priming, each failure of its runs is known, and those that were not known before are known by
      priming, which is what keeps them from being announced. */
  lemma PrimedFailuresAreKnown(ops: seq<Op>, runs: seq<Run>, run: string, task: string)
    ensures var before, after := After(ops).log, After(ops + [PrimeOp(runs)]).log;
            FirstContact(after, run, task) ==
              if FirstContact(before, run, task).Some? then FirstContact(before, run, task)
              else if FailedIn(runs, run, task) then Some(ByPriming)
              else None
  {
    var longer, h := ops + [PrimeOp(runs)], After(ops);
    assert longer[..|longer| - 1] == ops;
    LastOp(longer);
    PrimeAdds(h, runs);
    var events := Added(h, Prime(h, runs));
    assert After(longer) == Prime(h, runs) && Prime(h, runs).log == h.log + events;
    ContactOver(h.log, events, run, task, ByPriming);
  }

  // ----- Statuses that are recorded -----

  /** The status a list of runs gives an id, the last one counting, or the one it had before. */
  function StatusAfter(before: Option<RunStatus>, runs: seq<Run>, id: string): Option<RunStatus> {
    if runs == [] then before
    else if Last(runs).id == id then Some(Last(runs).status)
    else StatusAfter(before, runs[..|runs| - 1], id)
  }

  lemma {:induction false} ScanRecords(h: Hub, runs: seq<Run>, id: string)
    requires StatusInv(h)
    ensures StatusInv(Scan(h, runs)) && OnRecord(Scan(h, runs), id) == StatusAfter(OnRecord(h, id), runs, id)
  {
    if runs != [] {
      var init, r := runs[..|runs| - 1], Last(runs);
      ScanRecords(h, init, id);
      var before := Scan(h, init);
      assert Scan(h, runs) == ScanRun(before, r);
      StatusKnownIfInv(before);
      RunIsScanned(before, r);
      ScanRunStep(before, r);
    }
  }

  lemma {:induction false} PrimeRecords(h: Hub, runs: seq<Run>, id: string)
    ensures OnRecord(Fold(h, runs, PrimeRun), id) == StatusAfter(OnRecord(h, id), runs, id)
  {
    if runs != [] {
      var init, r := runs[..|runs| - 1], Last(runs);
      PrimeRecords(h, init, id);
      RunIsPrimed(Fold(h, init, PrimeRun), r);
    }
  }

  /** The runs an operation reports on. */
  function RunsIn(op: Op): seq<Run> {
    match op
    case PrimeOp(runs) => runs
    case ScheduleOp(run) => [run]
    case ScanOp(runs) => runs
    case StatsOp => []
  }

  lemma ApplyRecords(h: Hub, op: Op, id: string)
    requires StatusInv(h)
    ensures OnRecord(Apply(h, op), id) == StatusAfter(OnRecord(h, id), RunsIn(op), id)
  {
    match op
    case PrimeOp(runs) => PrimeRecords(h, runs, id);
    case ScanOp(runs) => ScanRecords(h, runs, id);
    case ScheduleOp(run) => assert [run][..0] == [];
    case StatsOp =>
  }

  lemma OnRecordIsLogged(h: Hub, id: string)
    requires StatusInv(h)
    ensures OnRecord(h, id) == LastStatus(h.log, id)
  {
  }

  /** Over every history: the status on record for an id is the one last reported, by priming, scheduling
      or scanning, and no operation touches another. */
  lemma LastReportIsOnRecord(ops: seq<Op>, op: Op, id: string)
    ensures LastStatus(After(ops + [op]).log, id) == StatusAfter(LastStatus(After(ops).log, id), RunsIn(op), id)
  {
    var longer := ops + [op];
    assert longer[..|longer| - 1] == ops;
    LastOp(longer);
    StatusInvAlways(ops);
    StatusInvAlways(longer);
    OnRecordIsLogged(After(ops), id);
    OnRecordIsLogged(After(longer), id);
    ApplyRecords(After(ops), op, id);
  }
}
