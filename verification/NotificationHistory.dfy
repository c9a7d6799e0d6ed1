/** Announcements over every history of priming, scheduling and scanning. */
module NotificationHistory {
  import opened Wrappers
  import opened Lists
  import opened Runs
  import opened Notifications

  datatype Op = PrimeOp(runs: seq<Run>) | ScheduleOp(run: Run) | ScanOp(runs: seq<Run>) | StatsOp

  function Apply(h: Hub, op: Op): Hub {
    match op
    case PrimeOp(runs) => Prime(h, runs)
    case ScheduleOp(run) => Schedule(h, run)
    case ScanOp(runs) => Scan(h, runs)
    case StatsOp => UpdateStats(h)
  }

  function After(ops: seq<Op>): Hub {
    Fold(NEW_HUB, ops, Apply)
  }

  // ----- Ids -----

  /** One id followed by a colon starts the other: some key of the one can be a key of the other. */
  predicate Clash(a: string, b: string) {
    a + ":" <= b || b + ":" <= a
  }

  predicate Unambiguous(ids: set<string>) {
    forall a, b :: a in ids && b in ids ==> !Clash(a, b)
  }

  predicate RunsOver(runs: seq<Run>, ids: set<string>) {
    forall i :: 0 <= i < |runs| ==> runs[i].id in ids
  }

  predicate OpOver(op: Op, ids: set<string>) {
    match op
    case PrimeOp(runs) => RunsOver(runs, ids)
    case ScheduleOp(run) => run.id in ids
    case ScanOp(runs) => RunsOver(runs, ids)
    case StatsOp => true
  }

  /** Every run of the history has its id among the given ones. */
  predicate OpsOver(ops: seq<Op>, ids: set<string>) {
    forall i :: 0 <= i < |ops| ==> OpOver(ops[i], ids)
  }

  /** Generated ids, eight hex digits or a year and week, hold no colon; such ids never clash. */
  lemma ColonFreeIdsAreUnambiguous(ids: set<string>)
    requires forall id :: id in ids ==> ':' !in id
    ensures Unambiguous(ids)
  {
    forall a, b | a in ids && b in ids
      ensures !(a + ":" <= b)
    {
      assert (a + ":")[|a|] == ':';
    }
  }

  // ----- Reading the log -----

  /** How a failure first came up since the run was last scheduled. */
  datatype Contact = BySight | ByPriming

  function FirstContact(log: seq<Event>, run: string, task: string): Option<Contact> {
    if log == [] then None
    else
      var before := FirstContact(log[..|log| - 1], run, task);
      var e := Last(log);
      if e == Scheduled(run) then None
      else if before.Some? then before
      else if e == Seen(run, task) then Some(BySight)
      else if e == Primed(run, task) then Some(ByPriming)
      else None
  }

  /** How often the failure was announced since the run was last scheduled. */
  function Announcements(log: seq<Event>, run: string, task: string): nat {
    if log == [] then 0
    else
      var before := Announcements(log[..|log| - 1], run, task);
      if Last(log) == Scheduled(run) then 0
      else if Last(log) == Announced(run, task) then before + 1
      else before
  }

  /** The status last recorded for a run. */
  function LastStatus(log: seq<Event>, run: string): Option<RunStatus> {
    if log == [] then None
    else if Last(log).Recorded? && Last(log).run == run then Some(Last(log).status)
    else LastStatus(log[..|log| - 1], run)
  }

  /** Nothing is announced twice in an incarnation. */
  ghost predicate NeverRepeated(log: seq<Event>, run: string, task: string) {
    forall i :: 0 <= i < |log| && log[i] == Announced(run, task) ==> Announcements(log[..i], run, task) == 0
  }

  // ----- Failure notices -----

  /** The set of keys mirrors the log, and the log announces what was first seen, once. */
  ghost predicate KeyInv(h: Hub, run: string, task: string) {
    && (Key(run, task) in h.notified <==> FirstContact(h.log, run, task).Some?)
    && Announcements(h.log, run, task) == (if FirstContact(h.log, run, task) == Some(BySight) then 1 else 0)
    && NeverRepeated(h.log, run, task)
  }

  lemma KeysAreDistinct(r: string, t: string, run: string, task: string)
    requires !Clash(r, run)
    ensures Key(r, t) == Key(run, task) <==> r == run && t == task
    ensures r + ":" <= Key(run, task) <==> r == run
  {
    var k := Key(run, task);
    if r + ":" <= k {
      StartsAlike(r, run, task);
    }
    if Key(r, t) == k {
      assert r + ":" <= k;
      assert t == Key(r, t)[|r| + 1..] == k[|run| + 1..] == task;
    }
  }

  lemma StartsAlike(r: string, run: string, task: string)
    requires r + ":" <= Key(run, task)
    ensures r == run || Clash(r, run)
  {
    var k := Key(run, task);
    assert r + ":" == k[..|r| + 1] && run + ":" == k[..|run| + 1];
    assert |r| < |run| ==> run[..|r| + 1] == k[..|r| + 1];
    assert |run| < |r| ==> r[..|run| + 1] == k[..|run| + 1];
    assert r == k[..|r|] && run == k[..|run|];
  }

  lemma Appended(log: seq<Event>, e: Event)
    ensures (log + [e])[..|log + [e]| - 1] == log && Last(log + [e]) == e
  {
  }

  /** Events that do not concern the failure change nothing. */
  lemma Unconcerned(h: Hub, g: Hub, e: Event, run: string, task: string)
    requires KeyInv(h, run, task)
    requires g.log == h.log + [e]
    requires Key(run, task) in g.notified <==> Key(run, task) in h.notified
    requires e != Scheduled(run) && e != Announced(run, task)
    requires e == Seen(run, task) || e == Primed(run, task) ==> Key(run, task) in h.notified
    ensures KeyInv(g, run, task)
  {
    Appended(h.log, e);
    RepeatedStep(h.log, e, run, task);
  }

  lemma RepeatedStep(log: seq<Event>, e: Event, run: string, task: string)
    requires NeverRepeated(log, run, task)
    requires e == Announced(run, task) ==> Announcements(log, run, task) == 0
    ensures NeverRepeated(log + [e], run, task)
  {
    forall i | 0 <= i < |log + [e]| && (log + [e])[i] == Announced(run, task)
      ensures Announcements((log + [e])[..i], run, task) == 0
    {
      assert (log + [e])[..i] == if i < |log| then log[..i] else log;
    }
  }

  lemma RecordKeeps(h: Hub, r: string, status: RunStatus, run: string, task: string)
    requires KeyInv(h, run, task)
    ensures KeyInv(Record(h, r, status), run, task)
  {
    Unconcerned(h, Record(h, r, status), Recorded(r, status), run, task);
  }

  lemma PrimeTaskKeeps(h: Hub, r: string, t: Task, run: string, task: string)
    requires !Clash(r, run)
    requires KeyInv(h, run, task)
    ensures KeyInv(PrimeTask(h, r, t), run, task)
  {
    if t.failed {
      KeysAreDistinct(r, t.id, run, task);
      var g := PrimeTask(h, r, t);
      if r == run && t.id == task {
        Appended(h.log, Primed(run, task));
        RepeatedStep(h.log, Primed(run, task), run, task);
      } else {
        Unconcerned(h, g, Primed(r, t.id), run, task);
      }
    }
  }

  lemma ScanTaskKeeps(h: Hub, r: string, t: Task, run: string, task: string)
    requires !Clash(r, run)
    requires KeyInv(h, run, task)
    ensures KeyInv(ScanTask(h, r, t), run, task)
  {
    if t.failed {
      KeysAreDistinct(r, t.id, run, task);
      var seen := h.(log := h.log + [Seen(r, t.id)]);
      var g := ScanTask(h, r, t);
      if Key(r, t.id) in h.notified {
        Unconcerned(h, g, Seen(r, t.id), run, task);
      } else {
        assert g.log == seen.log + [Announced(r, t.id)];
        if r == run && t.id == task {
          NewlySeen(h, g, run, task);
        } else {
          Unconcerned(h, seen, Seen(r, t.id), run, task);
          Unconcerned(seen, g, Announced(r, t.id), run, task);
        }
      }
    }
  }

  lemma NewlySeen(h: Hub, g: Hub, run: string, task: string)
    requires KeyInv(h, run, task) && Key(run, task) !in h.notified
    requires Key(run, task) in g.notified
    requires g.log == (h.log + [Seen(run, task)]) + [Announced(run, task)]
    ensures KeyInv(g, run, task)
  {
    var seen := h.log + [Seen(run, task)];
    Appended(h.log, Seen(run, task));
    Appended(seen, Announced(run, task));
    RepeatedStep(h.log, Seen(run, task), run, task);
    RepeatedStep(seen, Announced(run, task), run, task);
  }

  lemma ScheduleKeeps(h: Hub, r: Run, run: string, task: string)
    requires !Clash(r.id, run)
    requires KeyInv(h, run, task)
    ensures KeyInv(Schedule(h, r), run, task)
  {
    KeysAreDistinct(r.id, task, run, task);
    var recorded := Record(h, r.id, r.status);
    RecordKeeps(h, r.id, r.status, run, task);
    var g := Schedule(h, r);
    if r.id == run {
      Appended(recorded.log, Scheduled(run));
      RepeatedStep(recorded.log, Scheduled(run), run, task);
    } else {
      Unconcerned(recorded, g, Scheduled(r.id), run, task);
    }
  }

  lemma ScanStatusKeeps(h: Hub, r: string, status: RunStatus, run: string, task: string)
    requires KeyInv(h, run, task)
    ensures KeyInv(ScanStatus(h, r, status), run, task)
  {
    var g := Record(h, r, status);
    RecordKeeps(h, r, status, run, task);
    Unconcerned(g, g.(log := g.log + [Done(r)]), Done(r), run, task);
  }

  lemma PrimeRunKeeps(h: Hub, r: Run, run: string, task: string)
    requires !Clash(r.id, run)
    requires KeyInv(h, run, task)
    ensures KeyInv(PrimeRun(h, r), run, task)
  {
    RecordKeeps(h, r.id, r.status, run, task);
    forall g: Hub, t: Task | KeyInv(g, run, task)
      ensures KeyInv(PrimeTask(g, r.id, t), run, task)
    {
      PrimeTaskKeeps(g, r.id, t, run, task);
    }
    FoldKeeps(Record(h, r.id, r.status), r.tasks, (g: Hub, t: Task) => PrimeTask(g, r.id, t), g => KeyInv(g, run, task));
  }

  lemma ScanRunKeeps(h: Hub, r: Run, run: string, task: string)
    requires !Clash(r.id, run)
    requires KeyInv(h, run, task)
    ensures KeyInv(ScanRun(h, r), run, task)
  {
    forall g: Hub, t: Task | KeyInv(g, run, task)
      ensures KeyInv(ScanTask(g, r.id, t), run, task)
    {
      ScanTaskKeeps(g, r.id, t, run, task);
    }
    var step := (g: Hub, t: Task) => ScanTask(g, r.id, t);
    FoldKeeps(h, r.tasks, step, g => KeyInv(g, run, task));
    ScanStatusKeeps(Fold(h, r.tasks, step), r.id, r.status, run, task);
  }

  lemma StatsKeep(h: Hub, run: string, task: string)
    requires KeyInv(h, run, task)
    ensures KeyInv(UpdateStats(h), run, task)
  {
    Unconcerned(h, UpdateStats(h), Stats, run, task);
  }

  lemma ApplyKeeps(h: Hub, op: Op, ids: set<string>, run: string, task: string)
    requires Unambiguous(ids) && OpOver(op, ids) && run in ids
    requires KeyInv(h, run, task)
    ensures KeyInv(Apply(h, op), run, task)
  {
    match op
    case ScheduleOp(r) => ScheduleKeeps(h, r, run, task);
    case PrimeOp(runs) =>
      forall g: Hub, i | 0 <= i < |runs| && KeyInv(g, run, task)
        ensures KeyInv(PrimeRun(g, runs[i]), run, task)
      {
        PrimeRunKeeps(g, runs[i], run, task);
      }
      FoldKeeps(h, runs, PrimeRun, g => KeyInv(g, run, task));
      StatsKeep(Fold(h, runs, PrimeRun), run, task);
    case StatsOp => StatsKeep(h, run, task);
    case ScanOp(runs) =>
      forall g: Hub, i | 0 <= i < |runs| && KeyInv(g, run, task)
        ensures KeyInv(ScanRun(g, runs[i]), run, task)
      {
        ScanRunKeeps(g, runs[i], run, task);
      }
      FoldKeeps(h, runs, ScanRun, g => KeyInv(g, run, task));
  }

  lemma KeyInvAlways(ops: seq<Op>, ids: set<string>, run: string, task: string)
    requires Unambiguous(ids) && OpsOver(ops, ids) && run in ids
    ensures KeyInv(After(ops), run, task)
  {
    forall h: Hub, i | 0 <= i < |ops| && KeyInv(h, run, task)
      ensures KeyInv(Apply(h, ops[i]), run, task)
    {
      ApplyKeeps(h, ops[i], ids, run, task);
    }
    FoldKeeps(NEW_HUB, ops, Apply, h => KeyInv(h, run, task));
  }

  /** Since the run was last scheduled, the failure was announced once if a scan saw it before it was
      primed, and otherwise not at all. */
  predicate ExactlyOnce(log: seq<Event>, run: string, task: string) {
    Announcements(log, run, task) == if FirstContact(log, run, task) == Some(BySight) then 1 else 0
  }

  /** Exactly once over every history: runs with the given ids have all their failures announced
      just so, whatever happens to them, if and only if no two of the ids clash. */
  lemma AnnouncedExactlyOnce(ids: set<string>)
    ensures Unambiguous(ids) <==>
              forall ops, run, task :: OpsOver(ops, ids) && run in ids ==> ExactlyOnce(After(ops).log, run, task)
  {
    if Unambiguous(ids) {
      forall ops, run, task | OpsOver(ops, ids) && run in ids
        ensures ExactlyOnce(After(ops).log, run, task)
      {
        KeyInvAlways(ops, ids, run, task);
      }
    } else {
      var a, b :| a in ids && b in ids && Clash(a, b);
      var shorter, longer := if a + ":" <= b then a else b, if a + ":" <= b then b else a;
      var ops := ClashLosesNotice(shorter, longer, "");
      assert OpsOver(ops, ids);
      assert !ExactlyOnce(After(ops).log, longer, "");
    }
  }

  lemma {:induction false} AnnouncedCounts(log: seq<Event>, i: nat, run: string, task: string)
    requires i < |log| && log[i] == Announced(run, task)
    requires forall k :: i < k < |log| ==> log[k] != Scheduled(run)
    ensures Announcements(log, run, task) >= 1
  {
    var init := log[..|log| - 1];
    if i < |log| - 1 {
      AnnouncedCounts(init, i, run, task);
    }
  }

  /** At most once per incarnation, over the whole history: two announcements of the same failure
      have the run scheduled anew between them. */
  lemma RepeatsNeedRescheduling(ops: seq<Op>, ids: set<string>, run: string, task: string, i: nat, j: nat)
    requires Unambiguous(ids) && OpsOver(ops, ids) && run in ids
    requires i < j < |After(ops).log|
    requires After(ops).log[i] == After(ops).log[j] == Announced(run, task)
    ensures exists k :: i < k < j && After(ops).log[k] == Scheduled(run)
  {
    KeyInvAlways(ops, ids, run, task);
    var log := After(ops).log;
    if forall k :: i < k < j ==> log[k] != Scheduled(run) {
      assert forall k :: 0 <= k < j ==> log[..j][k] == log[k];
      AnnouncedCounts(log[..j], i, run, task);
    }
  }

  /** Two ids that clash: for any task of the second run there is a scan that sees its failure and
      never announces it, because a task of the first has the same key. */
  lemma ClashLosesNotice(a: string, b: string, task: string) returns (ops: seq<Op>)
    requires a + ":" <= b
    ensures OpsOver(ops, {a, b})
    ensures FirstContact(After(ops).log, b, task) == Some(BySight) && Announcements(After(ops).log, b, task) == 0
  {
    var other := b[|a| + 1..] + ":" + task;
    var first, second := Run(a, Running, [Task(other, true)]), Run(b, Running, [Task(task, true)]);
    ops := [ScanOp([first, second])];
    assert Key(a, other) == Key(b, task) by {
      assert b == a + ":" + b[|a| + 1..];
    }
    FoldOne(NEW_HUB, ops[0], Apply);
    var h1 := ScanOne(NEW_HUB, first);
    var h2 := ScanOne(h1, second);
    FoldConcat(NEW_HUB, [first], [second], ScanRun);
    FoldOne(NEW_HUB, first, ScanRun);
    FoldOne(h1, second, ScanRun);
    assert [first] + [second] == [first, second];
    assert After(ops) == h2;
    assert h2.log == [Seen(a, other), Announced(a, other), Recorded(a, Running), Seen(b, task), Recorded(b, Running)];
    LoneSighting(h2.log, a, other, b, task);
  }

  /** Scanning a new run with one failed task. */
  lemma ScanOne(h: Hub, r: Run) returns (g: Hub)
    requires r.id !in h.status && r.status == Running && |r.tasks| == 1 && r.tasks[0].failed
    ensures g == ScanRun(h, r)
    ensures g.status == h.status[r.id := Running] && g.notified == h.notified + {Key(r.id, r.tasks[0].id)}
    ensures g.log == h.log + [Seen(r.id, r.tasks[0].id)]
                     + (if Key(r.id, r.tasks[0].id) in h.notified then [] else [Announced(r.id, r.tasks[0].id)])
                     + [Recorded(r.id, Running)]
  {
    g := ScanRun(h, r);
    assert r.tasks == [r.tasks[0]];
    FoldOne(h, r.tasks[0], (f: Hub, t: Task) => ScanTask(f, r.id, t));
  }

  lemma LoneSighting(log: seq<Event>, a: string, other: string, b: string, task: string)
    requires a != b
    requires log == [Seen(a, other), Announced(a, other), Recorded(a, Running), Seen(b, task), Recorded(b, Running)]
    ensures FirstContact(log, b, task) == Some(BySight) && Announcements(log, b, task) == 0
  {
    var l1 := [] + [Seen(a, other)];
    var l2 := l1 + [Announced(a, other)];
    var l3 := l2 + [Recorded(a, Running)];
    var l4 := l3 + [Seen(b, task)];
    Appended([], Seen(a, other));
    Appended(l1, Announced(a, other));
    Appended(l2, Recorded(a, Running));
    Appended(l3, Seen(b, task));
    Appended(l4, Recorded(b, Running));
    assert FirstContact(l1, b, task) == None;
    assert FirstContact(l2, b, task) == None;
    assert FirstContact(l3, b, task) == None;
    assert FirstContact(l4, b, task) == Some(BySight);
    assert log == l4 + [Recorded(b, Running)];
    NeverAnnounced(log, b, task);
  }

  lemma {:induction false} NeverAnnounced(log: seq<Event>, run: string, task: string)
    requires Announced(run, task) !in log
    ensures Announcements(log, run, task) == 0
  {
    if log != [] {
      NeverAnnounced(log[..|log| - 1], run, task);
      assert Last(log) in log;
    }
  }

  // ----- Run-done notices -----

  /** A run-done notice directly follows the record of a terminal status, and the status on record
      before that was an active one. */
  ghost predicate DoneIsEarned(log: seq<Event>, i: nat)
    requires i < |log| && log[i].Done?
  {
    && i >= 1 && log[i - 1].Recorded? && log[i - 1].run == log[i].run && log[i - 1].status.IsTerminal()
    && LastStatus(log[..i - 1], log[i].run).Some? && LastStatus(log[..i - 1], log[i].run).value.IsActive()
  }

  ghost predicate StatusInv(h: Hub) {
    && (forall run :: LastStatus(h.log, run) == if run in h.status then Some(h.status[run]) else None)
    && (forall i :: 0 <= i < |h.log| && h.log[i].Done? ==> DoneIsEarned(h.log, i))
  }

  lemma EarnedStays(log: seq<Event>, more: seq<Event>, i: nat)
    requires i < |log| && log[i].Done? && DoneIsEarned(log, i)
    ensures DoneIsEarned(log + more, i)
  {
    assert (log + more)[..i - 1] == log[..i - 1];
  }

  /** Events other than records and run-done notices keep the record. */
  lemma QuietStep(h: Hub, g: Hub, e: Event)
    requires StatusInv(h) && g.status == h.status && g.log == h.log + [e]
    requires !e.Recorded? && !e.Done?
    ensures StatusInv(g)
  {
    Appended(h.log, e);
    forall i | 0 <= i < |g.log| && g.log[i].Done?
      ensures DoneIsEarned(g.log, i)
    {
      EarnedStays(h.log, [e], i);
    }
  }

  lemma RecordStep(h: Hub, run: string, status: RunStatus)
    requires StatusInv(h)
    ensures StatusInv(Record(h, run, status))
  {
    var e := Recorded(run, status);
    Appended(h.log, e);
    forall i | 0 <= i < |h.log + [e]| && (h.log + [e])[i].Done?
      ensures DoneIsEarned(h.log + [e], i)
    {
      EarnedStays(h.log, [e], i);
    }
  }

  lemma ScanStatusStep(h: Hub, run: string, status: RunStatus)
    requires StatusInv(h)
    ensures StatusInv(ScanStatus(h, run, status))
  {
    RecordStep(h, run, status);
    var g := Record(h, run, status);
    var done := g.(log := g.log + [Done(run)]);
    if ScanStatus(h, run, status) == done && status.IsTerminal() && run in h.status && h.status[run].IsActive() {
      Appended(g.log, Done(run));
      forall i | 0 <= i < |done.log| && done.log[i].Done?
        ensures DoneIsEarned(done.log, i)
      {
        if i < |g.log| {
          EarnedStays(g.log, [Done(run)], i);
        } else {
          assert done.log[..i - 1] == h.log;
        }
      }
    }
  }

  lemma PrimeTaskStep(h: Hub, run: string, t: Task)
    requires StatusInv(h)
    ensures StatusInv(PrimeTask(h, run, t))
  {
    if t.failed {
      QuietStep(h, PrimeTask(h, run, t), Primed(run, t.id));
    }
  }

  lemma ScanTaskStep(h: Hub, run: string, t: Task)
    requires StatusInv(h)
    ensures StatusInv(ScanTask(h, run, t))
  {
    if t.failed {
      var seen := h.(log := h.log + [Seen(run, t.id)]);
      QuietStep(h, seen, Seen(run, t.id));
      if Key(run, t.id) !in h.notified {
        var g := ScanTask(h, run, t);
        assert g.log == seen.log + [Announced(run, t.id)];
        QuietStep(seen, g, Announced(run, t.id));
      }
    }
  }

  lemma PrimeRunStep(h: Hub, r: Run)
    requires StatusInv(h)
    ensures StatusInv(PrimeRun(h, r))
  {
    RecordStep(h, r.id, r.status);
    forall g: Hub, t: Task | StatusInv(g)
      ensures StatusInv(PrimeTask(g, r.id, t))
    {
      PrimeTaskStep(g, r.id, t);
    }
    FoldKeeps(Record(h, r.id, r.status), r.tasks, (g: Hub, t: Task) => PrimeTask(g, r.id, t), StatusInv);
  }

  lemma ScanRunStep(h: Hub, r: Run)
    requires StatusInv(h)
    ensures StatusInv(ScanRun(h, r))
  {
    forall g: Hub, t: Task | StatusInv(g)
      ensures StatusInv(ScanTask(g, r.id, t))
    {
      ScanTaskStep(g, r.id, t);
    }
    var step := (g: Hub, t: Task) => ScanTask(g, r.id, t);
    FoldKeeps(h, r.tasks, step, StatusInv);
    ScanStatusStep(Fold(h, r.tasks, step), r.id, r.status);
  }

  lemma ApplyStep(h: Hub, op: Op)
    requires StatusInv(h)
    ensures StatusInv(Apply(h, op))
  {
    match op
    case ScheduleOp(r) =>
      RecordStep(h, r.id, r.status);
      QuietStep(Record(h, r.id, r.status), Schedule(h, r), Scheduled(r.id));
    case PrimeOp(runs) =>
      forall g: Hub, i | 0 <= i < |runs| && StatusInv(g)
        ensures StatusInv(PrimeRun(g, runs[i]))
      {
        PrimeRunStep(g, runs[i]);
      }
      FoldKeeps(h, runs, PrimeRun, StatusInv);
      QuietStep(Fold(h, runs, PrimeRun), Prime(h, runs), Stats);
    case StatsOp => QuietStep(h, UpdateStats(h), Stats);
    case ScanOp(runs) =>
      forall g: Hub, i | 0 <= i < |runs| && StatusInv(g)
        ensures StatusInv(ScanRun(g, runs[i]))
      {
        ScanRunStep(g, runs[i]);
      }
      FoldKeeps(h, runs, ScanRun, StatusInv);
  }

  /** Over every history, whatever the ids: a run-done notice appears only on a change to a terminal
      status from an active one on record. */
  lemma DoneNoticesAreEarned(ops: seq<Op>, i: nat)
    requires i < |After(ops).log| && After(ops).log[i].Done?
    ensures DoneIsEarned(After(ops).log, i)
  {
    forall h: Hub, n | 0 <= n < |ops| && StatusInv(h)
      ensures StatusInv(Apply(h, ops[n]))
    {
      ApplyStep(h, ops[n]);
    }
    FoldKeeps(NEW_HUB, ops, Apply, StatusInv);
  }

  /** The status on record was recorded somewhere, and nothing was recorded since. */
  lemma {:induction false} LastStatusSource(log: seq<Event>, run: string) returns (k: nat)
    requires LastStatus(log, run).Some?
    ensures k < |log| && log[k] == Recorded(run, LastStatus(log, run).value)
    ensures forall j :: k < j < |log| ==> !(log[j].Recorded? && log[j].run == run)
  {
    if Last(log).Recorded? && Last(log).run == run {
      k := |log| - 1;
    } else {
      k := LastStatusSource(log[..|log| - 1], run);
    }
  }

  /** Two run-done notices of a run always have an active status recorded between them. */
  lemma DoneNoticesAreSeparated(ops: seq<Op>, run: string, i: nat, j: nat)
    requires i < j < |After(ops).log|
    requires After(ops).log[i] == After(ops).log[j] == Done(run)
    ensures exists k :: i < k < j && After(ops).log[k].Recorded? && After(ops).log[k].run == run
                        && After(ops).log[k].status.IsActive()
  {
    var log := After(ops).log;
    DoneNoticesAreEarned(ops, i);
    DoneNoticesAreEarned(ops, j);
    assert log[..j - 1][i - 1] == log[i - 1];
    var k := LastStatusSource(log[..j - 1], run);
    assert log[k].status.IsActive();
  }
}
