/** Polling over unbounded histories. Between any two steps of a poll, and between polls, the run
    manager may move items that are not yet decided in any way it likes. */
module PollSafety {
  import opened Wrappers
  import opened Poll

  // ----- One poll resolves what it has evidence for -----

  /** An accounting answer that settles the matter: no row, COMPLETED, or a failure state. */
  predicate Decisive(row: Option<Stats>, p: Policy) {
    row.None? || row.value.Tells("COMPLETED") || (row.value.TellsSomething() && row.value.state.value in p.failures)
  }

  function RowFor(i: Item, stats: map<string, Stats>): Option<Stats>
    requires i.HasJob()
  {
    if i.jobId.value in stats then Some(stats[i.jobId.value]) else None
  }

  /** Waiting past its timeout: submitted but absent from the queue, or settling. */
  predicate Overdue(i: Item, live: set<string>, now: int, p: Policy) {
    i.HasJob() &&
    (|| (i.status == Submitted && i.jobId.value !in live
         && i.submittedAt.Some? && now - i.submittedAt.value > p.noRecordTimeout)
     || (i.status == Settling && i.finishedAt.Some? && now - i.finishedAt.value > p.settlingTimeout))
  }

  /** Past its timeout an item is always asked about, and one poll decides it exactly when the
      answer is decisive. */
  lemma OverdueIsDecidedByEvidence(
    i: Item, live: set<string>, stats: map<string, Stats>, now: int, later: int, p: Policy)
    requires p.submitGrace <= p.noRecordTimeout && Overdue(i, live, now, p)
    ensures Queried(i, live, now, p)
    ensures Polled(i, live, stats, now, later, p).Decided() <==> Decisive(RowFor(i, stats), p)
  {
  }

  /** A waiting item is decided only on evidence: completed on a COMPLETED row or, marked as
      unconfirmed, after its timeout; failed on a failure row or, marked as unknown to the
      scheduler, after its timeout. */
  lemma VerdictsHaveEvidence(
    i: Item, live: set<string>, stats: map<string, Stats>, now: int, later: int, p: Policy)
    requires "COMPLETED" !in p.failures && i.HasJob() && (i.status == Submitted || i.status == Settling)
    ensures var j := Polled(i, live, stats, now, later, p);
            var row := RowFor(i, stats);
            && (j.status == Completed <==>
                  || (row.Some? && row.value.Tells("COMPLETED"))
                  || (row.None? && i.status == Settling && Overdue(i, live, now, p)))
            && (j.status == Failed <==>
                  || (row.Some? && row.value.TellsSomething() && row.value.state.value in p.failures)
                  || (row.None? && i.status == Submitted && Overdue(i, live, now, p)))
            && (j.Decided() && row.None? ==>
                  j.error == Some(if i.status == Settling then UNCONFIRMED else NO_RECORD))
            && (!j.Decided() ==> j.status == i.status)
  {
  }

  /** Which items with a job accounting is asked about: decided ones as long as no final state is confirmed,
      settling ones, and submitted ones that are missing from the queue for longer than the grace time. */
  lemma AskedExactly(i: Item, live: set<string>, now: int, p: Policy)
    ensures (i.jobId.None? || i.jobId.value == "") ==> !Queried(i, live, now, p)
    ensures i.jobId.Some? && i.jobId.value != "" ==>
              match i.status
              case Completed => Queried(i, live, now, p) <==> i.schedulerState.None?
              case Failed => Queried(i, live, now, p) <==> i.schedulerState.None?
              case Settling => Queried(i, live, now, p)
              case Submitted => Queried(i, live, now, p) <==>
                i.jobId.value !in live && i.submittedAt.Some? && i.submittedAt.value + p.submitGrace < now
              case _ => !Queried(i, live, now, p)
  {
  }

  /** The row of the item's job tells this state. */
  predicate RowTells(i: Item, stats: map<string, Stats>, state: string) {
    i.jobId.Some? && i.jobId.value != "" && i.jobId.value in stats && stats[i.jobId.value].state == Some(state)
  }

  /** What one poll makes of a verdict. A COMPLETED item fails if and only if its row tells a failure
      state, and then for that reason; a FAILED one is completed if and only if its row tells COMPLETED
      and the failure was that the job had vanished unobserved. Any other verdict stays. */
  lemma VerdictIsCorrectedExactly(
    i: Item, live: set<string>, stats: map<string, Stats>, now: int, later: int, p: Policy)
    requires "" !in p.failures && "COMPLETED" !in p.failures
    ensures var j := Polled(i, live, stats, now, later, p);
            && (i.status == Completed ==>
                  && (j.status == Completed || j.status == Failed)
                  && (j.status == Failed <==> exists state :: state in p.failures && RowTells(i, stats, state))
                  && (forall state :: state in p.failures && RowTells(i, stats, state) ==>
                        j.error == Some("Scheduler: " + p.failures[state]))
                  && (j.status == Completed ==> j.error == i.error))
            && (i.status == Failed ==>
                  && (j.status == Completed || j.status == Failed)
                  && (j.status == Completed <==>
                        RowTells(i, stats, "COMPLETED") && i.error == Some("Job vanished before being observed running"))
                  && j.error == if j.status == Completed then None else i.error)
  {
    if i.HasJob() && i.jobId.value in stats && stats[i.jobId.value].TellsSomething() {
      assert RowTells(i, stats, stats[i.jobId.value].state.value);
    }
  }

  /** Why a waiting item is decided: on a row, its failure or nothing; on a timeout, the marker, with the time
      of the poll for a job that was dropped, while one that settles keeps the time it left the queue. */
  lemma WaitingVerdictSaysWhy(
    i: Item, live: set<string>, stats: map<string, Stats>, now: int, later: int, p: Policy)
    requires "COMPLETED" !in p.failures && i.HasJob() && (i.status == Submitted || i.status == Settling)
    ensures var j := Polled(i, live, stats, now, later, p);
            && (!j.Decided() ==> j.error == i.error)
            && (RowTells(i, stats, "COMPLETED") ==> j.error == i.error)
            && (forall state :: state != "" && state in p.failures && RowTells(i, stats, state) ==>
                  j.status == Failed && j.error == Some("Scheduler: " + p.failures[state]))
            && (j.Decided() && i.jobId.value !in stats ==>
                  if i.status == Settling
                  then j == i.(status := Completed, error := j.error) && j.error.Some?
                  else j == i.(status := Failed, error := j.error, startedAt := i.submittedAt, finishedAt := Some(now)))
  {
  }

  /** Every other item, neither waiting nor decided, keeps its status and error in a poll. */
  lemma OthersKeepTheirStatus(
    i: Item, live: set<string>, stats: map<string, Stats>, now: int, later: int, p: Policy)
    requires i.status in {Pending, Queued, Running, DepFailed}
    ensures var j := Polled(i, live, stats, now, later, p);
            j.status == i.status && j.error == i.error
  {
  }

  /** What a row leaves on the item, whatever its status: the figures, the times and the exit code it
      has, and the scheduler state if it is final. A verdict it brings is dated. */
  lemma RowIsStamped(
    i: Item, live: set<string>, stats: map<string, Stats>, now: int, later: int, p: Policy)
    requires i.HasJob() && i.jobId.value in stats
    ensures var j, row := Polled(i, live, stats, now, later, p), stats[i.jobId.value];
            && j.cpuEfficiency == Some(row.cpuEfficiency) && j.maxRss == Some(row.maxRss)
            && (row.start.Some? ==> j.startedAt == row.start)
            && (row.end.Some? ==> j.finishedAt == row.end)
            && (row.exitCode.Some? ==> j.exitCode == row.exitCode)
            && (row.exitCode.None? ==> j.exitCode == i.exitCode)
            && (if exists state :: state != "" && state in p.terminal && RowTells(i, stats, state)
                then j.schedulerState == row.state
                else j.schedulerState == i.schedulerState)
            && (!i.Decided() && j.Decided() && row.start.None? ==>
                  j.startedAt == if i.startedAt.Some? then i.startedAt else i.submittedAt)
            && (!i.Decided() && j.Decided() && row.end.None? ==> j.finishedAt == Some(later))
            && ((i.Decided() || !j.Decided()) ==>
                  && (row.start.None? ==> j.startedAt == i.startedAt)
                  && (row.end.None? ==> j.finishedAt == i.finishedAt))
  {
    if stats[i.jobId.value].TellsSomething() {
      assert RowTells(i, stats, stats[i.jobId.value].state.value);
    }
  }

  /** One poll's inputs. */
  datatype PollInput = PollInput(live: set<string>, stats: map<string, Stats>, now: int, later: int)

  function PolledBy(i: Item, polls: seq<PollInput>, p: Policy): Item {
    if polls == [] then i
    else
      var last := polls[|polls| - 1];
      Polled(PolledBy(i, polls[..|polls| - 1], p), last.live, last.stats, last.now, last.later, p)
  }

  /** A state that is neither COMPLETED nor a failure decides nothing, however often it is polled
      and however much time passes: both fallbacks wait for a missing row. */
  lemma {:induction false} UndecidedStateNeverResolves(i: Item, state: string, polls: seq<PollInput>, p: Policy)
    requires (i.status == Submitted || i.status == Settling) && i.HasJob()
    requires state != "" && state != "COMPLETED" && state !in p.failures
    requires forall k :: 0 <= k < |polls| ==>
               i.jobId.value in polls[k].stats && polls[k].stats[i.jobId.value].state == Some(state)
    ensures PolledBy(i, polls, p).status == i.status && PolledBy(i, polls, p).jobId == i.jobId
  {
    if polls != [] {
      UndecidedStateNeverResolves(i, state, polls[..|polls| - 1], p);
    }
  }

  const SLURM := Policy(
    60, 300, 600,
    map[
      "FAILED" := "Non-zero exit code",
      "TIMEOUT" := "Exceeded walltime",
      "OUT_OF_MEMORY" := "Out of memory (OOM killed)",
      "CANCELLED" := "Cancelled",
      "NODE_FAIL" := "Node failure",
      "PREEMPTED" := "Preempted"],
    {"COMPLETED", "FAILED", "CANCELLED", "TIMEOUT", "OUT_OF_MEMORY", "NODE_FAIL", "PREEMPTED", "DEADLINE", "BOOT_FAIL"})

  const EC2 := Policy(
    60, 300, 600,
    map[
      "FAILED" := "Task container exited non-zero",
      "LAUNCH_FAILED" := "EC2 instance failed to reach 'running'",
      "TERMINATED_EARLY" := "Instance terminated before sentinel was written"],
    {"SUCCEEDED", "FAILED", "LAUNCH_FAILED", "TERMINATED_EARLY"})

  /** The shipped tables contain such final states: a Slurm job that missed its deadline or could
      not boot, and every EC2 task that succeeded, stays submitted or settling forever. */
  lemma ShippedTablesHaveUndecidedStates(i: Item, polls: seq<PollInput>)
    requires (i.status == Submitted || i.status == Settling) && i.HasJob()
    requires forall k :: 0 <= k < |polls| ==> i.jobId.value in polls[k].stats
    ensures SLURM.Valid()
    ensures forall state :: state in {"DEADLINE", "BOOT_FAIL"}
              && (forall k :: 0 <= k < |polls| ==> polls[k].stats[i.jobId.value].state == Some(state))
              ==> state in SLURM.terminal && PolledBy(i, polls, SLURM).status == i.status
    ensures (forall k :: 0 <= k < |polls| ==> polls[k].stats[i.jobId.value].state == Some("SUCCEEDED"))
              ==> "SUCCEEDED" in EC2.terminal && PolledBy(i, polls, EC2).status == i.status
  {
    forall state | state in {"DEADLINE", "BOOT_FAIL"}
        && forall k :: 0 <= k < |polls| ==> polls[k].stats[i.jobId.value].state == Some(state)
      ensures PolledBy(i, polls, SLURM).status == i.status
    {
      UndecidedStateNeverResolves(i, state, polls, SLURM);
    }
    if forall k :: 0 <= k < |polls| ==> polls[k].stats[i.jobId.value].state == Some("SUCCEEDED") {
      UndecidedStateNeverResolves(i, "SUCCEEDED", polls, EC2);
    }
  }

  // ----- Every interleaving of polls and manager moves -----

  /** Where the poll loop stands. One poll of a backend runs at a time. */
  datatype Phase =
    | Idle
    | Asking(live: set<string>, queried: set<string>, now: int)
    | Writing(live: set<string>, stats: map<string, Stats>, now: int, written: set<nat>)

  /** `cancelling` holds the items whose cancellation waits for the scheduler. */
  datatype State = State(items: map<nat, Item>, phase: Phase, cancelling: set<nat>)

  ghost predicate UniqueJobs(items: map<nat, Item>) {
    forall k, l :: k in items && l in items && k != l && items[k].HasJob() && items[l].HasJob()
      ==> items[k].jobId != items[l].jobId
  }

  /** The manager adds items and moves undecided ones; apart from cancellations it never touches a
      decided item, and a job id, once assigned, stays. */
  ghost predicate ManagerMove(s: State, t: State) {
    && t.phase == s.phase && t.cancelling == s.cancelling
    && s.items.Keys <= t.items.Keys
    && forall k :: k in s.items ==>
         && (s.items[k].Decided() ==> t.items[k] == s.items[k])
         && (s.items[k].HasJob() ==> t.items[k].jobId == s.items[k].jobId)
  }

  /** `cancel_run` finds an item submitted, queued or running, and asks the scheduler to cancel it. */
  ghost predicate StartCancel(s: State, t: State, k: nat) {
    && k in s.items && s.items[k].status in {Submitted, Queued, Running}
    && t == s.(cancelling := s.cancelling + {k})
  }

  function Cancelled(i: Item, now: int): Item {
    i.(startedAt := OrElse(i.startedAt, i.submittedAt), status := Failed, error := Some("Cancelled"), finishedAt := Some(now))
  }

  /** After that await it marks the item, whatever its status has become. */
  ghost predicate WriteCancel(s: State, t: State, k: nat, now: int) {
    && k in s.items && k in s.cancelling
    && t == s.(items := s.items[k := Cancelled(s.items[k], now)], cancelling := s.cancelling - {k})
  }

  /** The scheduler could not be reached, which ends the cancellation of the run. */
  ghost predicate DropCancel(s: State, t: State) {
    t == s.(cancelling := t.cancelling) && t.cancelling <= s.cancelling
  }

  ghost predicate CancelStep(s: State, t: State) {
    || (exists k :: StartCancel(s, t, k))
    || (exists k, now :: WriteCancel(s, t, k, now))
    || DropCancel(s, t)
  }

  ghost predicate BeginPoll(s: State, t: State, live: set<string>, now: int, p: Policy) {
    && s.phase.Idle? && t.items == s.items && t.cancelling == s.cancelling
    && t.phase == Asking(live, set k | k in s.items && Queried(s.items[k], live, now, p) :: s.items[k].jobId.value, now)
  }

  ghost predicate GotAnswer(s: State, t: State) {
    && s.phase.Asking? && t.items == s.items && t.cancelling == s.cancelling
    && t.phase.Writing? && t.phase.live == s.phase.live && t.phase.now == s.phase.now
    && t.phase.stats.Keys <= s.phase.queried && t.phase.written == {}
  }

  /** The write-back loop reaches item k; it passes every item once. */
  ghost predicate WriteItem(s: State, t: State, k: nat, later: int, p: Policy) {
    && s.phase.Writing? && k in s.items && k !in s.phase.written
    && t.items == s.items[k := Written(s.items[k], s.phase.stats, later, p)]
    && t.phase == s.phase.(written := s.phase.written + {k}) && t.cancelling == s.cancelling
  }

  ghost predicate TimeOutItem(s: State, t: State, k: nat, p: Policy) {
    && s.phase.Writing? && k in s.items && t.phase == s.phase && t.cancelling == s.cancelling
    && (|| t.items == s.items[k := Dropped(s.items[k], s.phase.live, s.phase.stats, s.phase.now, p)]
        || t.items == s.items[k := Settled(s.items[k], s.phase.stats, s.phase.now, p)])
  }

  /** A poll ends, normally or by an exception, wherever it stands. */
  ghost predicate EndPoll(s: State, t: State) {
    t == s.(phase := Idle)
  }

  ghost predicate Next(s: State, t: State, p: Policy) {
    || ManagerMove(s, t)
    || CancelStep(s, t)
    || (exists live, now :: BeginPoll(s, t, live, now, p))
    || GotAnswer(s, t)
    || (exists k, later :: WriteItem(s, t, k, later, p))
    || (exists k :: TimeOutItem(s, t, k, p))
    || EndPoll(s, t)
  }

  /** A history: any number of steps, job ids being unique throughout. */
  ghost predicate History(states: seq<State>, p: Policy) {
    && states != []
    && (forall n :: 0 <= n < |states| ==> UniqueJobs(states[n].items))
    && (forall n :: 0 <= n < |states| - 1 ==> Next(states[n], states[n + 1], p))
  }

  /** A poll in progress may still write a row to this item. */
  predicate RowPending(s: State, k: nat)
    requires k in s.items
  {
    s.items[k].HasJob() &&
    match s.phase
    case Idle => false
    case Asking(_, queried, _) => s.items[k].jobId.value in queried
    case Writing(_, stats, _, written) => s.items[k].jobId.value in stats && k !in written
  }

  /** The verdict is locked, and no poll in progress still holds a row for the item. */
  predicate Confirmed(s: State, k: nat) {
    k in s.items && s.items[k].Locked() && !RowPending(s, k)
  }

  /** Nor is a cancellation of the item under way. */
  predicate Final(s: State, k: nat) {
    Confirmed(s, k) && k !in s.cancelling
  }

  lemma BeginKeepsConfirmed(s: State, t: State, k: nat, live: set<string>, now: int, p: Policy)
    requires Confirmed(s, k) && UniqueJobs(s.items) && BeginPoll(s, t, live, now, p)
    ensures t.items[k] == s.items[k] && Confirmed(t, k)
  {
    assert !Queried(s.items[k], live, now, p);
  }

  lemma WriteKeepsConfirmed(s: State, t: State, k: nat, l: nat, later: int, p: Policy)
    requires Confirmed(s, k) && WriteItem(s, t, l, later, p)
    ensures t.items[k] == s.items[k] && Confirmed(t, k)
  {
    if l == k {
      assert Written(s.items[k], s.phase.stats, later, p) == s.items[k];
    }
  }

  lemma TimeOutKeepsConfirmed(s: State, t: State, k: nat, l: nat, p: Policy)
    requires Confirmed(s, k) && TimeOutItem(s, t, l, p)
    ensures t.items[k] == s.items[k] && Confirmed(t, k)
  {
  }

  /** A confirmed item stays confirmed, and the one thing that can still change it is a cancellation
      that was under way. */
  lemma StepKeepsConfirmed(s: State, t: State, k: nat, p: Policy)
    requires Confirmed(s, k) && UniqueJobs(s.items) && Next(s, t, p)
    ensures Confirmed(t, k)
    ensures t.items[k] == s.items[k] || exists now :: WriteCancel(s, t, k, now)
    ensures t.items[k] == s.items[k] || k in s.cancelling
    ensures k !in s.cancelling ==> k !in t.cancelling
  {
    if ManagerMove(s, t) {
    } else if CancelStep(s, t) {
      if l, now :| WriteCancel(s, t, l, now) {
        assert l != k ==> t.items[k] == s.items[k];
      }
    } else if live, now :| BeginPoll(s, t, live, now, p) {
      BeginKeepsConfirmed(s, t, k, live, now, p);
    } else if l, later :| WriteItem(s, t, l, later, p) {
      WriteKeepsConfirmed(s, t, k, l, later, p);
    } else if l :| TimeOutItem(s, t, l, p) {
      TimeOutKeepsConfirmed(s, t, k, l, p);
    }
  }

  ghost predicate FinalsKept(states: seq<State>, k: nat) {
    forall n :: 0 <= n < |states| - 1 && Final(states[n], k) ==>
      Final(states[n + 1], k) && states[n + 1].items[k] == states[n].items[k]
  }

  lemma HistoryKeepsFinals(states: seq<State>, k: nat, p: Policy)
    requires History(states, p)
    ensures FinalsKept(states, k)
  {
    forall n | 0 <= n < |states| - 1 && Final(states[n], k)
      ensures Final(states[n + 1], k) && states[n + 1].items[k] == states[n].items[k]
    {
      StepKeepsConfirmed(states[n], states[n + 1], k, p);
    }
  }

  lemma {:induction false} FinalLasts(states: seq<State>, m: nat, n: nat, k: nat)
    requires FinalsKept(states, k) && m <= n < |states| && Final(states[m], k)
    ensures Final(states[n], k) && states[n].items[k] == states[m].items[k]
    decreases n - m
  {
    if m < n {
      FinalLasts(states, m, n - 1, k);
    }
  }

  /** Over every history: once an item is COMPLETED or FAILED with a confirmed scheduler state, and
      neither a row of a poll in progress nor a cancellation is pending for it, it never changes
      again. */
  lemma LockedIsForever(states: seq<State>, m: nat, n: nat, k: nat, p: Policy)
    requires History(states, p) && m <= n < |states|
    requires Final(states[m], k)
    ensures Final(states[n], k) && states[n].items[k] == states[m].items[k]
  {
    HistoryKeepsFinals(states, k, p);
    FinalLasts(states, m, n, k);
  }

  /** A cancellation under way does change it: whatever was confirmed, the item ends as FAILED. */
  lemma CancellationOverwritesConfirmed(s: State, k: nat, now: int, p: Policy) returns (t: State)
    requires Confirmed(s, k) && k in s.cancelling
    ensures Next(s, t, p) && t.items == s.items[k := Cancelled(s.items[k], now)]
    ensures t.items[k].status == Failed && t.items[k].schedulerState == s.items[k].schedulerState
  {
    t := s.(items := s.items[k := Cancelled(s.items[k], now)], cancelling := s.cancelling - {k});
    assert WriteCancel(s, t, k, now);
  }

  /** However things go on, the item stays as it is. */
  ghost predicate UnchangedForEver(s: State, k: nat, p: Policy)
    requires k in s.items
  {
    forall states: seq<State> :: History(states, p) && states[0] == s ==>
      forall n :: 0 <= n < |states| ==> k in states[n].items && states[n].items[k] == s.items[k]
  }

  /** An item confirmed and with no row pending stays as it is, in every history from there, if and
      only if no cancellation of it is under way. */
  lemma ConfirmedIsForEverExactly(s: State, k: nat, p: Policy)
    requires Confirmed(s, k) && UniqueJobs(s.items)
    ensures UnchangedForEver(s, k, p) <==> k !in s.cancelling
  {
    if k in s.cancelling {
      var now := if s.items[k].finishedAt == Some(0) then 1 else 0;
      var t := CancellationOverwritesConfirmed(s, k, now, p);
      var states := [s, t];
      assert UniqueJobs(t.items);
      assert History(states, p);
      assert states[1].items[k].finishedAt != s.items[k].finishedAt;
    } else {
      forall states: seq<State>, n | History(states, p) && states[0] == s && 0 <= n < |states|
        ensures k in states[n].items && states[n].items[k] == s.items[k]
      {
        LockedIsForever(states, 0, n, k, p);
      }
    }
  }

  function Only(i: Item, phase: Phase, cancelling: set<nat>): State {
    State(map[0 := i], phase, cancelling)
  }

  const COMPLETED_ROW := Stats(0.0, "", None, None, Some("COMPLETED"), None)

  lemma OneItem(i: Item, j: Item)
    ensures map[0 := i][0 := j] == map[0 := j]
  {
  }

  /** While the scheduler is asked to cancel a running item, the item leaves the queue and a poll asks
      about it. */
  lemma AskedWhileCancelling(i: Item, settling: Item, p: Policy) returns (states: seq<State>)
    requires i.status == Running && i.HasJob() && settling == i.(status := Settling, finishedAt := Some(0))
    ensures |states| == 4 && History(states, p) && states[0] == Only(i, Idle, {})
    ensures states[3] == Only(settling, Asking({}, {i.jobId.value}, 0), {0})
  {
    var asking := Asking({}, {i.jobId.value}, 0);
    states := [Only(i, Idle, {}), Only(i, Idle, {0}), Only(settling, Idle, {0}), Only(settling, asking, {0})];
    assert StartCancel(states[0], states[1], 0);
    assert ManagerMove(states[1], states[2]);
    assert BeginPoll(states[2], states[3], {}, 0, p) by {
      var items := states[2].items;
      assert (set k | k in items && Queried(items[k], {}, 0, p) :: items[k].jobId.value) == {i.jobId.value} by {
        assert 0 in items && Queried(items[0], {}, 0, p);
      }
    }
  }

  /** The poll confirms the item as COMPLETED while the cancellation still waits. */
  lemma ConfirmedWhileCancelling(i: Item, p: Policy) returns (states: seq<State>)
    requires p.Valid() && i.status == Running && i.HasJob()
    ensures |states| == 6 && History(states, p) && states[0] == Only(i, Idle, {})
    ensures var s := states[5];
            && Confirmed(s, 0) && s.items[0].status == Completed && s.items[0].schedulerState == Some("COMPLETED")
            && s.items.Keys == {0} && s.cancelling == {0}
  {
    var settling := i.(status := Settling, finishedAt := Some(0));
    states := AskedWhileCancelling(i, settling, p);
    var stats := map[i.jobId.value := COMPLETED_ROW];
    var done := Written(settling, stats, 0, p);
    var answered := Only(settling, Writing({}, stats, 0, {}), {0});
    var written := Only(done, Writing({}, stats, 0, {0}), {0});
    OneItem(settling, done);
    assert GotAnswer(states[3], answered);
    states := ThenHistory(states, answered, p);
    assert WriteItem(answered, written, 0, 0, p);
    states := ThenHistory(states, written, p);
  }

  /** And then the cancellation turns it into FAILED: a history from a quiet state on. */
  lemma CancelledAfterCompletion(i: Item, p: Policy) returns (states: seq<State>)
    requires p.Valid() && i.status == Running && i.HasJob()
    ensures |states| == 7 && History(states, p) && states[0] == Only(i, Idle, {})
    ensures Confirmed(states[5], 0) && states[5].items[0].status == Completed
    ensures 0 in states[6].items && states[6].items[0].status == Failed
    ensures states[6].items[0].schedulerState == Some("COMPLETED")
  {
    states := ConfirmedWhileCancelling(i, p);
    var cancelled := CancellationOverwritesConfirmed(states[5], 0, 0, p);
    states := ThenHistory(states, cancelled, p);
  }

  lemma ThenHistory(states: seq<State>, t: State, p: Policy) returns (longer: seq<State>)
    requires History(states, p) && Next(states[|states| - 1], t, p) && UniqueJobs(t.items)
    ensures longer == states + [t] && History(longer, p)
  {
    longer := states + [t];
    forall n | 0 <= n < |longer| - 1
      ensures Next(longer[n], longer[n + 1], p)
    {
      if n < |states| - 1 {
        assert longer[n] == states[n] && longer[n + 1] == states[n + 1];
      }
    }
  }

  // ----- Corrections -----

  /** COMPLETED turns into FAILED, or FAILED into COMPLETED. */
  predicate Corrected(i: Item, j: Item) {
    (i.status == Completed && j.status == Failed) || (i.status == Failed && j.status == Completed)
  }

  /** A step other than the end of the item's own cancellation corrects it. */
  predicate CorrectedStep(s: State, t: State, k: nat) {
    k in s.items && k in t.items && Corrected(s.items[k], t.items[k]) && !(k in s.cancelling && k !in t.cancelling)
  }

  /** How often item k is corrected along a history. */
  function Corrections(states: seq<State>, k: nat): nat {
    if |states| < 2 then 0
    else (if CorrectedStep(states[0], states[1], k) then 1 else 0) + Corrections(states[1..], k)
  }

  /** Only the write-back corrects, and it locks the item in the same step. */
  lemma CorrectionLocks(s: State, t: State, k: nat, p: Policy)
    requires p.Valid() && Next(s, t, p) && CorrectedStep(s, t, k)
    ensures Confirmed(t, k)
  {
    assert s.items[k].Decided();
    if exists l, later :: WriteItem(s, t, l, later, p) {
      var l, later :| WriteItem(s, t, l, later, p);
      assert l == k;
      WriteCorrectionLocks(s.items[k], s.phase.stats, later, p);
    }
  }

  lemma WriteCorrectionLocks(i: Item, stats: map<string, Stats>, later: int, p: Policy)
    requires p.Valid()
    requires Corrected(i, Written(i, stats, later, p))
    ensures Written(i, stats, later, p).Locked()
  {
  }

  lemma {:induction false} ConfirmedIsNotCorrected(states: seq<State>, k: nat, p: Policy)
    requires History(states, p) && Confirmed(states[0], k)
    ensures Corrections(states, k) == 0
  {
    if |states| >= 2 {
      StepKeepsConfirmed(states[0], states[1], k, p);
      if l, now :| WriteCancel(states[0], states[1], l, now) {
        assert l == k ==> k !in states[1].cancelling;
      }
      TailIsHistory(states, p);
      ConfirmedIsNotCorrected(states[1..], k, p);
    }
  }

  lemma TailIsHistory(states: seq<State>, p: Policy)
    requires History(states, p) && |states| >= 2
    ensures History(states[1..], p)
  {
    var tail := states[1..];
    forall n | 0 <= n < |tail| - 1
      ensures Next(tail[n], tail[n + 1], p)
    {
      assert tail[n] == states[n + 1] && tail[n + 1] == states[n + 2];
    }
  }

  /** Over every history each item undergoes at most one correction, its cancellation aside. */
  lemma {:induction false} AtMostOneCorrection(states: seq<State>, k: nat, p: Policy)
    requires p.Valid() && History(states, p)
    ensures Corrections(states, k) <= 1
  {
    if |states| >= 2 {
      TailIsHistory(states, p);
      if CorrectedStep(states[0], states[1], k) {
        CorrectionLocks(states[0], states[1], k, p);
        ConfirmedIsNotCorrected(states[1..], k, p);
      } else {
        AtMostOneCorrection(states[1..], k, p);
      }
    }
  }
}
