/** The EC2 backend's bookkeeping: one record per instance, tracked until its verdict is in. */
module Ec2 {
  import opened Wrappers

  datatype Verdict = Succeeded | Failed | TerminatedEarly

  /** What the tracker decides about an instance. */
  datatype Record = Record(exitCode: Option<int>, verdict: Option<Verdict>)

  const NEW := Record(None, None)

  /** `_instances` and `_completed` */
  datatype Tracker = Tracker(instances: map<string, Record>, completed: map<string, Record>) {
    predicate Knows(id: string) {
      id in instances || id in completed
    }
  }

  /** One instance of a DescribeInstances response. */
  datatype Described = Described(id: string, state: string, taskId: string)

  predicate Gone(state: string) {
    state in ["terminated", "shutting-down", "stopped"]
  }

  predicate Ending(state: string) {
    state in ["shutting-down", "terminated", "stopped", "stopping"]
  }

  // ----- The steps between two awaits -----

  function EarlyEnd(r: Record): Record {
    Record(if r.exitCode.Some? then r.exitCode else Some(-1), Some(TerminatedEarly))
  }

  function Verdicted(exitCode: int): Record {
    Record(Some(exitCode), Some(if exitCode == 0 then Succeeded else Failed))
  }

  function RecordOf(t: Tracker, id: string): Record {
    if id in t.instances then t.instances[id] else Get(t.completed, id, NEW)
  }

  /** The record leaves the tracked instances and is filed as completed. */
  function Filed(t: Tracker, id: string, r: Record): Tracker {
    Tracker(t.instances - {id}, t.completed[id := r])
  }

  /** `submit_task` once RunInstances has returned; nothing is checked again. */
  function Recorded(t: Tracker, id: string): Tracker {
    t.(instances := t.instances[id := NEW])
  }

  /** `cancel_job`, once TerminateInstances has returned. */
  function Cancelled(t: Tracker, id: string): Tracker {
    if id in t.instances then Filed(t, id, EarlyEnd(t.instances[id])) else t
  }

  predicate Adoptable(t: Tracker, d: Described) {
    !Gone(d.state) && !t.Knows(d.id) && d.taskId != ""
  }

  /** The reconcile loop over the described instances. */
  function Adopted(t: Tracker, listed: seq<Described>): Tracker {
    if listed == [] then t
    else
      var before := Adopted(t, listed[..|listed| - 1]);
      var d := listed[|listed| - 1];
      if Adoptable(before, d) then Recorded(before, d.id) else before
  }

  /** The state an instance has in the response, if it is in there at all. */
  function StateOf(listed: seq<Described>, id: string): Option<string> {
    if listed == [] then None
    else if listed[|listed| - 1].id == id then Some(listed[|listed| - 1].state)
    else StateOf(listed[..|listed| - 1], id)
  }

  /** Must the probe ask the instance for its sentinel? */
  predicate AsksSentinel(state: Option<string>) {
    state.Some? && state.value != "pending" && !Ending(state.value)
  }

  /** `_probe_one` up to its first await, on a record that need no longer be the registered one. */
  function ProbeStarted(t: Tracker, id: string, probed: Record, state: Option<string>): Tracker {
    if state.None? || (Ending(state.value) && probed.verdict.None?) then Filed(t, id, EarlyEnd(probed)) else t
  }

  /** `_probe_one` after the log is archived and the instance terminated. */
  function ProbeFinished(t: Tracker, id: string, exitCode: int): Tracker {
    Filed(t, id, Verdicted(exitCode))
  }

  // ----- The backend object -----

  class InstanceState {
    const id: string
    const taskId: string
    var exitCode: Option<int>
    var terminalState: Option<Verdict>

    function View(): Record
      reads this
    {
      Record(exitCode, terminalState)
    }

    constructor (id: string, taskId: string)
      ensures this.id == id && View() == NEW
    {
      this.id, this.taskId := id, taskId;
      exitCode, terminalState := None, None;
    }
  }

  class EC2Backend {
    const maxInstances: nat
    var instances: map<string, InstanceState>
    var completed: map<string, InstanceState>

    /** Every record is filed under its own id. */
    ghost predicate Valid()
      reads this
    {
      && (forall id :: id in instances ==> instances[id].id == id)
      && (forall id :: id in completed ==> completed[id].id == id)
    }

    function View(): Tracker
      reads this, instances.Values, completed.Values
    {
      Tracker(map id | id in instances :: instances[id].View(), map id | id in completed :: completed[id].View())
    }

    constructor (maxInstances: nat)
      ensures Valid() && View() == Tracker(map[], map[]) && this.maxInstances == maxInstances
    {
      this.maxInstances := maxInstances;
      instances, completed := map[], map[];
    }

    lemma SameKeys()
      ensures View().instances.Keys == instances.Keys && View().completed.Keys == completed.Keys
      ensures |View().instances| == |instances|
    {
      assert |View().instances| == |View().instances.Keys| && |instances| == |instances.Keys|;
    }

    /** A new record is tracked under its id. */
    method Track(state: InstanceState)
      requires Valid() && state.View() == NEW
      modifies this`instances
      ensures Valid()
      ensures instances == old(instances)[state.id := state]
      ensures View() == Recorded(old(View()), state.id)
    {
      ghost var before := View();
      instances := instances[state.id := state];
      assert View().instances == before.instances[state.id := NEW];
    }

    /** `submit_task` before its await: the limit is checked, and that there is an image to run. */
    method AdmitTask(hasImage: bool) returns (admitted: bool)
      ensures admitted <==> |View().instances| < maxInstances && hasImage
    {
      SameKeys();
      admitted := |instances| < maxInstances && hasImage;
    }

    /** `submit_task` after its await: the id that RunInstances returned is tracked. */
    method RecordLaunch(launched: string, taskId: string)
      requires Valid()
      modifies this`instances
      ensures Valid()
      ensures View() == Recorded(old(View()), launched)
    {
      var state := new InstanceState(launched, taskId);
      Track(state);
    }

    /** The record of an id, once its verdict is in. */
    method File(state: InstanceState)
      requires Valid()
      modifies this
      ensures Valid()
      ensures instances == old(instances) - {state.id}
      ensures completed == old(completed)[state.id := state]
      ensures View() == Filed(old(View()), state.id, state.View())
    {
      ghost var before := View();
      completed := completed[state.id := state];
      instances := instances - {state.id};
      assert View().instances == before.instances - {state.id};
      assert View().completed == before.completed[state.id := state.View()];
    }

    /** The verdict is recorded and the record filed. */
    method FileAs(state: InstanceState, code: int, verdict: Verdict)
      requires Valid()
      modifies this, state
      ensures Valid()
      ensures View() == Filed(old(View()), state.id, Record(Some(code), Some(verdict)))
    {
      ghost var before := View();
      state.exitCode := Some(code);
      state.terminalState := Some(verdict);
      OnlyOneChanged(before, state);
      File(state);
      FiledOver(before, View(), state);
    }

    /** `cancel_job` after its await. */
    method CancelJob(jobId: string)
      requires Valid()
      modifies this, instances.Values
      ensures Valid()
      ensures View() == Cancelled(old(View()), jobId)
    {
      if jobId in instances {
        var state := instances[jobId];
        FileAs(state, state.exitCode.GetOr(-1), TerminatedEarly);
      }
    }

    /** The body of the reconcile loop. */
    method Adopt(d: Described)
      requires Valid()
      modifies this`instances
      ensures Valid()
      ensures View() == if Adoptable(old(View()), d) then Recorded(old(View()), d.id) else old(View())
      ensures forall id :: id in old(instances) ==> id in instances && instances[id] == old(instances)[id]
    {
      SameKeys();
      if Gone(d.state) || d.id in instances || d.id in completed || d.taskId == "" {
        return;
      }
      var state := new InstanceState(d.id, d.taskId);
      Track(state);
    }

    /** The reconcile loop and the snapshot of what is to be probed. */
    method Reconcile(listed: seq<Described>) returns (tracked: set<InstanceState>)
      requires Valid()
      modifies this`instances
      ensures Valid()
      ensures View() == Adopted(old(View()), listed)
      ensures tracked == instances.Values
    {
      for i := 0 to |listed|
        invariant Valid() && completed == old(completed)
        invariant View() == Adopted(old(View()), listed[..i])
        invariant forall id :: id in old(instances) ==> id in instances && instances[id] == old(instances)[id]
      {
        assert listed[..i + 1][..i] == listed[..i];
        Adopt(listed[i]);
      }
      assert listed[..|listed|] == listed;
      tracked := instances.Values;
    }

    /** `_probe_one` up to its first await: true when it goes on to ask for the sentinel. */
    method StartProbe(state: InstanceState, listed: Option<string>) returns (asks: bool)
      requires Valid()
      modifies this, state
      ensures Valid()
      ensures asks == AsksSentinel(listed)
      ensures View() == ProbeStarted(old(View()), state.id, old(state.View()), listed)
    {
      if listed.Some? && listed.value == "pending" {
        return false;
      }
      if listed.Some? && !Ending(listed.value) {
        return true;
      }
      if listed.None? || state.terminalState.None? {
        FileAs(state, state.exitCode.GetOr(-1), TerminatedEarly);
      }
      return false;
    }

    /** `_probe_one` after its last await. */
    method FinishProbe(state: InstanceState, code: int)
      requires Valid()
      modifies this, state
      ensures Valid()
      ensures View() == ProbeFinished(old(View()), state.id, code)
    {
      FileAs(state, code, if code == 0 then Succeeded else Failed);
    }

    /** `get_job_stats`: the verdicts of the queried ids that have one. */
    method GetJobStats(ids: seq<string>) returns (verdicts: map<string, Option<Verdict>>)
      requires Valid()
      ensures verdicts == map id | id in ids && id in View().completed :: View().completed[id].verdict
    {
      verdicts := map[];
      for i := 0 to |ids|
        invariant verdicts == map id | id in ids[..i] && id in View().completed :: View().completed[id].verdict
      {
        if ids[i] in completed {
          verdicts := verdicts[ids[i] := completed[ids[i]].terminalState];
        }
      }
      assert ids[..|ids|] == ids;
    }

    /** Changing one record changes the view at its id only. */
    lemma OnlyOneChanged(before: Tracker, state: InstanceState)
      requires Valid()
      requires before.instances.Keys == instances.Keys && before.completed.Keys == completed.Keys
      requires forall id :: id in instances && instances[id] != state ==> before.instances[id] == instances[id].View()
      requires forall id :: id in completed && completed[id] != state ==> before.completed[id] == completed[id].View()
      ensures View().instances - {state.id} == before.instances - {state.id}
      ensures View().completed - {state.id} == before.completed - {state.id}
    {
    }

    lemma FiledOver(before: Tracker, after: Tracker, state: InstanceState)
      requires after.instances == before.instances - {state.id}
      requires state.id in after.completed && after.completed[state.id] == state.View()
      requires after.completed - {state.id} == before.completed - {state.id}
      ensures after == Filed(before, state.id, state.View())
    {
      var m := before.completed[state.id := state.View()];
      forall id | id in m || id in after.completed
        ensures id in m && id in after.completed && m[id] == after.completed[id]
      {
        if id != state.id {
          assert id in before.completed - {state.id} <==> id in after.completed - {state.id};
          assert id in before.completed - {state.id} ==>
            (before.completed - {state.id})[id] == (after.completed - {state.id})[id];
        }
      }
      assert m == after.completed;
    }
  }
}
