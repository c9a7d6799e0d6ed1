/** What a poll of the tracker gets done: instances that end are filed, and finished tasks get the
    verdict of their exit code. */
module Ec2Liveness {
  import opened Wrappers
  import opened Ec2
  import opened Ec2Protocol

  // ----- One poll of a history -----

  /** The answer arrives in step a, and the poll it belongs to ends, all probes having returned, in step b. */
  ghost predicate PollSpan(h: History, a: nat, b: nat) {
    && a < b < |h.events| && |h.states| == |h.events| + 1
    && h.events[a] == Arriving && h.events[b] == EndingPoll && NoEndBetween(h, a, b)
  }

  ghost predicate NoEndBetween(h: History, a: nat, b: nat)
    requires b <= |h.events|
  {
    forall n :: a < n < b ==> h.events[n] != EndingPoll
  }

  ghost predicate NotRecordedBetween(h: History, a: nat, b: nat, id: string)
    requires b <= |h.events|
  {
    forall n :: a < n < b ==> h.events[n] != Recording(id)
  }

  /** Whatever the answer says of the instance, it says that it ends or has ended. */
  predicate OverInAnswer(listed: seq<Described>, id: string) {
    forall i :: 0 <= i < |listed| && listed[i].id == id ==>
      listed[i].state in ["shutting-down", "terminated", "stopped", "stopping"]
  }

  lemma {:induction false} StateIsListed(listed: seq<Described>, id: string)
    ensures StateOf(listed, id).Some? <==> exists i :: 0 <= i < |listed| && listed[i].id == id
    ensures StateOf(listed, id).Some? ==>
              exists i :: 0 <= i < |listed| && listed[i].id == id && listed[i].state == StateOf(listed, id).value
  {
    if listed != [] && listed[|listed| - 1].id != id {
      var init := listed[..|listed| - 1];
      StateIsListed(init, id);
      assert forall i :: 0 <= i < |init| ==> init[i] == listed[i];
    }
  }

  // ----- Ending instances -----

  /** The probe has filed the instance, or still has to; nobody records it anew. */
  predicate BeingFiled(s: State, id: string) {
    && s.control.Probing?
    && (if id in s.control.probes then
          && s.control.probes[id].displaced.None?
          && s.control.probes[id].stage.Starting?
          && (s.control.probes[id].stage.listed.None?
              || s.control.probes[id].stage.listed.value in ["shutting-down", "terminated", "stopped", "stopping"])
        else
          id in s.tracker.completed && id !in s.tracker.instances)
  }

  lemma FilingStep(s: State, t: State, e: Event, id: string, max: nat)
    requires Ok(s) && Step(s, t, e, max) && BeingFiled(s, id)
    requires e != Recording(id) && e != EndingPoll
    ensures BeingFiled(t, id)
  {
    assert IdOk(s, id);
  }

  lemma ArrivalStartsFiling(s: State, t: State, id: string)
    requires GotAnswer(s, t) && OverInAnswer(s.control.listed, id) && id in t.tracker.instances
    ensures BeingFiled(t, id)
  {
    StateIsListed(s.control.listed, id);
  }

  /** Every step before n keeps what the probe is doing. */
  ghost predicate FilingKept(h: History, a: nat, n: nat, id: string)
    requires n < |h.states|
  {
    forall m :: a < m < n && BeingFiled(h.states[m], id) ==> BeingFiled(h.states[m + 1], id)
  }

  lemma StepsKeepFiling(h: History, max: nat, a: nat, n: nat, id: string)
    requires h.Valid(max) && n < |h.states| && NoEndBetween(h, a, n) && NotRecordedBetween(h, a, n, id)
    ensures FilingKept(h, a, n, id)
  {
    forall m | a < m < n && BeingFiled(h.states[m], id)
      ensures BeingFiled(h.states[m + 1], id)
    {
      AlwaysOk(h, max, m);
      FilingStep(h.states[m], h.states[m + 1], h.events[m], id, max);
    }
  }

  lemma {:induction false} FilingGoesOn(h: History, a: nat, n: nat, m: nat, id: string)
    requires a < m <= n < |h.states| && FilingKept(h, a, n, id) && BeingFiled(h.states[a + 1], id)
    ensures BeingFiled(h.states[m], id)
    decreases m
  {
    if m > a + 1 {
      FilingGoesOn(h, a, n, m - 1, id);
    }
  }

  /** Over every history: when a poll whose answer arrived comes to its end, every instance that was
      tracked on arrival and that the answer lists as ending or ended, or not at all, is filed and no
      longer tracked, unless it was recorded again meanwhile. */
  lemma EndedIsFiled(h: History, max: nat, a: nat, b: nat, id: string)
    requires h.Valid(max) && PollSpan(h, a, b)
    requires id in h.states[a + 1].tracker.instances
    requires h.states[a].control.Answered? && OverInAnswer(h.states[a].control.listed, id)
    requires NotRecordedBetween(h, a, b, id)
    ensures id in h.states[b + 1].tracker.completed && id !in h.states[b + 1].tracker.instances
  {
    assert Step(h.states[a], h.states[a + 1], h.events[a], max);
    ArrivalStartsFiling(h.states[a], h.states[a + 1], id);
    StepsKeepFiling(h, max, a, b, id);
    FilingGoesOn(h, a, b, b, id);
    assert Step(h.states[b], h.states[b + 1], h.events[b], max);
  }

  // ----- Finished tasks -----

  /** The sentinel's code is on its way to being filed, or the probe has returned. */
  predicate CodeKept(s: State, id: string, code: int) {
    s.control.Probing? && (id in s.control.probes ==> s.control.probes[id].stage == Archiving(code))
  }

  lemma CodeStep(s: State, t: State, e: Event, id: string, code: int, max: nat)
    requires Step(s, t, e, max) && CodeKept(s, id, code) && e != EndingPoll
    ensures CodeKept(t, id, code)
  {
  }

  lemma {:induction false} CodeIsKept(h: History, max: nat, c: nat, n: nat, id: string, code: int)
    requires h.Valid(max) && c < n < |h.states| && h.events[c] == Sentinel(id, code) && NoEndBetween(h, c, n)
    ensures CodeKept(h.states[n], id, code)
    decreases n
  {
    assert Step(h.states[n - 1], h.states[n], h.events[n - 1], max);
    if n > c + 1 {
      CodeIsKept(h, max, c, n - 1, id, code);
      CodeStep(h.states[n - 1], h.states[n], h.events[n - 1], id, code, max);
    }
  }

  /** Over every history: once the sentinel of an instance was read, the probe files just its code:
      SUCCEEDED for 0, FAILED for anything else. */
  lemma SentinelDecides(h: History, max: nat, c: nat, d: nat, id: string, code: int)
    requires h.Valid(max) && c < d < |h.events| && NoEndBetween(h, c, d)
    requires h.events[c] == Sentinel(id, code) && h.events[d] == Finishing(id)
    ensures id in h.states[d + 1].tracker.completed && id !in h.states[d + 1].tracker.instances
    ensures var r := h.states[d + 1].tracker.completed[id];
            r.exitCode == Some(code) && r.verdict == Some(if code == 0 then Succeeded else Failed)
  {
    CodeIsKept(h, max, c, d, id, code);
    assert Step(h.states[d], h.states[d + 1], h.events[d], max);
  }

  // ----- Everything else is asked -----

  /** The answer lists the instance, and always in a state in which its task may have finished. */
  predicate UpInAnswer(listed: seq<Described>, id: string) {
    && (exists i :: 0 <= i < |listed| && listed[i].id == id)
    && forall i :: 0 <= i < |listed| && listed[i].id == id ==>
         listed[i].state !in ["pending", "shutting-down", "terminated", "stopped", "stopping"]
  }

  predicate BeingAsked(s: State, id: string) {
    && s.control.Probing? && id in s.control.probes
    && (s.control.probes[id].stage.Starting? ==>
          s.control.probes[id].stage.listed.Some?
          && s.control.probes[id].stage.listed.value !in ["pending", "shutting-down", "terminated", "stopped", "stopping"])
  }

  lemma AskingStep(s: State, t: State, e: Event, id: string, max: nat)
    requires Step(s, t, e, max) && BeingAsked(s, id) && e != EndingPoll
    requires e != Finishing(id) && e != Leaving(id)
    ensures BeingAsked(t, id)
  {
  }

  lemma ArrivalStartsAsking(s: State, t: State, id: string)
    requires GotAnswer(s, t) && UpInAnswer(s.control.listed, id) && id in t.tracker.instances
    ensures BeingAsked(t, id)
  {
    StateIsListed(s.control.listed, id);
  }

  lemma {:induction false} AskingGoesOn(h: History, max: nat, a: nat, n: nat, id: string)
    requires h.Valid(max) && a < n < |h.states| && BeingAsked(h.states[a + 1], id) && NoEndBetween(h, a, n)
    requires forall m :: a < m < n ==> h.events[m] != Finishing(id) && h.events[m] != Leaving(id)
    ensures BeingAsked(h.states[n], id)
    decreases n
  {
    if n > a + 1 {
      AskingGoesOn(h, max, a, n - 1, id);
      AskingStep(h.states[n - 1], h.states[n], h.events[n - 1], id, max);
    }
  }

  /** Over every history: a poll that ends has asked every other tracked instance, unless EC2 called it
      pending: its probe has filed a verdict or given up past its first await. */
  lemma RunningIsAsked(h: History, max: nat, a: nat, b: nat, id: string)
    requires h.Valid(max) && PollSpan(h, a, b)
    requires id in h.states[a + 1].tracker.instances
    requires h.states[a].control.Answered? && UpInAnswer(h.states[a].control.listed, id)
    ensures exists n :: a < n < b && (h.events[n] == Finishing(id) || h.events[n] == Leaving(id))
  {
    assert Step(h.states[a], h.states[a + 1], h.events[a], max);
    ArrivalStartsAsking(h.states[a], h.states[a + 1], id);
    if forall n :: a < n < b ==> h.events[n] != Finishing(id) && h.events[n] != Leaving(id) {
      AskingGoesOn(h, max, a, b, id);
      assert Step(h.states[b], h.states[b + 1], h.events[b], max);
    }
  }

  // ----- Adoption -----

  /** A described instance that runs under a tag of ours. */
  predicate Ours(d: Described) {
    d.taskId != "" && d.state !in ["terminated", "shutting-down", "stopped"]
  }

  /** Exactly what reconciling adds: the listed instances that carry a task tag, are not gone, and are in
      neither map; each with a record that has no verdict. The completed ones stay. */
  lemma {:induction false} AdoptedExactly(t: Tracker, listed: seq<Described>, id: string)
    ensures var after := Adopted(t, listed);
            && after.completed == t.completed
            && (id in after.instances <==>
                  || id in t.instances
                  || (id !in t.completed && exists i :: 0 <= i < |listed| && listed[i].id == id && Ours(listed[i])))
            && (id in after.instances ==> after.instances[id] == if id in t.instances then t.instances[id] else NEW)
  {
    if listed != [] {
      var init, d := listed[..|listed| - 1], listed[|listed| - 1];
      AdoptedExactly(t, init, id);
      AdoptedExactly(t, init, d.id);
      assert forall i :: 0 <= i < |init| ==> init[i] == listed[i];
      assert (exists i :: 0 <= i < |listed| && listed[i].id == id && Ours(listed[i])) <==>
        (exists i :: 0 <= i < |init| && init[i].id == id && Ours(init[i])) || (d.id == id && Ours(d)) by {
        if d.id == id && Ours(d) {
          assert listed[|init|] == d;
        }
      }
    }
  }
}
