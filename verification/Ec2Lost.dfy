/** When the tracker gives up on an instance that EC2 still runs: exactly when it was recorded while an
    answer given before its start was on the way. */
module Ec2Lost {
  import opened Wrappers
  import opened Ec2
  import opened Ec2Protocol

  /** The instance is filed as terminated early, or about to be by a probe that has nothing to wait for. */
  predicate WrittenOff(s: State, id: string) {
    || (id in s.tracker.completed && s.tracker.completed[id].verdict == Some(TerminatedEarly))
    || (s.control.Probing? && id in s.control.probes && s.control.probes[id].stage == Starting(None))
  }

  /** EC2 answered before it started the instance, and the instance is recorded when that answer
      arrives. */
  predicate Missed(s: State, t: State, id: string) {
    s.control.Answered? && t.control.Probing? && id in s.tracker.instances && id !in s.control.live
  }

  predicate MissedAt(h: History, j: nat, id: string) {
    j + 1 < |h.states| && Missed(h.states[j], h.states[j + 1], id)
  }

  /** An instance that runs and was not cancelled. */
  predicate Alive(s: State, id: string) {
    id in s.running && id !in s.cancelled
  }

  /** What holds of it in every state: adopted in flight it is in the next answer; no probe thinks it
      is ending; and once written off it is neither in flight nor tracked nor probed. */
  predicate AliveOk(s: State, id: string) {
    && (s.control.Answered? && id in s.inFlight && s.tracker.Knows(id) ==> id in s.control.live)
    && (s.control.Probing? && id in s.control.probes && s.control.probes[id].stage.Starting? ==>
          var listed := s.control.probes[id].stage.listed;
          if listed.Some? then !Ending(listed.value) else id !in s.inFlight)
    && (id in s.tracker.completed && s.tracker.completed[id].verdict == Some(TerminatedEarly) ==>
          && id !in s.inFlight && id !in s.tracker.instances
          && !(s.control.Probing? && id in s.control.probes))
  }

  /** The conclusion about one step. */
  ghost predicate StepSays(s: State, t: State, id: string) {
    && AliveOk(t, id)
    && (WrittenOff(t, id) <==> WrittenOff(s, id) || Missed(s, t, id))
  }

  lemma SubmissionSays(s: State, t: State, e: Event, id: string, max: nat)
    requires Ok(s) && Step(s, t, e, max) && (e.Admitting? || e.Recording? || e.Abandoning? || e.Cancelling?)
    requires Alive(s, id) && AliveOk(s, id) && Alive(t, id)
    ensures StepSays(s, t, id)
  {
    assert IdOk(s, id);
  }

  lemma CloudSays(s: State, t: State, e: Event, id: string, max: nat)
    requires Ok(s) && Step(s, t, e, max) && (e.Launching? || e.Stopping? || e.Beginning? || e.Answering? || e.EndingPoll?)
    requires Alive(s, id) && AliveOk(s, id) && Alive(t, id)
    ensures StepSays(s, t, id)
  {
    assert IdOk(s, id);
  }

  lemma ArrivalSays(s: State, t: State, id: string)
    requires Ok(s) && GotAnswer(s, t)
    requires Alive(s, id) && AliveOk(s, id)
    ensures StepSays(s, t, id)
  {
    assert IdOk(s, id);
    AdoptionAddsNew(s.tracker, s.control.listed);
  }

  lemma ProbeSays(s: State, t: State, e: Event, id: string, max: nat)
    requires Ok(s) && Step(s, t, e, max) && (e.StartingProbe? || e.Sentinel? || e.Finishing? || e.Leaving?)
    requires Alive(s, id) && AliveOk(s, id)
    ensures StepSays(s, t, id)
  {
    assert IdOk(s, id);
  }

  lemma AliveStep(s: State, t: State, e: Event, id: string, max: nat)
    requires Ok(s) && Step(s, t, e, max)
    requires Alive(s, id) && AliveOk(s, id) && Alive(t, id)
    ensures StepSays(s, t, id)
  {
    match e
    case Admitting(_) => SubmissionSays(s, t, e, id, max);
    case Recording(_) => SubmissionSays(s, t, e, id, max);
    case Abandoning(_) => SubmissionSays(s, t, e, id, max);
    case Cancelling(_) => SubmissionSays(s, t, e, id, max);
    case Arriving => ArrivalSays(s, t, id);
    case StartingProbe(_) => ProbeSays(s, t, e, id, max);
    case Sentinel(_, _) => ProbeSays(s, t, e, id, max);
    case Finishing(_) => ProbeSays(s, t, e, id, max);
    case Leaving(_) => ProbeSays(s, t, e, id, max);
    case _ => CloudSays(s, t, e, id, max);
  }

  /** An instance that EC2 starts just now is unknown. */
  lemma FreshStep(s: State, t: State, e: Event, id: string, max: nat)
    requires Ok(s) && Step(s, t, e, max)
    requires !Alive(s, id) && Alive(t, id)
    ensures AliveOk(t, id) && !WrittenOff(t, id) && !s.tracker.Knows(id)
  {
    assert IdOk(s, id);
  }

  lemma UnknownWasNotMissed(h: History, max: nat, j: nat, n: nat, id: string)
    requires h.Valid(max) && j <= n < |h.states| && !h.states[n].tracker.Knows(id)
    ensures !MissedAt(h, j, id)
  {
    AlwaysLasting(h, max, j, n, id);
  }

  ghost predicate EverMissed(h: History, n: nat, id: string) {
    exists j :: 0 <= j < n && MissedAt(h, j, id)
  }

  lemma {:induction false} AliveHistory(h: History, max: nat, n: nat, id: string)
    requires h.Valid(max) && n < |h.states| && Alive(h.states[n], id)
    ensures AliveOk(h.states[n], id)
    ensures WrittenOff(h.states[n], id) <==> EverMissed(h, n, id)
  {
    assert n > 0;
    var s, t, e := h.states[n - 1], h.states[n], h.events[n - 1];
    AlwaysOk(h, max, n - 1);
    if Alive(s, id) {
      AliveHistory(h, max, n - 1, id);
      AliveStep(s, t, e, id, max);
      assert EverMissed(h, n, id) <==> EverMissed(h, n - 1, id) || MissedAt(h, n - 1, id);
    } else {
      FreshStep(s, t, e, id, max);
      forall j: nat | j < n
        ensures !MissedAt(h, j, id)
      {
        UnknownWasNotMissed(h, max, j, n - 1, id);
      }
    }
  }

  /** Over every history, an instance that runs and was not cancelled is written off as terminated early
      if and only if it was recorded while an answer given before its start was on the way. Between
      polls written off means filed. */
  lemma LostExactly(h: History, max: nat, n: nat, id: string)
    requires h.Valid(max) && n < |h.states| && Alive(h.states[n], id)
    ensures WrittenOff(h.states[n], id) <==> EverMissed(h, n, id)
    ensures h.states[n].control.NoPoll? ==>
              ((id in h.states[n].tracker.completed && h.states[n].tracker.completed[id] == EARLY) <==> EverMissed(h, n, id))
  {
    AliveHistory(h, max, n, id);
    AlwaysOk(h, max, n);
    assert IdOk(h.states[n], id);
  }

  /** The probe with nothing to wait for can always take its step, and files the instance. */
  lemma WrittenOffIsFiled(s: State, id: string) returns (t: State)
    requires Ok(s) && s.control.Probing? && id in s.control.probes && s.control.probes[id].stage == Starting(None)
    ensures StartProbe(s, t, id)
    ensures id in t.tracker.completed && t.tracker.completed[id] == EARLY && id !in t.tracker.instances
  {
    assert IdOk(s, id);
    t := s.(tracker := ProbeStarted(s.tracker, id, ProbedRecord(s, id), None), control := Probing(s.control.probes - {id}));
  }

  /** One such history: a poll has its answer, an instance is submitted, started and recorded, the answer
      arrives, and the running instance is filed as terminated early. */
  lemma RecordedMeanwhileIsLost(id: string) returns (h: History)
    ensures h.Valid(1) && Alive(h.Last(), id)
    ensures id in h.Last().tracker.completed && h.Last().tracker.completed[id] == EARLY
  {
    var answered := START.(control := Answered([], {}));
    h := AnsweredNothing();
    var admitted := answered.(inFlight := {id}, own := {id});
    ThenIsValid(h, Admitting(id), admitted, 1);
    h := h.Then(Admitting(id), admitted);
    var launched := admitted.(running := {id});
    ThenIsValid(h, Launching(id), launched, 1);
    h := h.Then(Launching(id), launched);
    var recorded := launched.(tracker := Tracker(map[id := NEW], map[]), inFlight := {});
    ThenIsValid(h, Recording(id), recorded, 1);
    h := h.Then(Recording(id), recorded);
    var arrived := recorded.(control := Probing(map[id := Probe(Starting(None), None)]));
    assert GotAnswer(recorded, arrived) by {
      assert arrived.control.probes == map i | i in recorded.tracker.instances :: Probe(Starting(StateOf([], i)), None);
    }
    ThenIsValid(h, Arriving, arrived, 1);
    h := h.Then(Arriving, arrived);
    var filed := arrived.(tracker := Tracker(map[], map[id := EARLY]), control := Probing(map[]));
    assert map[id := NEW] - {id} == map[];
    assert map[id := Probe(Starting(None), None)] - {id} == map[];
    ThenIsValid(h, StartingProbe(id), filed, 1);
    h := h.Then(StartingProbe(id), filed);
  }

  lemma AnsweredNothing() returns (h: History)
    ensures h.Valid(1) && h.Last() == START.(control := Answered([], {}))
  {
    h := BEGINNING;
    var asked := START.(control := Describing);
    ThenIsValid(h, Beginning, asked, 1);
    h := h.Then(Beginning, asked);
    var answered := START.(control := Answered([], {}));
    ThenIsValid(h, Answering([]), answered, 1);
    h := h.Then(Answering([]), answered);
  }
}
