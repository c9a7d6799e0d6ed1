/** The tracker among everything that can happen between its awaits: submissions, cancellations, the
    steps of a poll, and what EC2 itself does. */
module Ec2Protocol {
  import opened Wrappers
  import opened Ec2

  /** Where the probe of one instance stands; a probe that has returned is no longer listed. */
  datatype Stage = Starting(listed: Option<string>) | AskingSentinel | Archiving(exitCode: int)

  /** A probe holds the record it was started on; `displaced` is that record once a recording has
      registered another one under the same id. */
  datatype Probe = Probe(stage: Stage, displaced: Option<Record>)

  /** One poll at a time: waiting for EC2 to answer, for the answer to arrive, or probing. `live` is
      what EC2 ran when it answered. */
  datatype Control =
    | NoPoll
    | Describing
    | Answered(listed: seq<Described>, live: set<string>)
    | Probing(probes: map<string, Probe>)

  /** `inFlight` holds the ids of submissions that have passed the limit check and are not recorded
      yet, `own` all ids submitted here; `running` and `ended` are what EC2 runs and has run. */
  datatype State = State(
    tracker: Tracker, control: Control, inFlight: set<string>, own: set<string>,
    running: set<string>, ended: set<string>, cancelled: set<string>)

  const START := State(Tracker(map[], map[]), NoPoll, {}, {}, {}, {}, {})

  // ----- Submissions -----

  /** The limit check passes; `id` is what RunInstances is going to return. */
  ghost predicate Admit(s: State, t: State, id: string, max: nat) {
    && |s.tracker.instances| < max
    && id !in s.own + s.running + s.ended
    && t == s.(inFlight := s.inFlight + {id}, own := s.own + {id})
  }

  function Displaced(c: Control, id: string, r: Record): Control {
    if c.Probing? && id in c.probes && c.probes[id].displaced.None?
    then Probing(c.probes[id := c.probes[id].(displaced := Some(r))])
    else c
  }

  /** RunInstances has returned, and the instance is recorded, whatever is known of it by now. */
  ghost predicate RecordLaunch(s: State, t: State, id: string) {
    && id in s.inFlight && id in s.running + s.ended
    && t == s.(tracker := Recorded(s.tracker, id), control := Displaced(s.control, id, RecordOf(s.tracker, id)),
               inFlight := s.inFlight - {id})
  }

  /** RunInstances has raised. */
  ghost predicate Abandon(s: State, t: State, id: string) {
    id in s.inFlight && t == s.(inFlight := s.inFlight - {id}, own := s.own - {id})
  }

  ghost predicate Cancel(s: State, t: State, id: string) {
    t == s.(tracker := Cancelled(s.tracker, id), cancelled := s.cancelled + {id})
  }

  // ----- EC2 -----

  /** EC2 starts an instance, one submitted here or by someone else. */
  ghost predicate Launch(s: State, t: State, id: string) {
    && id !in s.running + s.ended && (id in s.inFlight || id !in s.own)
    && t == s.(running := s.running + {id})
  }

  ghost predicate End(s: State, t: State, id: string) {
    id in s.running && t == s.(running := s.running - {id}, ended := s.ended + {id})
  }

  // ----- The poll -----

  ghost predicate BeginPoll(s: State, t: State) {
    s.control.NoPoll? && t == s.(control := Describing)
  }

  /** A description lists every instance that runs, none of these as ending, and nothing that never ran. */
  ghost predicate Describes(listed: seq<Described>, running: set<string>, ended: set<string>) {
    forall id ::
      && (id in running ==> StateOf(listed, id).Some? && !Ending(StateOf(listed, id).value))
      && (StateOf(listed, id).Some? ==> id in running + ended)
  }

  /** EC2 answers; the answer is still to arrive. */
  ghost predicate Answer(s: State, t: State, listed: seq<Described>) {
    && s.control.Describing? && Describes(listed, s.running, s.ended)
    && t == s.(control := Answered(listed, s.running))
  }

  /** The answer arrives: unknown instances are adopted, and every tracked one gets a probe. */
  ghost predicate GotAnswer(s: State, t: State) {
    && s.control.Answered?
    && var tracker := Adopted(s.tracker, s.control.listed);
       t == s.(tracker := tracker,
               control := Probing(map id | id in tracker.instances :: Probe(Starting(StateOf(s.control.listed, id)), None)))
  }

  /** The record a probe works on. */
  function ProbedRecord(s: State, id: string): Record
    requires s.control.Probing? && id in s.control.probes
  {
    s.control.probes[id].displaced.GetOr(RecordOf(s.tracker, id))
  }

  ghost predicate StartProbe(s: State, t: State, id: string) {
    && s.control.Probing? && id in s.control.probes && s.control.probes[id].stage.Starting?
    && var probe := s.control.probes[id];
       t == s.(tracker := ProbeStarted(s.tracker, id, ProbedRecord(s, id), probe.stage.listed),
               control := Probing(if AsksSentinel(probe.stage.listed)
                                  then s.control.probes[id := probe.(stage := AskingSentinel)]
                                  else s.control.probes - {id}))
  }

  ghost predicate GotSentinel(s: State, t: State, id: string, code: int) {
    && s.control.Probing? && id in s.control.probes && s.control.probes[id].stage.AskingSentinel?
    && t == s.(control := Probing(s.control.probes[id := s.control.probes[id].(stage := Archiving(code))]))
  }

  /** The log is archived and the instance terminated; the verdict is filed. */
  ghost predicate FinishProbe(s: State, t: State, id: string) {
    && s.control.Probing? && id in s.control.probes && s.control.probes[id].stage.Archiving?
    && t == s.(tracker := ProbeFinished(s.tracker, id, s.control.probes[id].stage.exitCode),
               control := Probing(s.control.probes - {id}))
  }

  /** A probe past its first await gives up: no sentinel yet, or an exception, retried next poll. */
  ghost predicate LeaveProbe(s: State, t: State, id: string) {
    && s.control.Probing? && id in s.control.probes && !s.control.probes[id].stage.Starting?
    && t == s.(control := Probing(s.control.probes - {id}))
  }

  /** All probes have returned, or the description failed. */
  ghost predicate EndPoll(s: State, t: State) {
    && (s.control.Describing? || s.control.Answered? || (s.control.Probing? && s.control.probes == map[]))
    && t == s.(control := NoPoll)
  }

  // ----- Histories -----

  /** What happened in a step. */
  datatype Event =
    | Admitting(id: string) | Recording(id: string) | Abandoning(id: string) | Cancelling(id: string)
    | Launching(id: string) | Stopping(id: string)
    | Beginning | Answering(listed: seq<Described>) | Arriving
    | StartingProbe(id: string) | Sentinel(id: string, code: int) | Finishing(id: string) | Leaving(id: string) | EndingPoll

  ghost predicate Step(s: State, t: State, e: Event, max: nat) {
    match e
    case Admitting(id) => Admit(s, t, id, max)
    case Recording(id) => RecordLaunch(s, t, id)
    case Abandoning(id) => Abandon(s, t, id)
    case Cancelling(id) => Cancel(s, t, id)
    case Launching(id) => Launch(s, t, id)
    case Stopping(id) => End(s, t, id)
    case Beginning => BeginPoll(s, t)
    case Answering(listed) => Answer(s, t, listed)
    case Arriving => GotAnswer(s, t)
    case StartingProbe(id) => StartProbe(s, t, id)
    case Sentinel(id, code) => GotSentinel(s, t, id, code)
    case Finishing(id) => FinishProbe(s, t, id)
    case Leaving(id) => LeaveProbe(s, t, id)
    case EndingPoll => EndPoll(s, t)
  }

  /** The states of a history, and the events between them. */
  datatype History = History(states: seq<State>, events: seq<Event>) {
    ghost predicate Valid(max: nat) {
      && |states| == |events| + 1 && states[0] == START
      && forall n :: 0 <= n < |events| ==> Step(states[n], states[n + 1], events[n], max)
    }

    function Last(): State
      requires states != []
    {
      states[|states| - 1]
    }

    function Then(e: Event, t: State): History {
      History(states + [t], events + [e])
    }
  }

  const BEGINNING := History([START], [])

  lemma ThenIsValid(h: History, e: Event, t: State, max: nat)
    requires h.Valid(max) && Step(h.Last(), t, e, max)
    ensures h.Then(e, t).Valid(max) && h.Then(e, t).Last() == t
  {
    var g := h.Then(e, t);
    forall n | 0 <= n < |g.events|
      ensures Step(g.states[n], g.states[n + 1], g.events[n], max)
    {
      if n < |h.events| {
        assert g.states[n] == h.states[n] && g.states[n + 1] == h.states[n + 1];
      }
    }
  }

  // ----- What every step keeps -----

  const EARLY := Record(Some(-1), Some(TerminatedEarly))

  predicate FinalVerdict(r: Record) {
    r.verdict == Some(Succeeded) || r.verdict == Some(Failed)
  }

  /** Completed records have an exit code and a verdict, and SUCCEEDED means exit code 0. */
  predicate WellFiled(r: Record) {
    r == EARLY || (r.exitCode.Some? && r == Verdicted(r.exitCode.value))
  }

  predicate Ran(s: State, id: string) {
    id in s.running || id in s.ended
  }

  /** What holds of one id in every state. */
  predicate IdOk(s: State, id: string) {
    && (s.tracker.Knows(id) ==> Ran(s, id))
    && !(id in s.running && id in s.ended)
    && (id in s.tracker.instances ==> s.tracker.instances[id] == NEW)
    && (id in s.tracker.completed ==> WellFiled(s.tracker.completed[id]))
    && (id in s.inFlight ==> id in s.own)
    && (id in s.own ==> id in s.inFlight || s.tracker.Knows(id))
    && ProbeOk(s, id)
    && AnswerOk(s, id)
  }

  /** A probe works on a record without verdict, or one that was cancelled meanwhile. */
  predicate ProbeOk(s: State, id: string) {
    s.control.Probing? && id in s.control.probes ==>
      && s.tracker.Knows(id)
      && (ProbedRecord(s, id) == NEW || ProbedRecord(s, id) == EARLY)
  }

  /** An answer still describes what has been running since. */
  predicate AnswerOk(s: State, id: string) {
    s.control.Answered? ==>
      var said := StateOf(s.control.listed, id);
      && (id in s.control.live ==> Ran(s, id) && said.Some? && !Ending(said.value))
      && (said.Some? ==> id in s.control.live || id in s.ended)
  }

  ghost predicate Ok(s: State) {
    forall id :: IdOk(s, id)
  }

  /** What no step takes back. */
  predicate Lasting(s: State, t: State, id: string) {
    && (s.tracker.Knows(id) ==> t.tracker.Knows(id))
    && (id in s.tracker.completed ==> id in t.tracker.completed)
    && (Ran(s, id) ==> Ran(t, id))
    && (id in s.ended ==> id in t.ended)
    && (id in s.cancelled ==> id in t.cancelled)
  }

  /** Adoption adds listed ids that were unknown, without verdict. */
  lemma {:induction false} AdoptionAddsNew(t: Tracker, listed: seq<Described>)
    ensures var after := Adopted(t, listed);
            && after.completed == t.completed
            && (forall id :: id in t.instances ==> id in after.instances && after.instances[id] == t.instances[id])
            && (forall id :: id in after.instances && id !in t.instances ==>
                  after.instances[id] == NEW && id !in t.completed && StateOf(listed, id).Some?)
  {
    if listed != [] {
      AdoptionAddsNew(t, listed[..|listed| - 1]);
    }
  }

  lemma SubmissionKeeps(s: State, t: State, e: Event, id: string, max: nat)
    requires Ok(s) && Step(s, t, e, max) && (e.Admitting? || e.Recording? || e.Abandoning? || e.Cancelling?)
    ensures IdOk(t, id) && Lasting(s, t, id)
  {
    assert IdOk(s, id) && IdOk(s, e.id);
  }

  lemma CloudKeeps(s: State, t: State, e: Event, id: string, max: nat)
    requires Ok(s) && Step(s, t, e, max) && (e.Launching? || e.Stopping? || e.Beginning? || e.Answering? || e.EndingPoll?)
    ensures IdOk(t, id) && Lasting(s, t, id)
  {
    assert IdOk(s, id);
  }

  lemma ArrivalKeeps(s: State, t: State, id: string)
    requires Ok(s) && GotAnswer(s, t)
    ensures IdOk(t, id) && Lasting(s, t, id)
  {
    assert IdOk(s, id);
    AdoptionAddsNew(s.tracker, s.control.listed);
  }

  lemma ProbeKeeps(s: State, t: State, e: Event, id: string, max: nat)
    requires Ok(s) && Step(s, t, e, max) && (e.StartingProbe? || e.Sentinel? || e.Finishing? || e.Leaving?)
    ensures IdOk(t, id) && Lasting(s, t, id)
  {
    assert IdOk(s, id) && IdOk(s, e.id);
  }

  lemma StepKeeps(s: State, t: State, e: Event, id: string, max: nat)
    requires Ok(s) && Step(s, t, e, max)
    ensures IdOk(t, id) && Lasting(s, t, id)
  {
    match e
    case Admitting(_) => SubmissionKeeps(s, t, e, id, max);
    case Recording(_) => SubmissionKeeps(s, t, e, id, max);
    case Abandoning(_) => SubmissionKeeps(s, t, e, id, max);
    case Cancelling(_) => SubmissionKeeps(s, t, e, id, max);
    case Arriving => ArrivalKeeps(s, t, id);
    case StartingProbe(_) => ProbeKeeps(s, t, e, id, max);
    case Sentinel(_, _) => ProbeKeeps(s, t, e, id, max);
    case Finishing(_) => ProbeKeeps(s, t, e, id, max);
    case Leaving(_) => ProbeKeeps(s, t, e, id, max);
    case _ => CloudKeeps(s, t, e, id, max);
  }

  lemma StartIsOk()
    ensures Ok(START)
  {
  }

  lemma StepKeepsOk(s: State, t: State, e: Event, max: nat)
    requires Ok(s) && Step(s, t, e, max)
    ensures Ok(t)
  {
    forall id
      ensures IdOk(t, id)
    {
      StepKeeps(s, t, e, id, max);
    }
  }

  lemma {:induction false} AlwaysOk(h: History, max: nat, n: nat)
    requires h.Valid(max) && n < |h.states|
    ensures Ok(h.states[n])
  {
    if n == 0 {
      StartIsOk();
    } else {
      AlwaysOk(h, max, n - 1);
      StepKeepsOk(h.states[n - 1], h.states[n], h.events[n - 1], max);
    }
  }

  lemma {:induction false} AlwaysLasting(h: History, max: nat, m: nat, n: nat, id: string)
    requires h.Valid(max) && m <= n < |h.states|
    ensures Lasting(h.states[m], h.states[n], id)
    decreases n - m
  {
    if m < n {
      AlwaysLasting(h, max, m, n - 1, id);
      AlwaysOk(h, max, n - 1);
      StepKeeps(h.states[n - 1], h.states[n], h.events[n - 1], id, max);
    }
  }
}
