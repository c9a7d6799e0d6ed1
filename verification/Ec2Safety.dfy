/** What the two maps and the limit are worth under every history, and exactly when. */
module Ec2Safety {
  import opened Wrappers
  import opened Ec2
  import opened Ec2Protocol

  // ----- One map for every id -----

  predicate InOneMap(s: State, id: string) {
    !(id in s.tracker.instances && id in s.tracker.completed)
  }

  /** Step k files the id as completed while its submission is still in flight. */
  predicate FiledInFlight(h: History, k: nat, id: string) {
    && k + 1 < |h.states|
    && id in h.states[k].inFlight && id !in h.states[k].tracker.completed && id in h.states[k + 1].tracker.completed
  }

  predicate RecordedAt(h: History, j: nat, id: string) {
    j < |h.events| && h.events[j] == Recording(id)
  }

  /** By state n the id has been completed between its launch and its recording, and recorded. */
  ghost predicate RecordedLate(h: History, n: nat, id: string) {
    exists k, j :: 0 <= k < j < n && FiledInFlight(h, k, id) && RecordedAt(h, j, id)
  }

  lemma NotLateBefore(h: History, m: nat, n: nat, id: string)
    requires m <= n && !RecordedLate(h, n, id)
    ensures !RecordedLate(h, m, id)
  {
  }

  lemma OverlapIsRecorded(s: State, t: State, e: Event, id: string, max: nat)
    requires Ok(s) && Step(s, t, e, max) && InOneMap(s, id) && !InOneMap(t, id)
    ensures e == Recording(id) && id in s.tracker.completed && id in s.inFlight
  {
    assert IdOk(s, id);
    if e.Arriving? {
      AdoptionAddsNew(s.tracker, s.control.listed);
    }
  }

  lemma FiledOrBefore(s: State, t: State, e: Event, id: string, max: nat)
    requires Ok(s) && Step(s, t, e, max)
    requires id in t.inFlight && id in t.tracker.completed
    ensures id in s.inFlight
  {
    assert IdOk(s, id);
    if e.Arriving? {
      AdoptionAddsNew(s.tracker, s.control.listed);
    }
  }

  /** An id in flight and completed was filed at some earlier step, in flight. */
  lemma {:induction false} FiledEarlier(h: History, max: nat, n: nat, id: string) returns (k: nat)
    requires h.Valid(max) && n < |h.states|
    requires id in h.states[n].inFlight && id in h.states[n].tracker.completed
    ensures k < n && FiledInFlight(h, k, id)
  {
    assert n > 0;
    AlwaysOk(h, max, n - 1);
    FiledOrBefore(h.states[n - 1], h.states[n], h.events[n - 1], id, max);
    if id in h.states[n - 1].tracker.completed {
      k := FiledEarlier(h, max, n - 1, id);
    } else {
      k := n - 1;
    }
  }

  /** An id gets into both maps by a late recording. */
  lemma {:induction false} OverlapIsLate(h: History, max: nat, n: nat, id: string)
    requires h.Valid(max) && n < |h.states|
    requires !RecordedLate(h, n, id)
    ensures InOneMap(h.states[n], id)
  {
    if n > 0 {
      NotLateBefore(h, n - 1, n, id);
      OverlapIsLate(h, max, n - 1, id);
      AlwaysOk(h, max, n - 1);
      if !InOneMap(h.states[n], id) {
        OverlapIsRecorded(h.states[n - 1], h.states[n], h.events[n - 1], id, max);
        var k := FiledEarlier(h, max, n - 1, id);
        assert RecordedAt(h, n - 1, id);
        assert RecordedLate(h, n, id);
      }
    }
  }

  lemma LateOverlaps(h: History, max: nat, k: nat, j: nat, id: string)
    requires h.Valid(max) && k < j < |h.events|
    requires FiledInFlight(h, k, id) && RecordedAt(h, j, id)
    ensures !InOneMap(h.states[j + 1], id)
  {
    AlwaysLasting(h, max, k + 1, j, id);
    assert Step(h.states[j], h.states[j + 1], h.events[j], max);
  }

  /** Over every history, up to any state: an id has always been in at most one of the two maps if and
      only if it has not been completed between its launch and its recording. */
  lemma OneMapExactly(h: History, max: nat, n: nat, id: string)
    requires h.Valid(max) && n < |h.states|
    ensures (forall m :: 0 <= m <= n ==> InOneMap(h.states[m], id)) <==> !RecordedLate(h, n, id)
  {
    if RecordedLate(h, n, id) {
      var k, j :| 0 <= k < j < n && FiledInFlight(h, k, id) && RecordedAt(h, j, id);
      LateOverlaps(h, max, k, j, id);
    } else {
      forall m | 0 <= m <= n
        ensures InOneMap(h.states[m], id)
      {
        NotLateBefore(h, m, n, id);
        OverlapIsLate(h, max, m, id);
      }
    }
  }

  /** In every state of every history, whatever is recorded when: completed records have an exit code,
      SUCCEEDED means 0, tracked ones are untouched, and every tracked id has run. */
  lemma RecordsAreWellFiled(h: History, max: nat, n: nat, id: string)
    requires h.Valid(max) && n < |h.states|
    ensures var s := h.states[n];
            && (id in s.tracker.completed ==>
                  var r := s.tracker.completed[id];
                  r.exitCode.Some? && r.verdict.Some? && (r.verdict == Some(Succeeded) <==> r.exitCode == Some(0)))
            && (id in s.tracker.instances ==> s.tracker.instances[id] == NEW)
            && (s.tracker.Knows(id) ==> Ran(s, id))
  {
    AlwaysOk(h, max, n);
    assert IdOk(h.states[n], id);
  }

  // ----- Verdicts -----

  predicate HasFinal(s: State, id: string) {
    id in s.tracker.completed && FinalVerdict(s.tracker.completed[id])
  }

  /** A probe works on an id with a final verdict only if the id is tracked again. */
  predicate ProbeTracked(s: State, id: string) {
    s.control.Probing? && id in s.control.probes && HasFinal(s, id) ==> id in s.tracker.instances
  }

  predicate SameIfFinal(s: State, t: State, id: string) {
    HasFinal(s, id) ==> id in t.tracker.completed && t.tracker.completed[id] == s.tracker.completed[id]
  }

  /** The id is neither tracked nor about to be. */
  predicate Settled(s: State, id: string) {
    id !in s.tracker.instances && id !in s.inFlight
  }

  lemma FinalStep(s: State, t: State, e: Event, id: string, max: nat)
    requires Ok(s) && Step(s, t, e, max) && ProbeTracked(s, id)
    ensures ProbeTracked(t, id)
    ensures id !in s.tracker.instances ==> SameIfFinal(s, t, id)
    ensures HasFinal(s, id) && Settled(s, id) ==> Settled(t, id)
  {
    assert IdOk(s, id);
    if e.Arriving? {
      AdoptionAddsNew(s.tracker, s.control.listed);
    }
  }

  lemma {:induction false} AlwaysProbeTracked(h: History, max: nat, n: nat, id: string)
    requires h.Valid(max) && n < |h.states|
    ensures ProbeTracked(h.states[n], id)
  {
    if n > 0 {
      AlwaysProbeTracked(h, max, n - 1, id);
      AlwaysOk(h, max, n - 1);
      FinalStep(h.states[n - 1], h.states[n], h.events[n - 1], id, max);
    }
  }

  ghost predicate VerdictsKept(h: History, n: nat, id: string) {
    forall i :: 0 <= i < n && i + 1 < |h.states| ==> SameIfFinal(h.states[i], h.states[i + 1], id)
  }

  lemma StepsKeepVerdicts(h: History, max: nat, n: nat, id: string)
    requires h.Valid(max) && n < |h.states|
    requires forall m :: 0 <= m <= n ==> InOneMap(h.states[m], id)
    ensures VerdictsKept(h, n, id)
  {
    forall i | 0 <= i < n
      ensures SameIfFinal(h.states[i], h.states[i + 1], id)
    {
      AlwaysOk(h, max, i);
      AlwaysProbeTracked(h, max, i, id);
      FinalStep(h.states[i], h.states[i + 1], h.events[i], id, max);
    }
  }

  lemma {:induction false} VerdictLasts(h: History, m: nat, n: nat, id: string)
    requires VerdictsKept(h, n, id) && m <= n < |h.states|
    ensures SameIfFinal(h.states[m], h.states[n], id)
    decreases n - m
  {
    if m < n {
      VerdictLasts(h, m, n - 1, id);
      assert SameIfFinal(h.states[n - 1], h.states[n], id);
    }
  }

  /** As long as this id has not been recorded late, whatever happened to others: once completed it is
      never tracked again, and a SUCCEEDED or FAILED record never changes. */
  lemma VerdictsArePermanent(h: History, max: nat, m: nat, n: nat, id: string)
    requires h.Valid(max) && m <= n < |h.states|
    requires !RecordedLate(h, n, id)
    requires id in h.states[m].tracker.completed
    ensures id in h.states[n].tracker.completed && id !in h.states[n].tracker.instances
    ensures HasFinal(h.states[m], id) ==> h.states[n].tracker.completed[id] == h.states[m].tracker.completed[id]
  {
    OneMapExactly(h, max, n, id);
    AlwaysLasting(h, max, m, n, id);
    StepsKeepVerdicts(h, max, n, id);
    VerdictLasts(h, m, n, id);
  }

  // ----- Which verdicts are safe -----

  predicate Extends(g: History, h: History) {
    h.states <= g.states && h.events <= g.events
  }

  /** However the history goes on, the record of the id stays as it is. */
  ghost predicate Survives(h: History, max: nat, id: string)
    requires h.states != [] && id in h.Last().tracker.completed
  {
    forall g: History :: g.Valid(max) && Extends(g, h) ==>
      id in g.Last().tracker.completed && g.Last().tracker.completed[id] == h.Last().tracker.completed[id]
  }

  predicate StaysSettled(s: State, t: State, id: string) {
    HasFinal(s, id) && Settled(s, id) ==> Settled(t, id) && SameIfFinal(s, t, id)
  }

  ghost predicate SettledKept(h: History, n: nat, id: string) {
    forall i :: 0 <= i < n && i + 1 < |h.states| ==> StaysSettled(h.states[i], h.states[i + 1], id)
  }

  lemma StepsStaySettled(h: History, max: nat, n: nat, id: string)
    requires h.Valid(max) && n < |h.states|
    ensures SettledKept(h, n, id)
  {
    forall i | 0 <= i < n
      ensures StaysSettled(h.states[i], h.states[i + 1], id)
    {
      AlwaysOk(h, max, i);
      AlwaysProbeTracked(h, max, i, id);
      FinalStep(h.states[i], h.states[i + 1], h.events[i], id, max);
    }
  }

  lemma {:induction false} SettledLasts(h: History, m: nat, n: nat, id: string)
    requires SettledKept(h, n, id) && m <= n < |h.states|
    ensures StaysSettled(h.states[m], h.states[n], id)
    decreases n - m
  {
    if m < n {
      SettledLasts(h, m, n - 1, id);
      assert StaysSettled(h.states[n - 1], h.states[n], id);
    }
  }

  /** A tracked id with a verdict loses it to a cancellation. */
  lemma TrackedIsLost(h: History, max: nat, id: string) returns (g: History)
    requires h.Valid(max) && id in h.Last().tracker.instances
    ensures g.Valid(max) && Extends(g, h)
    ensures id in g.Last().tracker.completed && g.Last().tracker.completed[id] == EARLY
  {
    var s := h.Last();
    AlwaysOk(h, max, |h.states| - 1);
    assert IdOk(s, id);
    var t := s.(tracker := Cancelled(s.tracker, id), cancelled := s.cancelled + {id});
    ThenIsValid(h, Cancelling(id), t, max);
    g := h.Then(Cancelling(id), t);
  }

  /** One whose submission is in flight can be recorded first. */
  lemma InFlightIsLost(h: History, max: nat, id: string) returns (g: History)
    requires h.Valid(max) && id in h.Last().tracker.completed && id in h.Last().inFlight
    ensures g.Valid(max) && Extends(g, h)
    ensures id in g.Last().tracker.completed && g.Last().tracker.completed[id] == EARLY
  {
    var s := h.Last();
    AlwaysOk(h, max, |h.states| - 1);
    assert IdOk(s, id);
    var t := s.(tracker := Recorded(s.tracker, id), control := Displaced(s.control, id, RecordOf(s.tracker, id)),
                inFlight := s.inFlight - {id});
    assert RecordLaunch(s, t, id);
    ThenIsValid(h, Recording(id), t, max);
    var recorded := h.Then(Recording(id), t);
    g := TrackedIsLost(recorded, max, id);
    assert Extends(recorded, h);
  }

  /** In every state that a history reaches, a SUCCEEDED or FAILED verdict survives every continuation
      if and only if the id is neither tracked again nor in flight; else two steps can replace it. */
  lemma VerdictSurvivesExactly(h: History, max: nat, id: string)
    requires h.Valid(max) && HasFinal(h.Last(), id)
    ensures Survives(h, max, id) <==> id !in h.Last().tracker.instances && id !in h.Last().inFlight
  {
    if Settled(h.Last(), id) {
      forall g: History | g.Valid(max) && Extends(g, h)
        ensures id in g.Last().tracker.completed && g.Last().tracker.completed[id] == h.Last().tracker.completed[id]
      {
        assert g.states[|h.states| - 1] == h.Last();
        StepsStaySettled(g, max, |g.states| - 1, id);
        SettledLasts(g, |h.states| - 1, |g.states| - 1, id);
      }
    } else {
      var g;
      if id in h.Last().tracker.instances {
        g := TrackedIsLost(h, max, id);
      } else {
        g := InFlightIsLost(h, max, id);
      }
      assert !FinalVerdict(g.Last().tracker.completed[id]);
    }
  }

  // ----- An id in both maps -----

  /** A submission in flight, its instance running, tracked or completed, and where the poll stands. */
  function InFlight(id: string, tracker: Tracker, control: Control): State {
    State(tracker, control, {id}, {id}, {id}, {}, {})
  }

  const NOTHING := Tracker(map[], map[])

  function Tracked(id: string): Tracker {
    Tracker(map[id := NEW], map[])
  }

  function Completed(id: string): Tracker {
    Tracker(map[], map[id := Verdicted(0)])
  }

  function OneProbe(id: string, stage: Stage): Control {
    Probing(map[id := Probe(stage, None)])
  }

  /** An instance is launched, and a poll has EC2's answer before the submission records it. */
  lemma AnsweredInFlight(id: string) returns (h: History)
    ensures h.Valid(1) && |h.events| == 4
    ensures h.Last() == InFlight(id, NOTHING, Answered([Described(id, "running", "task")], {id}))
  {
    var listed := [Described(id, "running", "task")];
    AdoptionOfOne(id);
    h := BEGINNING;
    var admitted := START.(inFlight := {id}, own := {id});
    ThenIsValid(h, Admitting(id), admitted, 1);
    h := h.Then(Admitting(id), admitted);
    var launched := InFlight(id, NOTHING, NoPoll);
    ThenIsValid(h, Launching(id), launched, 1);
    h := h.Then(Launching(id), launched);
    var asked := InFlight(id, NOTHING, Describing);
    ThenIsValid(h, Beginning, asked, 1);
    h := h.Then(Beginning, asked);
    var answered := InFlight(id, NOTHING, Answered(listed, {id}));
    OnlyOneListed(id);
    ThenIsValid(h, Answering(listed), answered, 1);
    h := h.Then(Answering(listed), answered);
  }

  lemma OneEntry<V>(id: string, v: V, u: V)
    ensures map[id := v][id := u] == map[id := u]
    ensures map[id := v] - {id} == map[]
  {
  }

  lemma OnlyOneListed(id: string)
    ensures Describes([Described(id, "running", "task")], {id}, {})
  {
    assert [Described(id, "running", "task")][..0] == [];
  }

  lemma AdoptedInFlight(id: string) returns (h: History)
    ensures h.Valid(1) && |h.events| == 5
    ensures h.Last() == InFlight(id, Tracked(id), OneProbe(id, Starting(Some("running"))))
  {
    h := AnsweredInFlight(id);
    AdoptionOfOne(id);
    var arrived := InFlight(id, Tracked(id), OneProbe(id, Starting(Some("running"))));
    assert GotAnswer(h.Last(), arrived) by {
      assert arrived.control.probes == map i | i in Tracked(id).instances :: Probe(Starting(StateOf([Described(id, "running", "task")], i)), None);
    }
    ThenIsValid(h, Arriving, arrived, 1);
    h := h.Then(Arriving, arrived);
  }

  /** The poll adopts the instance, finds its task finished, and is about to file it. */
  lemma FinishingInFlight(id: string) returns (h: History)
    ensures h.Valid(1) && |h.events| == 7
    ensures h.Last() == InFlight(id, Tracked(id), OneProbe(id, Archiving(0)))
  {
    h := AdoptedInFlight(id);
    OneEntry(id, Probe(Starting(Some("running")), None), Probe(AskingSentinel, None));
    var asking := InFlight(id, Tracked(id), OneProbe(id, AskingSentinel));
    ThenIsValid(h, StartingProbe(id), asking, 1);
    h := h.Then(StartingProbe(id), asking);
    OneEntry(id, Probe(AskingSentinel, None), Probe(Archiving(0), None));
    var archiving := InFlight(id, Tracked(id), OneProbe(id, Archiving(0)));
    ThenIsValid(h, Sentinel(id, 0), archiving, 1);
    h := h.Then(Sentinel(id, 0), archiving);
  }

  function Both(id: string): State {
    State(Tracker(map[id := NEW], map[id := Verdicted(0)]), Probing(map[]), {}, {id}, {id}, {}, {})
  }

  /** The poll files the instance, and then the submission records it. */
  lemma RecordedAfterFiling(id: string) returns (h: History)
    ensures h.Valid(1) && |h.states| == 10 && h.Last() == Both(id) && RecordedLate(h, 9, id)
  {
    h := FinishingInFlight(id);
    OneEntry(id, Probe(Archiving(0), None), Probe(Archiving(0), None));
    OneEntry(id, NEW, NEW);
    var filed := InFlight(id, Completed(id), Probing(map[]));
    ThenIsValid(h, Finishing(id), filed, 1);
    h := h.Then(Finishing(id), filed);
    ThenIsValid(h, Recording(id), Both(id), 1);
    h := h.Then(Recording(id), Both(id));
    assert FiledInFlight(h, 7, id) && RecordedAt(h, 8, id);
  }

  /** One instance is launched, adopted by a poll before its submission records it, and finished by
      that poll; the recording then tracks it again, and a cancellation overwrites its verdict. */
  lemma LateRecordingLosesVerdict(id: string) returns (h: History)
    ensures h.Valid(1) && |h.states| == 11
    ensures h.states[9] == Both(id) && !InOneMap(Both(id), id)
    ensures h.Last().tracker == Tracker(map[], map[id := EARLY])
  {
    h := RecordedAfterFiling(id);
    OneEntry(id, Verdicted(0), EARLY);
    OneEntry(id, NEW, NEW);
    var both := Both(id);
    assert id in both.tracker.instances && id in both.tracker.completed;
    var cancelled := both.(tracker := Tracker(map[], map[id := EARLY]), cancelled := {id});
    ThenIsValid(h, Cancelling(id), cancelled, 1);
    h := h.Then(Cancelling(id), cancelled);
  }

  lemma AdoptionOfOne(id: string)
    ensures var listed := [Described(id, "running", "task")];
            Adopted(Tracker(map[], map[]), listed) == Tracker(map[id := NEW], map[]) && StateOf(listed, id) == Some("running")
  {
    assert [Described(id, "running", "task")][..0] == [];
  }
}
