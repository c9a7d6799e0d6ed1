/** How far the number of tracked instances can exceed the limit: by the submissions in flight, less
    one, and no further. */
module Ec2Limit {
  import opened Ec2
  import opened Ec2Protocol

  /** The tracked instances that were submitted here. */
  function OwnTracked(s: State): set<string> {
    s.tracker.instances.Keys * s.own
  }

  /** No more than c submissions are ever in flight at once. */
  ghost predicate AtMostInFlight(h: History, c: nat) {
    forall n :: 0 <= n < |h.states| ==> |h.states[n].inFlight| <= c
  }

  // ----- The bound -----

  /** Only an admission adds to what is tracked or in flight. */
  lemma OnlyAdmissionAdds(s: State, t: State, e: Event, id: string, max: nat)
    requires Ok(s) && Step(s, t, e, max)
    requires id in OwnTracked(t) + t.inFlight
    ensures id in OwnTracked(s) + s.inFlight || e == Admitting(id)
  {
    assert IdOk(s, id);
    if e.Arriving? {
      AdoptionAddsNew(s.tracker, s.control.listed);
    }
  }

  lemma SubsetIsSmaller<T>(a: set<T>, b: set<T>)
    requires a <= b
    ensures |a| <= |b|
  {
    assert b == a + (b - a);
  }

  lemma StepKeepsBound(s: State, t: State, e: Event, max: nat, c: nat)
    requires Ok(s) && Step(s, t, e, max) && c >= 1 && |t.inFlight| <= c
    requires |OwnTracked(s) + s.inFlight| <= max + c - 1
    ensures |OwnTracked(t) + t.inFlight| <= max + c - 1
  {
    var before, after := OwnTracked(s) + s.inFlight, OwnTracked(t) + t.inFlight;
    forall id | id in after
      ensures id in before || e == Admitting(id)
    {
      OnlyAdmissionAdds(s, t, e, id, max);
    }
    if e.Admitting? {
      SubsetIsSmaller(OwnTracked(t), t.tracker.instances.Keys);
      assert |t.tracker.instances| == |t.tracker.instances.Keys|;
    } else {
      SubsetIsSmaller(after, before);
    }
  }

  /** Over every history with at most c submissions in flight, at most max + c - 1 instances submitted
      here are tracked. */
  lemma {:induction false} LimitIsBounded(h: History, max: nat, c: nat, n: nat)
    requires h.Valid(max) && n < |h.states| && c >= 1 && AtMostInFlight(h, c)
    ensures |OwnTracked(h.states[n]) + h.states[n].inFlight| <= max + c - 1
    ensures |OwnTracked(h.states[n])| <= max + c - 1
  {
    if n > 0 {
      LimitIsBounded(h, max, c, n - 1);
      AlwaysOk(h, max, n - 1);
      StepKeepsBound(h.states[n - 1], h.states[n], h.events[n - 1], max, c);
    }
    SubsetIsSmaller(OwnTracked(h.states[n]), OwnTracked(h.states[n]) + h.states[n].inFlight);
  }

  // ----- The bound is reached -----

  function Name(i: nat): string {
    seq(i, _ => 'i')
  }

  function Names(k: nat): set<string> {
    set i | 0 <= i < k :: Name(i)
  }

  lemma NamesGrow(k: nat)
    ensures Names(k + 1) == Names(k) + {Name(k)} && Name(k) !in Names(k)
  {
    forall i | 0 <= i < k
      ensures Name(i) != Name(k)
    {
      assert |Name(i)| == i && |Name(k)| == k;
    }
  }

  lemma {:induction false} NamesAreMany(k: nat)
    ensures |Names(k)| == k
  {
    if k > 0 {
      NamesAreMany(k - 1);
      NamesGrow(k - 1);
    }
  }

  lemma {:induction false} NamesNest(j: nat, k: nat)
    requires j <= k
    ensures Names(j) <= Names(k)
  {
    if j < k {
      NamesNest(j, k - 1);
      NamesGrow(k - 1);
    }
  }

  function New(ids: set<string>): map<string, Record> {
    map id | id in ids :: NEW
  }

  /** The first `tracked` ids are recorded, the ids up to `submitted` are admitted, and those up to
      `started` run. */
  function Progress(tracked: nat, submitted: nat, started: nat): State {
    State(Tracker(New(Names(tracked)), map[]), NoPoll,
          Names(submitted) - Names(tracked), Names(submitted), Names(started), {}, {})
  }

  lemma NewIsAsMany(k: nat)
    ensures |New(Names(k))| == k && New(Names(k)).Keys == Names(k)
  {
    NamesAreMany(k);
    assert New(Names(k)).Keys == Names(k);
    assert |New(Names(k))| == |New(Names(k)).Keys|;
  }

  lemma NamesBetween(j: nat, k: nat)
    requires j <= k
    ensures |Names(k) - Names(j)| == k - j && Names(j) * Names(k) == Names(j)
  {
    NamesAreMany(j);
    NamesAreMany(k);
    NamesNest(j, k);
    assert Names(k) == (Names(k) - Names(j)) + Names(j);
  }

  lemma TrackedInProgress(tracked: nat, submitted: nat, started: nat)
    requires tracked <= submitted
    ensures |Progress(tracked, submitted, started).tracker.instances| == tracked
    ensures OwnTracked(Progress(tracked, submitted, started)) == Names(tracked)
    ensures |Progress(tracked, submitted, started).inFlight| == submitted - tracked
  {
    NewIsAsMany(tracked);
    NamesBetween(tracked, submitted);
  }

  lemma AdmitNext(tracked: nat, submitted: nat, max: nat)
    requires tracked < max && tracked <= submitted
    ensures Step(Progress(tracked, submitted, submitted), Progress(tracked, submitted + 1, submitted),
                 Admitting(Name(submitted)), max)
  {
    NamesGrow(submitted);
    NamesNest(tracked, submitted);
    NewIsAsMany(tracked);
    var name := Name(submitted);
    assert Names(submitted + 1) - Names(tracked) == (Names(submitted) - Names(tracked)) + {name};
  }

  lemma LaunchNext(tracked: nat, submitted: nat, max: nat)
    requires tracked <= submitted
    ensures Step(Progress(tracked, submitted + 1, submitted), Progress(tracked, submitted + 1, submitted + 1),
                 Launching(Name(submitted)), max)
  {
    NamesGrow(submitted);
    NamesNest(tracked, submitted);
  }

  lemma RecordNext(tracked: nat, submitted: nat, max: nat)
    requires tracked < submitted
    ensures Step(Progress(tracked, submitted, submitted), Progress(tracked + 1, submitted, submitted),
                 Recording(Name(tracked)), max)
  {
    NamesGrow(tracked);
    NamesNest(tracked + 1, submitted);
    assert New(Names(tracked))[Name(tracked) := NEW] == New(Names(tracked + 1));
  }

  /** One more step keeps the number in flight within c. */
  lemma Extend(h: History, e: Event, t: State, max: nat, c: nat) returns (g: History)
    requires h.Valid(max) && AtMostInFlight(h, c) && Step(h.Last(), t, e, max) && |t.inFlight| <= c
    ensures g.Valid(max) && AtMostInFlight(g, c) && g.Last() == t
  {
    ThenIsValid(h, e, t, max);
    g := h.Then(e, t);
    forall n | 0 <= n < |g.states|
      ensures |g.states[n].inFlight| <= c
    {
      if n < |h.states| {
        assert g.states[n] == h.states[n];
      }
    }
  }

  /** A history without overlap beyond c leads to this progress. */
  ghost predicate Leads(h: History, tracked: nat, submitted: nat, max: nat, c: nat) {
    h.Valid(max) && AtMostInFlight(h, c) && h.Last() == Progress(tracked, submitted, submitted)
  }

  lemma SubmitOne(h: History, tracked: nat, submitted: nat, max: nat, c: nat) returns (g: History)
    requires Leads(h, tracked, submitted, max, c)
    requires tracked < max && tracked <= submitted && submitted + 1 - tracked <= c
    ensures Leads(g, tracked, submitted + 1, max, c)
  {
    AdmitNext(tracked, submitted, max);
    TrackedInProgress(tracked, submitted + 1, submitted);
    g := Extend(h, Admitting(Name(submitted)), Progress(tracked, submitted + 1, submitted), max, c);
    LaunchNext(tracked, submitted, max);
    TrackedInProgress(tracked, submitted + 1, submitted + 1);
    g := Extend(g, Launching(Name(submitted)), Progress(tracked, submitted + 1, submitted + 1), max, c);
  }

  lemma RecordOne(h: History, tracked: nat, submitted: nat, max: nat, c: nat) returns (g: History)
    requires Leads(h, tracked, submitted, max, c)
    requires tracked < submitted && submitted - tracked <= c
    ensures Leads(g, tracked + 1, submitted, max, c)
  {
    RecordNext(tracked, submitted, max);
    TrackedInProgress(tracked + 1, submitted, submitted);
    g := Extend(h, Recording(Name(tracked)), Progress(tracked + 1, submitted, submitted), max, c);
  }

  lemma NothingYet(max: nat, c: nat)
    requires c >= 1
    ensures Leads(BEGINNING, 0, 0, max, c)
  {
    assert Names(0) == {};
    assert New({}) == map[];
    assert Progress(0, 0, 0) == START;
  }

  /** Submissions one after the other, up to the limit. */
  lemma {:induction false} OneByOne(k: nat, max: nat, c: nat) returns (h: History)
    requires k <= max && c >= 1
    ensures Leads(h, k, k, max, c)
  {
    if k == 0 {
      NothingYet(max, c);
      h := BEGINNING;
    } else {
      var before := OneByOne(k - 1, max, c);
      h := SubmitAndRecord(before, k - 1, max, c);
    }
  }

  lemma SubmitAndRecord(h: History, k: nat, max: nat, c: nat) returns (g: History)
    requires Leads(h, k, k, max, c) && k < max && c >= 1
    ensures Leads(g, k + 1, k + 1, max, c)
  {
    var submitted := SubmitOne(h, k, k, max, c);
    g := RecordOne(submitted, k, k + 1, max, c);
  }

  /** From some progress on, submissions up to the n-th pass the check at once. */
  lemma {:induction false} AllAtOnce(h: History, k: nat, submitted: nat, n: nat, max: nat, c: nat) returns (g: History)
    requires Leads(h, k, submitted, max, c) && k < max && k <= submitted <= n && n - k <= c
    ensures Leads(g, k, n, max, c)
    decreases n - submitted
  {
    if submitted == n {
      g := h;
    } else {
      var one := SubmitOne(h, k, submitted, max, c);
      g := AllAtOnce(one, k, submitted + 1, n, max, c);
    }
  }

  /** And then all of them are recorded. */
  lemma {:induction false} AllRecorded(h: History, k: nat, submitted: nat, max: nat, c: nat) returns (g: History)
    requires Leads(h, k, submitted, max, c) && k <= submitted && submitted - k <= c
    ensures Leads(g, submitted, submitted, max, c)
    decreases submitted - k
  {
    if k == submitted {
      g := h;
    } else {
      var one := RecordOne(h, k, submitted, max, c);
      g := AllRecorded(one, k + 1, submitted, max, c);
    }
  }

  lemma LimitIsOvershot(max: nat, c: nat) returns (h: History)
    requires max >= 1 && c >= 1
    ensures h.Valid(max) && AtMostInFlight(h, c) && |OwnTracked(h.Last())| == max + c - 1
  {
    var k, n := max - 1, max - 1 + c;
    h := OneByOne(k, max, c);
    h := AllAtOnce(h, k, k, n, max, c);
    h := AllRecorded(h, k, n, max, c);
    TrackedInProgress(n, n, n);
    NamesAreMany(n);
  }

  /** With at most c submissions in flight at once, a bound on the tracked instances submitted here
      holds over all histories if and only if it is at least max + c - 1; so the limit itself is kept
      just when submissions never overlap. */
  lemma LimitHoldsExactly(max: nat, c: nat, bound: nat)
    requires max >= 1 && c >= 1
    ensures (forall h: History, n: nat | h.Valid(max) && AtMostInFlight(h, c) && n < |h.states| ::
               |OwnTracked(h.states[n])| <= bound) <==> bound >= max + c - 1
  {
    if bound >= max + c - 1 {
      forall h: History, n: nat | h.Valid(max) && AtMostInFlight(h, c) && n < |h.states|
        ensures |OwnTracked(h.states[n])| <= bound
      {
        LimitIsBounded(h, max, c, n);
      }
    } else {
      var h := LimitIsOvershot(max, c);
      assert h.states[|h.states| - 1] == h.Last();
    }
  }
}
