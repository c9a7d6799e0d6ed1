/** The notification hub: which events it announces, given what it has announced before. */
module Notifications {
  import opened Runs
  import opened Lists

  datatype Task = Task(id: string, failed: bool)

  datatype Run = Run(id: string, status: RunStatus, tasks: seq<Task>)

  /** What happens, in order. A scan that finds a task failed sees it; only some sightings are
      announced. Recorded is the hub noting a run's status, Done its run-done notice, and Stats a
      message with the progress figures. */
  datatype Event =
    | Scheduled(run: string)
    | Primed(run: string, task: string)
    | Seen(run: string, task: string)
    | Announced(run: string, task: string)
    | Recorded(run: string, status: RunStatus)
    | Done(run: string)
    | Stats

  datatype Hub = Hub(status: map<string, RunStatus>, notified: set<string>, log: seq<Event>)

  const NEW_HUB := Hub(map[], {}, [])

  function Key(run: string, task: string): string {
    run + ":" + task
  }

  // ----- The operations -----

  function PrimeTask(h: Hub, run: string, t: Task): Hub {
    if t.failed then h.(notified := h.notified + {Key(run, t.id)}, log := h.log + [Primed(run, t.id)]) else h
  }

  function Record(h: Hub, run: string, status: RunStatus): Hub {
    h.(status := h.status[run := status], log := h.log + [Recorded(run, status)])
  }

  function PrimeRun(h: Hub, r: Run): Hub {
    Fold(Record(h, r.id, r.status), r.tasks, (g: Hub, t: Task) => PrimeTask(g, r.id, t))
  }

  /** `update_stats` */
  function UpdateStats(h: Hub): Hub {
    h.(log := h.log + [Stats])
  }

  /** `prime`: everything is recorded and nothing announced but the progress figures. */
  function Prime(h: Hub, runs: seq<Run>): Hub {
    UpdateStats(Fold(h, runs, PrimeRun))
  }

  /** `run_scheduled`: a new incarnation of the run; its failures are forgotten. */
  function Schedule(h: Hub, r: Run): Hub {
    var g := Record(h, r.id, r.status);
    g.(notified := (set k | k in g.notified && !(r.id + ":" <= k)), log := g.log + [Scheduled(r.id)])
  }

  function ScanTask(h: Hub, run: string, t: Task): Hub {
    if !t.failed then h
    else if Key(run, t.id) in h.notified then h.(log := h.log + [Seen(run, t.id)])
    else h.(notified := h.notified + {Key(run, t.id)}, log := h.log + [Seen(run, t.id), Announced(run, t.id)])
  }

  /** The end of a scan of one run: a changed status is recorded, and a finish announced. */
  function ScanStatus(h: Hub, run: string, status: RunStatus): Hub {
    if run in h.status && h.status[run] == status then h
    else
      var g := Record(h, run, status);
      if status.IsTerminal() && run in h.status && h.status[run].IsActive() then g.(log := g.log + [Done(run)]) else g
  }

  function ScanRun(h: Hub, r: Run): Hub {
    ScanStatus(Fold(h, r.tasks, (g: Hub, t: Task) => ScanTask(g, r.id, t)), r.id, r.status)
  }

  /** `scan` */
  function Scan(h: Hub, runs: seq<Run>): Hub {
    Fold(h, runs, ScanRun)
  }

  // ----- The hub object -----

  const QUEUE_CAPACITY := 100

  /** What a queue holds after a broadcast; a full queue drops the message. */
  function Offered<T>(queue: seq<T>, message: T): seq<T> {
    if |queue| < QUEUE_CAPACITY then queue + [message] else queue
  }

  /** The events that clients are told about. */
  predicate Told(e: Event) {
    e.Scheduled? || e.Announced? || e.Done? || e.Stats?
  }

  /** What a queue holds after some events, if its client takes nothing out meanwhile. */
  function Delivered(queue: seq<Event>, events: seq<Event>): seq<Event> {
    Fold(queue, events, (q: seq<Event>, e: Event) => if Told(e) then Offered(q, e) else q)
  }

  function DeliveredAll(queues: map<nat, seq<Event>>, events: seq<Event>): map<nat, seq<Event>> {
    map q | q in queues :: Delivered(queues[q], events)
  }

  /** Between two moments every queue was offered just the told events logged in between. */
  ghost predicate DeliveredSince(
    log: seq<Event>, queues: map<nat, seq<Event>>, laterLog: seq<Event>, laterQueues: map<nat, seq<Event>>)
  {
    log <= laterLog && laterQueues == DeliveredAll(queues, laterLog[|log|..])
  }

  lemma DeliveredConcat(queue: seq<Event>, a: seq<Event>, b: seq<Event>)
    ensures Delivered(queue, a + b) == Delivered(Delivered(queue, a), b)
  {
    FoldConcat(queue, a, b, (q: seq<Event>, e: Event) => if Told(e) then Offered(q, e) else q);
  }

  lemma DeliveredChains(
    l0: seq<Event>, q0: map<nat, seq<Event>>, l1: seq<Event>, q1: map<nat, seq<Event>>, l2: seq<Event>, q2: map<nat, seq<Event>>)
    requires DeliveredSince(l0, q0, l1, q1) && DeliveredSince(l1, q1, l2, q2)
    ensures DeliveredSince(l0, q0, l2, q2)
  {
    assert l2[|l0|..] == l1[|l0|..] + l2[|l1|..];
    forall q | q in q0
      ensures Delivered(q0[q], l2[|l0|..]) == q2[q]
    {
      DeliveredConcat(q0[q], l1[|l0|..], l2[|l1|..]);
    }
  }

  /** The message that an event sends, if it sends one. */
  function Message(e: Event): seq<Event> {
    if e.Scheduled? || e.Announced? || e.Done? || e.Stats? then [e] else []
  }

  /** A client that takes nothing out holds the first messages, as many as there was room for
      in a queue of a hundred. */
  lemma {:induction false} DeliveredIsPrefix(queue: seq<Event>, events: seq<Event>)
    requires |queue| <= 100
    ensures var told := Collect(events, Message);
            var room := 100 - |queue|;
            Delivered(queue, events) == queue + if |told| <= room then told else told[..room]
  {
    if events != [] {
      var init, last := events[..|events| - 1], Last(events);
      DeliveredIsPrefix(queue, init);
      assert Delivered(queue, events) == if Told(last) then Offered(Delivered(queue, init), last) else Delivered(queue, init);
      assert Collect(events, Message) == Collect(init, Message) + if Told(last) then [last] else [];
    }
  }

  lemma OneDelivered(log: seq<Event>, queues: map<nat, seq<Event>>, e: Event)
    ensures (log + [e])[|log|..] == [e]
    ensures forall q :: q in queues ==>
              Delivered(queues[q], [e]) == if Told(e) then Offered(queues[q], e) else queues[q]
  {
    forall q | q in queues
      ensures Delivered(queues[q], [e]) == if Told(e) then Offered(queues[q], e) else queues[q]
    {
      FoldOne(queues[q], e, (r: seq<Event>, f: Event) => if Told(f) then Offered(r, f) else r);
    }
  }

  class NotificationHub {
    var runStatus: map<string, RunStatus>
    var notified: set<string>
    var queues: map<nat, seq<Event>>
    ghost var log: seq<Event>

    ghost function View(): Hub
      reads this
    {
      Hub(runStatus, notified, log)
    }

    constructor ()
      ensures View() == NEW_HUB && queues == map[]
    {
      runStatus, notified, queues, log := map[], {}, map[], [];
    }

    method Subscribe(client: nat)
      requires client !in queues
      modifies this`queues
      ensures queues == old(queues)[client := []]
    {
      queues := queues[client := []];
    }

    method Unsubscribe(client: nat)
      modifies this`queues
      ensures queues == old(queues) - {client}
    {
      queues := queues - {client};
    }

    lemma NothingDelivered()
      ensures DeliveredSince(log, queues, log, queues)
    {
      assert log[|log|..] == [];
      assert DeliveredAll(queues, []) == queues;
    }

    /** An event that clients are not told about. */
    ghost method Note(e: Event)
      requires !Told(e)
      modifies this`log
      ensures log == old(log) + [e]
      ensures DeliveredSince(old(log), old(queues), log, queues)
    {
      ghost var before := log;
      log := log + [e];
      OneDelivered(before, queues, e);
      assert DeliveredAll(queues, [e]) == queues;
    }

    /** An event that clients are told about. */
    method Emit(e: Event)
      requires Told(e)
      modifies this`log, this`queues
      ensures log == old(log) + [e]
      ensures DeliveredSince(old(log), old(queues), log, queues)
    {
      ghost var before := log;
      OneDelivered(before, queues, e);
      log := log + [e];
      Broadcast(e);
      assert queues == DeliveredAll(old(queues), [e]);
    }

    /** `_broadcast`: each queue is offered the message, and no full queue holds up another. */
    method Broadcast(message: Event)
      modifies this`queues
      ensures queues == map q | q in old(queues) :: Offered(old(queues)[q], message)
    {
      var before := queues;
      var todo := before.Keys;
      while todo != {}
        invariant todo <= before.Keys
        invariant queues == map q | q in before :: if q in todo then before[q] else Offered(before[q], message)
        decreases todo
      {
        var q :| q in todo;
        todo := todo - {q};
        if |queues[q]| < QUEUE_CAPACITY {
          queues := queues[q := queues[q] + [message]];
        }
      }
    }

    /** `update_stats`, which every poll ends with. */
    method RefreshStats()
      modifies this`log, this`queues
      ensures View() == UpdateStats(old(View()))
      ensures DeliveredSince(old(log), old(queues), log, queues)
    {
      Emit(Stats);
    }

    method PrimeHub(runs: seq<Run>)
      modifies this
      ensures View() == Prime(old(View()), runs)
      ensures DeliveredSince(old(log), old(queues), log, queues)
    {
      NothingDelivered();
      for i := 0 to |runs|
        invariant View() == Fold(old(View()), runs[..i], PrimeRun)
        invariant DeliveredSince(old(log), old(queues), log, queues)
      {
        assert runs[..i + 1][..i] == runs[..i];
        ghost var log1, queues1 := log, queues;
        PrimeOne(runs[i]);
        DeliveredChains(old(log), old(queues), log1, queues1, log, queues);
      }
      assert runs[..|runs|] == runs;
      ghost var log2, queues2 := log, queues;
      RefreshStats();
      DeliveredChains(old(log), old(queues), log2, queues2, log, queues);
    }

    method PrimeOne(r: Run)
      modifies this`runStatus, this`notified, this`log
      ensures View() == PrimeRun(old(View()), r)
      ensures DeliveredSince(old(log), old(queues), log, queues)
    {
      runStatus := runStatus[r.id := r.status];
      Note(Recorded(r.id, r.status));
      ghost var start := View();
      ghost var step := (g: Hub, t: Task) => PrimeTask(g, r.id, t);
      for k := 0 to |r.tasks|
        invariant View() == Fold(start, r.tasks[..k], step)
        invariant DeliveredSince(old(log), old(queues), log, queues)
      {
        assert r.tasks[..k + 1][..k] == r.tasks[..k];
        if r.tasks[k].failed {
          notified := notified + {Key(r.id, r.tasks[k].id)};
          ghost var log1 := log;
          Note(Primed(r.id, r.tasks[k].id));
          DeliveredChains(old(log), old(queues), log1, queues, log, queues);
        }
      }
      assert r.tasks[..|r.tasks|] == r.tasks;
    }

    method RunScheduled(r: Run)
      modifies this
      ensures View() == Schedule(old(View()), r)
      ensures DeliveredSince(old(log), old(queues), log, queues)
    {
      runStatus := runStatus[r.id := r.status];
      notified := set k | k in notified && !(r.id + ":" <= k);
      Note(Recorded(r.id, r.status));
      ghost var log1, queues1 := log, queues;
      Emit(Scheduled(r.id));
      DeliveredChains(old(log), old(queues), log1, queues1, log, queues);
    }

    method ScanOneTask(run: string, t: Task)
      modifies this`notified, this`log, this`queues
      ensures View() == ScanTask(old(View()), run, t)
      ensures DeliveredSince(old(log), old(queues), log, queues)
    {
      NothingDelivered();
      if t.failed {
        var key := Key(run, t.id);
        Note(Seen(run, t.id));
        if key !in notified {
          notified := notified + {key};
          ghost var log1, queues1 := log, queues;
          Emit(Announced(run, t.id));
          DeliveredChains(old(log), old(queues), log1, queues1, log, queues);
        }
      }
    }

    method ScanTasks(r: Run)
      modifies this`notified, this`log, this`queues
      ensures View() == Fold(old(View()), r.tasks, (g: Hub, t: Task) => ScanTask(g, r.id, t))
      ensures DeliveredSince(old(log), old(queues), log, queues)
    {
      ghost var start := View();
      ghost var step := (g: Hub, t: Task) => ScanTask(g, r.id, t);
      NothingDelivered();
      for k := 0 to |r.tasks|
        invariant View() == Fold(start, r.tasks[..k], step)
        invariant DeliveredSince(old(log), old(queues), log, queues)
      {
        assert r.tasks[..k + 1][..k] == r.tasks[..k];
        ghost var log1, queues1 := log, queues;
        ScanOneTask(r.id, r.tasks[k]);
        DeliveredChains(old(log), old(queues), log1, queues1, log, queues);
      }
      assert r.tasks[..|r.tasks|] == r.tasks;
    }

    method ScanRunStatus(run: string, status: RunStatus)
      modifies this
      ensures View() == ScanStatus(old(View()), run, status)
      ensures DeliveredSince(old(log), old(queues), log, queues)
    {
      NothingDelivered();
      if run !in runStatus || runStatus[run] != status {
        var finished := status.IsTerminal() && run in runStatus && runStatus[run].IsActive();
        runStatus := runStatus[run := status];
        Note(Recorded(run, status));
        if finished {
          ghost var log1, queues1 := log, queues;
          Emit(Done(run));
          DeliveredChains(old(log), old(queues), log1, queues1, log, queues);
        }
      }
    }

    /** `scan`: what is announced is also what every client is offered. */
    method ScanHub(runs: seq<Run>)
      modifies this
      ensures View() == Scan(old(View()), runs)
      ensures DeliveredSince(old(log), old(queues), log, queues)
    {
      NothingDelivered();
      for i := 0 to |runs|
        invariant View() == Scan(old(View()), runs[..i])
        invariant DeliveredSince(old(log), old(queues), log, queues)
      {
        assert runs[..i + 1][..i] == runs[..i];
        ghost var log1, queues1 := log, queues;
        ScanTasks(runs[i]);
        DeliveredChains(old(log), old(queues), log1, queues1, log, queues);
        ghost var log2, queues2 := log, queues;
        ScanRunStatus(runs[i].id, runs[i].status);
        DeliveredChains(old(log), old(queues), log2, queues2, log, queues);
      }
      assert runs[..|runs|] == runs;
    }
  }
}
