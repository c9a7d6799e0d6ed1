/** What accounting reports for a job depends on the job's own rows only, and not on their order
    or on how they are mixed with the rows of other jobs. */
module SacctOrder {
  import opened Wrappers
  import opened Lists
  import opened Sacct

  // ----- The specification of a job -----

  /** The main rows, the batch rows, and the memory figures of a job, in whatever order they came. */
  function RowsOf(rows: seq<Row>, job: string, role: Role): seq<Step> {
    Collect(rows, (r: Row) => if Read(r).role == role && Read(r).id == job then [Read(r)] else [])
  }

  function RssOf(rows: seq<Row>, job: string): seq<nat> {
    Collect(rows, (r: Row) => if Read(r).id == job then [Read(r).rss] else [])
  }

  function MaxOf(s: seq<nat>): nat {
    if s == [] then 0
    else if Last(s) > MaxOf(s[..|s| - 1]) then Last(s)
    else MaxOf(s[..|s| - 1])
  }

  function First(steps: seq<Step>): Option<Step> {
    if steps == [] then None else Some(steps[0])
  }

  /** The state a batch row imposes, if it imposes one. */
  function BatchState(batch: Option<Step>): Option<string> {
    if batch.None? then None
    else if batch.value.word != "" && batch.value.word in FAILURE_STATES then Some(batch.value.word)
    else if batch.value.failing then Some("FAILED")
    else None
  }

  /** The batch row's failure; else FAILED for a nonzero exit under COMPLETED; else the main state. */
  function JobState(main: Step, batch: Option<Step>): string {
    match BatchState(batch)
    case Some(s) => s
    case None => if main.word == "COMPLETED" && main.failing then "FAILED" else main.word
  }

  /** The batch row's exit code is preferred. */
  function JobExit(main: Step, batch: Option<Step>): Option<int> {
    if batch.Some? && batch.value.exit.Some? then batch.value.exit else main.exit
  }

  function JobReport(main: Option<Step>, batch: Option<Step>, rss: nat): Option<JobStats> {
    if main.None? then None
    else
      var m := main.value;
      var cpu := if batch.Some? && batch.value.cpu != 0.0 then batch.value.cpu else m.cpu;
      Some(JobStats(Efficiency(cpu, m.elapsed, m.cpus), rss, cpu, m.start, m.end, Some(JobState(m, batch)), JobExit(m, batch)))
  }

  /** The report of a job, from its rows alone. */
  function Specified(rows: seq<Row>, job: string): Option<JobStats> {
    JobReport(First(RowsOf(rows, job, Main)), First(RowsOf(rows, job, Batch)), MaxOf(RssOf(rows, job)))
  }

  ghost predicate Proper(rows: seq<Row>, job: string) {
    |RowsOf(rows, job, Main)| <= 1 && |RowsOf(rows, job, Batch)| <= 1
  }

  // ----- The tables at one job -----

  /** What the tables hold for one job. */
  datatype Cell = Cell(
    main: Option<MainData>, batchCpu: real, rss: nat,
    start: Option<int>, end: Option<int>, state: Option<string>, exit: Option<int>)

  function CellOf(t: Tables, job: string): Cell {
    Cell(
      Find(t.main, job), Get(t.batchCpu, job, 0.0), Get(t.maxRss, job, 0),
      Get(t.start, job, None), Get(t.end, job, None), Find(t.state, job), Find(t.exitCode, job))
  }

  function CellAfter(c: Cell, s: Step): Cell {
    var d := c.(rss := if s.rss > c.rss then s.rss else c.rss);
    match s.role
    case Other => d
    case Batch =>
      d.(batchCpu := s.cpu,
         state := if BatchState(Some(s)).Some? then BatchState(Some(s)) else c.state,
         exit := if s.exit.Some? then s.exit else c.exit)
    case Main =>
      var state := c.state.GetOr(s.word);
      d.(main := Some(MainData(s.elapsed, s.cpus, s.cpu)),
         state := Some(if s.failing && state == "COMPLETED" then "FAILED" else state),
         exit := if c.exit.Some? then c.exit else s.exit,
         start := if s.start.Some? then s.start else c.start,
         end := if s.end.Some? then s.end else c.end)
  }

  /** A row of another job leaves the job's cell alone. */
  lemma CellStep(t: Tables, s: Step, job: string)
    ensures CellOf(WithStep(t, s), job) == if s.id == job then CellAfter(CellOf(t, job), s) else CellOf(t, job)
  {
    var u := WithRss(t, s);
    RssCell(t, s, job);
    match s.role
    case Other =>
    case Batch => BatchCell(u, s, job);
    case Main => MainCell(u, s, job);
  }

  lemma RssCell(t: Tables, s: Step, job: string)
    ensures CellOf(WithRss(t, s), job) ==
              if s.id == job && s.rss > CellOf(t, job).rss then CellOf(t, job).(rss := s.rss) else CellOf(t, job)
  {
  }

  lemma BatchCell(u: Tables, s: Step, job: string)
    ensures var c := CellOf(u, job);
            CellOf(WithBatch(u, s), job) ==
            if s.id != job then c
            else c.(batchCpu := s.cpu,
                    state := if BatchState(Some(s)).Some? then BatchState(Some(s)) else c.state,
                    exit := if s.exit.Some? then s.exit else c.exit)
  {
  }

  lemma MainCell(u: Tables, s: Step, job: string)
    ensures var c := CellOf(u, job);
            var state := c.state.GetOr(s.word);
            CellOf(WithMain(u, s), job) ==
            if s.id != job then c
            else c.(main := Some(MainData(s.elapsed, s.cpus, s.cpu)),
                    state := Some(if s.failing && state == "COMPLETED" then "FAILED" else state),
                    exit := if c.exit.Some? then c.exit else s.exit,
                    start := if s.start.Some? then s.start else c.start,
                    end := if s.end.Some? then s.end else c.end)
  {
  }

  /** What a cell holds once some of the job's rows have been read. */
  function CellFor(main: Option<Step>, batch: Option<Step>, rss: nat): Cell {
    Cell(
      if main.Some? then Some(MainData(main.value.elapsed, main.value.cpus, main.value.cpu)) else None,
      if batch.Some? then batch.value.cpu else 0.0,
      rss,
      if main.Some? then main.value.start else None,
      if main.Some? then main.value.end else None,
      if main.Some? then Some(JobState(main.value, batch)) else BatchState(batch),
      if main.Some? then JobExit(main.value, batch) else if batch.Some? then batch.value.exit else None)
  }

  lemma CellForStep(main: Option<Step>, batch: Option<Step>, rss: nat, s: Step)
    requires s.role.Main? ==> main.None?
    requires s.role.Batch? ==> batch.None?
    ensures CellAfter(CellFor(main, batch, rss), s) ==
              CellFor(if s.role.Main? then Some(s) else main, if s.role.Batch? then Some(s) else batch,
                      if s.rss > rss then s.rss else rss)
  {
  }

  /** The tables hold, for a proper job, exactly what its main and batch rows say. */
  lemma {:induction false} CellIsSpecified(rows: seq<Row>, job: string)
    requires Proper(rows, job)
    ensures CellOf(Folded(rows), job) ==
              CellFor(First(RowsOf(rows, job, Main)), First(RowsOf(rows, job, Batch)), MaxOf(RssOf(rows, job)))
  {
    if rows != [] {
      var init, s := rows[..|rows| - 1], Read(Last(rows));
      RowsGrow(rows, job);
      CellIsSpecified(init, job);
      CellStep(Folded(init), s, job);
      assert CellOf(Folded(rows), job) == CellOf(WithStep(Folded(init), s), job);
      if s.id == job {
        CellForStep(First(RowsOf(init, job, Main)), First(RowsOf(init, job, Batch)), MaxOf(RssOf(init, job)), s);
      }
    }
  }

  /** One more row joins the rows it belongs to. */
  lemma RowsGrow(rows: seq<Row>, job: string)
    requires rows != [] && Proper(rows, job)
    ensures var init, s := rows[..|rows| - 1], Read(Last(rows));
            && Proper(init, job)
            && First(RowsOf(rows, job, Main)) ==
                 (if s.id == job && s.role.Main? then Some(s) else First(RowsOf(init, job, Main)))
            && First(RowsOf(rows, job, Batch)) ==
                 (if s.id == job && s.role.Batch? then Some(s) else First(RowsOf(init, job, Batch)))
            && (s.id == job && s.role.Main? ==> First(RowsOf(init, job, Main)).None?)
            && (s.id == job && s.role.Batch? ==> First(RowsOf(init, job, Batch)).None?)
            && MaxOf(RssOf(rows, job)) ==
                 (if s.id == job && s.rss > MaxOf(RssOf(init, job)) then s.rss else MaxOf(RssOf(init, job)))
  {
    var init, s := rows[..|rows| - 1], Read(Last(rows));
    assert RowsOf(rows, job, Main) == RowsOf(init, job, Main) + if s.id == job && s.role.Main? then [s] else [];
    assert RowsOf(rows, job, Batch) == RowsOf(init, job, Batch) + if s.id == job && s.role.Batch? then [s] else [];
    assert RssOf(rows, job) == RssOf(init, job) + if s.id == job then [s.rss] else [];
    if s.id == job {
      var rss := RssOf(rows, job);
      assert rss == RssOf(init, job) + [s.rss];
      assert Last(rss) == s.rss && rss[..|rss| - 1] == RssOf(init, job);
    } else {
      assert RssOf(rows, job) == RssOf(init, job);
    }
  }

  /** The row loop refines the specification: for any mix and order of rows, each job with at most
      one main and one batch row is reported as its own rows say. */
  lemma FoldRefinesSpecification(rows: seq<Row>, job: string)
    requires Proper(rows, job)
    ensures Reported(Folded(rows), job) == Specified(rows, job)
  {
    CellIsSpecified(rows, job);
    var t := Folded(rows);
    assert CellOf(t, job).main == Find(t.main, job);
  }

  // ----- The specification does not depend on order -----

  lemma {:induction false} MaxOfIsMax(s: seq<nat>)
    ensures forall x :: x in s ==> x <= MaxOf(s)
    ensures MaxOf(s) == 0 || MaxOf(s) in s
  {
    if s != [] {
      MaxOfIsMax(s[..|s| - 1]);
      assert s == s[..|s| - 1] + [Last(s)];
    }
  }

  lemma MaxOfIgnoresOrder(s: seq<nat>, t: seq<nat>)
    requires multiset(s) == multiset(t)
    ensures MaxOf(s) == MaxOf(t)
  {
    MaxOfIsMax(s);
    MaxOfIsMax(t);
    assert forall x :: x in s <==> x in multiset(s);
    assert forall x :: x in t <==> x in multiset(t);
  }

  lemma SingletonsAgree(s: seq<Step>, t: seq<Step>)
    requires multiset(s) == multiset(t) && |s| <= 1
    ensures s == t
  {
    assert |s| == |multiset(s)| == |multiset(t)| == |t|;
    if |s| == 1 {
      assert s[0] in multiset(t);
    }
  }

  /** Shuffling the rows of any number of jobs changes no proper job's report. */
  lemma RowOrderIsIrrelevant(rows: seq<Row>, shuffled: seq<Row>, job: string)
    requires multiset(rows) == multiset(shuffled)
    requires Proper(rows, job)
    ensures Proper(shuffled, job)
    ensures Reported(Folded(shuffled), job) == Reported(Folded(rows), job)
  {
    OrderIsIrrelevant(rows, shuffled, (r: Row) => if Read(r).role == Main && Read(r).id == job then [Read(r)] else []);
    OrderIsIrrelevant(rows, shuffled, (r: Row) => if Read(r).role == Batch && Read(r).id == job then [Read(r)] else []);
    OrderIsIrrelevant(rows, shuffled, (r: Row) => if Read(r).id == job then [Read(r).rss] else []);
    assert multiset(RowsOf(rows, job, Main)) == multiset(RowsOf(shuffled, job, Main));
    assert multiset(RowsOf(rows, job, Batch)) == multiset(RowsOf(shuffled, job, Batch));
    assert multiset(RssOf(rows, job)) == multiset(RssOf(shuffled, job));
    SingletonsAgree(RowsOf(rows, job, Main), RowsOf(shuffled, job, Main));
    SingletonsAgree(RowsOf(rows, job, Batch), RowsOf(shuffled, job, Batch));
    MaxOfIgnoresOrder(RssOf(rows, job), RssOf(shuffled, job));
    FoldRefinesSpecification(rows, job);
    FoldRefinesSpecification(shuffled, job);
  }
}
