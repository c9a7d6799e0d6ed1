/** Reading job verdicts out of Slurm accounting rows, whatever their order. */
module Sacct {
  import opened Wrappers
  import opened Lists
  import opened Text

  /** One sacct row; durations and memory are already numbers. */
  datatype Row = Row(
    rawId: string,
    totalCpu: real,
    elapsed: real,
    allocCpus: string,
    rssBytes: nat,
    start: Option<int>,
    end: Option<int>,
    state: string,
    exitCode: string)

  const FAILURE_STATES := {"FAILED", "TIMEOUT", "OUT_OF_MEMORY", "CANCELLED", "NODE_FAIL", "PREEMPTED"}

  // ----- Fields -----

  /** `"." in raw_id`, and the id before the first dot. */
  function BaseId(rawId: string): string {
    Split(rawId, '.')[0]
  }

  /** `".batch" in raw_id` */
  predicate HasBatch(rawId: string) {
    ".batch" <= rawId || (rawId != "" && HasBatch(rawId[1..]))
  }

  function UntilSpace(s: string): string {
    if s == [] || IsSpace(s[0]) then [] else [s[0]] + UntilSpace(s[1..])
  }

  /** `state.split()[0] if state else ""` */
  function FirstWord(state: string): string {
    UntilSpace(LStrip(state))
  }

  /** Taking the first word of a state of blanks only raises an IndexError. */
  predicate IsBlank(state: string) {
    state != "" && LStrip(state) == ""
  }

  function AnyNonZero(parts: seq<string>): bool {
    if parts == [] then false
    else
      match ParseInt(Strip(parts[0]))
      case None => false
      case Some(n) => n != 0 || AnyNonZero(parts[1..])
  }

  /** `_slurm_exitcode_indicates_failure` */
  predicate IndicatesFailure(field: string) {
    var f := Strip(field);
    ':' in f && AnyNonZero(Split(f, ':'))
  }

  /** `_slurm_parse_exit_int` */
  function ExitInt(field: string): Option<int> {
    var f := Strip(field);
    if ':' !in f then None else ParseInt(Strip(Split(f, ':')[0]))
  }

  /** Exit and signal are both zero: printed the documented way, only 0:0 is a clean end, and a
      signal alone is a failure although the exit code reads 0. */
  lemma DocumentedExitCodes(exit: nat, signal: nat)
    ensures var field := Dec(exit) + ":" + Dec(signal);
            && (IndicatesFailure(field) <==> exit != 0 || signal != 0)
            && ExitInt(field) == Some(exit)
  {
    var a, b := Dec(exit), Dec(signal);
    ColonField(a, b);
    ParseTrimmedDec(exit);
    ParseTrimmedDec(signal);
    assert [a, b][1..] == [b];
    assert [b][1..] == [];
    assert AnyNonZero([b]) <==> signal != 0;
  }

  lemma ParseTrimmedDec(n: nat)
    ensures ParseInt(Strip(Dec(n))) == Some(n)
  {
    DigitsAreTrimmed(Dec(n));
    ParseIntDec(n);
  }

  lemma ColonField(a: string, b: string)
    requires a != "" && b != ""
    requires forall i :: 0 <= i < |a| ==> IsDigit(a[i])
    requires forall i :: 0 <= i < |b| ==> IsDigit(b[i])
    ensures var field := a + ":" + b;
            Strip(field) == field && ':' in field && Split(field, ':') == [a, b]
  {
    var field := a + ":" + b;
    assert field[0] == a[0] && field[|field| - 1] == b[|b| - 1] && field[|a|] == ':';
    StripFixesTrimmed(field);
    SplitConcat(a, ':', b);
    SplitNoSep(a, ':');
    SplitNoSep(b, ':');
  }

  /** What the loop reads off a row before it touches any table. */
  datatype Role = Main | Batch | Other

  datatype Step = Step(
    id: string,
    role: Role,
    rss: nat,
    cpu: real,
    elapsed: real,
    cpus: int,
    word: string,
    failing: bool,
    exit: Option<int>,
    start: Option<int>,
    end: Option<int>)

  function Cpus(text: string): int {
    if text == "" then 1 else ParseInt(text).GetOr(1)
  }

  function Read(r: Row): Step {
    Step(
      BaseId(r.rawId),
      if HasBatch(r.rawId) then Batch else if '.' !in r.rawId then Main else Other,
      r.rssBytes, r.totalCpu, r.elapsed, Cpus(r.allocCpus), FirstWord(r.state),
      IndicatesFailure(r.exitCode), ExitInt(r.exitCode), r.start, r.end)
  }

  /** The state of a main or batch row is read, that of any other row is not. */
  predicate Raises(r: Row) {
    (HasBatch(r.rawId) || '.' !in r.rawId) && IsBlank(r.state)
  }

  predicate AnyRaises(rows: seq<Row>) {
    Any(rows, Raises)
  }

  // ----- The tables the row loop fills -----

  datatype MainData = MainData(elapsed: real, allocCpus: int, totalCpu: real)

  datatype Tables = Tables(
    main: map<string, MainData>,
    batchCpu: map<string, real>,
    maxRss: map<string, nat>,
    start: map<string, Option<int>>,
    end: map<string, Option<int>>,
    state: map<string, string>,
    exitCode: map<string, int>)

  const EMPTY := Tables(map[], map[], map[], map[], map[], map[], map[])

  function WithRss(t: Tables, s: Step): Tables {
    if s.rss > Get(t.maxRss, s.id, 0) then t.(maxRss := t.maxRss[s.id := s.rss]) else t
  }

  function WithBatch(t: Tables, s: Step): Tables {
    t.(batchCpu := t.batchCpu[s.id := s.cpu],
       state := if s.word != "" && s.word in FAILURE_STATES then t.state[s.id := s.word]
                else if s.failing then t.state[s.id := "FAILED"]
                else t.state,
       exitCode := if s.exit.Some? then t.exitCode[s.id := s.exit.value] else t.exitCode)
  }

  function WithMain(t: Tables, s: Step): Tables {
    var state := if s.id in t.state then t.state else t.state[s.id := s.word];
    t.(main := t.main[s.id := MainData(s.elapsed, s.cpus, s.cpu)],
       state := if s.failing && state[s.id] == "COMPLETED" then state[s.id := "FAILED"] else state,
       exitCode := if s.exit.Some? && s.id !in t.exitCode then t.exitCode[s.id := s.exit.value] else t.exitCode,
       start := if s.start.Some? then t.start[s.id := s.start] else t.start,
       end := if s.end.Some? then t.end[s.id := s.end] else t.end)
  }

  /** One pass of the row loop. */
  function WithStep(t: Tables, s: Step): Tables {
    var u := WithRss(t, s);
    match s.role
    case Batch => WithBatch(u, s)
    case Main => WithMain(u, s)
    case Other => u
  }

  function Folded(rows: seq<Row>): Tables {
    Fold(EMPTY, rows, (t, r) => WithStep(t, Read(r)))
  }

  // ----- What is reported for a job -----

  datatype JobStats = JobStats(
    cpuEfficiency: real, maxRss: nat, totalCpu: real, start: Option<int>, end: Option<int>, state: Option<string>, exitCode: Option<int>)

  function Efficiency(totalCpu: real, elapsed: real, cpus: int): real {
    var denominator := elapsed * (if cpus > 1 then cpus else 1) as real;
    if denominator > 0.0 then totalCpu / denominator * 100.0 else 0.0
  }

  function Find<V>(m: map<string, V>, k: string): Option<V> {
    if k in m then Some(m[k]) else None
  }

  function Reported(t: Tables, job: string): Option<JobStats> {
    if job !in t.main then None
    else
      var data := t.main[job];
      var batch := Get(t.batchCpu, job, 0.0);
      var cpu := if batch != 0.0 then batch else data.totalCpu;
      Some(JobStats(
        Efficiency(cpu, data.elapsed, data.allocCpus), Get(t.maxRss, job, 0), cpu,
        Get(t.start, job, None), Get(t.end, job, None), Find(t.state, job), Find(t.exitCode, job)))
  }

  /** The row loop and the final report of `get_job_stats`; None stands for the IndexError. */
  method GetJobStats(validIds: seq<string>, rows: seq<Row>) returns (stats: Option<map<string, JobStats>>)
    ensures stats == if AnyRaises(rows) then None
                     else Some(map job | job in validIds && Reported(Folded(rows), job).Some? :: Reported(Folded(rows), job).value)
  {
    var folded := FoldRows(rows);
    if folded.None? {
      return None;
    }
    var report := ReportAll(validIds, folded.value);
    stats := Some(report);
  }

  method ReportAll(validIds: seq<string>, t: Tables) returns (stats: map<string, JobStats>)
    ensures stats == map job | job in validIds && Reported(t, job).Some? :: Reported(t, job).value
  {
    stats := map[];
    for i := 0 to |validIds|
      invariant stats == map job | job in validIds[..i] && Reported(t, job).Some? :: Reported(t, job).value
    {
      var reported := Reported(t, validIds[i]);
      if reported.None? {
        continue;
      }
      stats := stats[validIds[i] := reported.value];
    }
    assert validIds[..|validIds|] == validIds;
  }

  method FoldRows(rows: seq<Row>) returns (folded: Option<Tables>)
    ensures folded.None? <==> AnyRaises(rows)
    ensures folded.Some? ==> folded.value == Folded(rows)
  {
    var t := EMPTY;
    ghost var pass := (t: Tables, r: Row) => WithStep(t, Read(r));
    for i := 0 to |rows|
      invariant t == Fold(EMPTY, rows[..i], pass)
      invariant !AnyRaises(rows[..i])
    {
      assert rows[..i + 1][..i] == rows[..i];
      var raised := Raises(rows[i]);
      AnySoFar(rows, i, Raises);
      if raised {
        return None;
      }
      t := FoldStep(t, Read(rows[i]));
    }
    assert rows[..|rows|] == rows;
    folded := Some(t);
  }

  /** The loop body, updating one table after the other. */
  method FoldStep(before: Tables, s: Step) returns (t: Tables)
    ensures t == WithStep(before, s)
  {
    t := before;
    if s.rss > Get(t.maxRss, s.id, 0) {
      t := t.(maxRss := t.maxRss[s.id := s.rss]);
    }
    if s.role.Batch? {
      t := FoldBatch(t, s);
    } else if s.role.Main? {
      t := FoldMain(t, s);
    }
  }

  method FoldBatch(before: Tables, s: Step) returns (t: Tables)
    ensures t == WithBatch(before, s)
  {
    t := before.(batchCpu := before.batchCpu[s.id := s.cpu]);
    if s.word != "" && s.word in FAILURE_STATES {
      t := t.(state := t.state[s.id := s.word]);
    } else if s.failing {
      t := t.(state := t.state[s.id := "FAILED"]);
    }
    if s.exit.Some? {
      t := t.(exitCode := t.exitCode[s.id := s.exit.value]);
    }
  }

  method FoldMain(before: Tables, s: Step) returns (t: Tables)
    ensures t == WithMain(before, s)
  {
    var main := before.main[s.id := MainData(s.elapsed, s.cpus, s.cpu)];
    var state, exitCode, start, end := before.state, before.exitCode, before.start, before.end;
    if s.id !in state {
      state := state[s.id := s.word];
    }
    if s.failing && state[s.id] == "COMPLETED" {
      state := state[s.id := "FAILED"];
    }
    if s.exit.Some? && s.id !in exitCode {
      exitCode := exitCode[s.id := s.exit.value];
    }
    if s.start.Some? {
      start := start[s.id := s.start];
    }
    if s.end.Some? {
      end := end[s.id := s.end];
    }
    t := Tables(main, before.batchCpu, before.maxRss, start, end, state, exitCode);
  }
}
