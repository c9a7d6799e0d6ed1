/** Accounting from the text of its rows: which job a row belongs to, what it says, and what is reported. */
module SacctRows {
  import opened Wrappers
  import opened Lists
  import opened Text
  import opened Sacct
  import opened SacctOrder

  // ----- The id of a row -----

  predicate Occurs(part: string, s: string) {
    exists i :: 0 <= i <= |s| && part <= s[i..]
  }

  lemma {:induction false} HasBatchIfOccurs(s: string)
    ensures HasBatch(s) <==> Occurs(".batch", s)
  {
    if s != [] {
      HasBatchIfOccurs(s[1..]);
      if i :| 0 <= i <= |s| && ".batch" <= s[i..] {
        if i > 0 {
          assert s[1..][i - 1..] == s[i..];
        } else {
          assert s[0..] == s;
        }
      }
      if HasBatch(s) {
        if ".batch" <= s {
          assert s[0..] == s;
        } else {
          var i :| 0 <= i <= |s[1..]| && ".batch" <= s[1..][i..];
          assert s[i + 1..] == s[1..][i..];
        }
      }
    }
  }

  lemma BaseIdExactly(rawId: string, job: string)
    requires '.' !in job
    ensures BaseId(rawId) == job <==> rawId == job || job + "." <= rawId
  {
    SplitNoSep(job, '.');
    if rawId == job {
    } else if job + "." <= rawId {
      var rest := rawId[|job| + 1..];
      assert rawId == job + ['.'] + rest;
      SplitConcat(job, '.', rest);
    } else if '.' !in rawId {
      SplitNoSep(rawId, '.');
    } else {
      var n := FirstDot(rawId);
      var head, rest := rawId[..n], rawId[n + 1..];
      assert rawId == head + ['.'] + rest;
      SplitConcat(head, '.', rest);
      SplitNoSep(head, '.');
      assert head + "." <= rawId;
    }
  }

  function FirstDot(s: string): (n: nat)
    requires '.' in s
    ensures n < |s| && s[n] == '.' && '.' !in s[..n]
  {
    if s[0] == '.' then 0
    else
      var n := FirstDot(s[1..]) + 1;
      assert s[..n] == [s[0]] + s[1..][..n - 1];
      n
  }

  /** For a job id without a dot: the row of that id is the job's main row, rows of the id, a dot and a step
      are its steps, a batch row just if `.batch` occurs in it, and no other row belongs to the job. */
  lemma RowOfJobExactly(r: Row, job: string)
    requires '.' !in job
    ensures Read(r).id == job <==> r.rawId == job || job + "." <= r.rawId
    ensures Read(r).id == job && Read(r).role == Main <==> r.rawId == job
    ensures Read(r).id == job && Read(r).role == Batch <==> job + "." <= r.rawId && Occurs(".batch", r.rawId)
  {
    BaseIdExactly(r.rawId, job);
    HasBatchIfOccurs(r.rawId);
    if Occurs(".batch", r.rawId) {
      var i :| 0 <= i <= |r.rawId| && ".batch" <= r.rawId[i..];
      assert r.rawId[i] == ".batch"[0];
    }
    if job + "." <= r.rawId {
      assert r.rawId[|job|] == '.';
    }
  }

  lemma BatchRow(r: Row, job: string)
    requires '.' !in job && r.rawId == job + ".batch"
    ensures Read(r).id == job && Read(r).role == Batch
  {
    assert r.rawId[|job|..] == ".batch";
    assert job + "." <= r.rawId;
    RowOfJobExactly(r, job);
  }

  // ----- The state of a row -----

  predicate IsWord(w: string) {
    w != "" && forall i :: 0 <= i < |w| ==> !IsSpace(w[i])
  }

  lemma {:induction false} WordComesFirst(w: string, rest: string)
    requires forall i :: 0 <= i < |w| ==> !IsSpace(w[i])
    requires rest == "" || IsSpace(rest[0])
    ensures UntilSpace(w + rest) == w
  {
    if w == "" {
      assert w + rest == rest;
    } else {
      assert (w + rest)[1..] == w[1..] + rest;
      WordComesFirst(w[1..], rest);
    }
  }

  /** A state is read up to the first blank: "CANCELLED by 1000" is CANCELLED. */
  lemma FirstWordOf(w: string, rest: string)
    requires IsWord(w) && (rest == "" || IsSpace(rest[0]))
    ensures FirstWord(w + rest) == w
  {
    assert (w + rest)[0] == w[0];
    WordComesFirst(w, rest);
  }

  lemma CancelledBySomeone()
    ensures FirstWord("CANCELLED by 1000") == "CANCELLED"
  {
    assert "CANCELLED by 1000" == "CANCELLED" + " by 1000";
    FirstWordOf("CANCELLED", " by 1000");
  }

  // ----- The exit code of a row -----

  /** The k-th part is a number other than zero, and those before it are numbers. */
  predicate NonZeroAt(parts: seq<string>, k: nat) {
    && k < |parts|
    && ParseInt(Strip(parts[k])).Some? && ParseInt(Strip(parts[k])).value != 0
    && forall j :: 0 <= j < k ==> ParseInt(Strip(parts[j])).Some?
  }

  ghost predicate SomeNonZero(parts: seq<string>) {
    exists k: nat :: NonZeroAt(parts, k)
  }

  lemma {:induction false} AnyNonZeroExactly(parts: seq<string>)
    ensures AnyNonZero(parts) <==> SomeNonZero(parts)
  {
    if parts != [] {
      var rest := parts[1..];
      AnyNonZeroExactly(rest);
      if AnyNonZero(parts) {
        if ParseInt(Strip(parts[0])).value != 0 {
          assert NonZeroAt(parts, 0);
        } else {
          var k: nat :| NonZeroAt(rest, k);
          assert forall j :: 1 <= j <= k + 1 ==> parts[j] == rest[j - 1];
          assert NonZeroAt(parts, k + 1);
        }
      }
      if k: nat :| NonZeroAt(parts, k) {
        if k > 0 {
          assert forall j :: 0 <= j < k ==> rest[j] == parts[j + 1];
          assert NonZeroAt(rest, k - 1);
        }
      }
    }
  }

  /** Any exit field, well formed or not: without a colon it says nothing; else it tells a failure if and only
      if some part is a nonzero number, all parts before it being numbers, and the exit code is what stands
      before the first colon, if that is a number. */
  lemma ExitFieldExactly(field: string, head: string, rest: string)
    ensures ':' !in Strip(field) ==> !IndicatesFailure(field) && ExitInt(field).None?
    ensures Strip(field) == head + ":" + rest && ':' !in head ==> ExitInt(field) == ParseInt(Strip(head))
    ensures ':' in Strip(field) ==> (IndicatesFailure(field) <==> SomeNonZero(Split(Strip(field), ':')))
  {
    AnyNonZeroExactly(Split(Strip(field), ':'));
    assert IndicatesFailure(field) == (':' in Strip(field) && AnyNonZero(Split(Strip(field), ':')));
    if Strip(field) == head + ":" + rest && ':' !in head {
      assert Strip(field)[|head|] == ':';
      SplitConcat(head, ':', rest);
      SplitNoSep(head, ':');
    }
  }

  // ----- The report -----

  /** The batch state that overrules the main row. */
  predicate Overrules(word: string) {
    word in ["FAILED", "TIMEOUT", "OUT_OF_MEMORY", "CANCELLED", "NODE_FAIL", "PREEMPTED"]
  }

  lemma OverrulesExactly(word: string)
    ensures Overrules(word) <==> word in FAILURE_STATES
  {
  }

  predicate Belongs(r: Row, job: string) {
    r.rawId == job || job + "." <= r.rawId
  }

  /** Rows of a job other than its main and batch row. */
  ghost predicate OtherSteps(steps: seq<Row>, job: string) {
    forall i :: 0 <= i < |steps| ==> job + "." <= steps[i].rawId && !Occurs(".batch", steps[i].rawId)
  }

  ghost predicate Strangers(others: seq<Row>, job: string) {
    forall i :: 0 <= i < |others| ==> !Belongs(others[i], job)
  }

  lemma NoneOfRole(rows: seq<Row>, job: string, role: Role)
    requires '.' !in job && (OtherSteps(rows, job) || Strangers(rows, job)) && !role.Other?
    ensures RowsOf(rows, job, role) == []
  {
    var f := (r: Row) => if Read(r).role == role && Read(r).id == job then [Read(r)] else [];
    forall i | 0 <= i < |rows|
      ensures f(rows[i]) == []
    {
      RowOfJobExactly(rows[i], job);
    }
    CollectNothing(rows, f);
  }

  lemma RowsOfConcat(a: seq<Row>, b: seq<Row>, job: string, role: Role)
    ensures RowsOf(a + b, job, role) == RowsOf(a, job, role) + RowsOf(b, job, role)
  {
    CollectConcat(a, b, (r: Row) => if Read(r).role == role && Read(r).id == job then [Read(r)] else []);
  }

  lemma RowsOfOne(r: Row, job: string, role: Role)
    ensures RowsOf([r], job, role) == if Read(r).role == role && Read(r).id == job then [Read(r)] else []
  {
    CollectOne(r, (s: Row) => if Read(s).role == role && Read(s).id == job then [Read(s)] else []);
  }

  /** A job's rows in one list: main row, batch row, further steps, and rows of other jobs. */
  function AllRows(main: Row, batch: Row, steps: seq<Row>, others: seq<Row>): seq<Row> {
    [main] + [batch] + steps + others
  }

  lemma MainAndBatch(main: Row, batch: Row, steps: seq<Row>, others: seq<Row>, job: string)
    requires '.' !in job && main.rawId == job && batch.rawId == job + ".batch"
    requires OtherSteps(steps, job) && Strangers(others, job)
    ensures RowsOf(AllRows(main, batch, steps, others), job, Main) == [Read(main)]
    ensures RowsOf(AllRows(main, batch, steps, others), job, Batch) == [Read(batch)]
  {
    BatchRow(batch, job);
    RowOfJobExactly(main, job);
    RoleAmong(main, batch, steps, others, job, Main);
    RoleAmong(main, batch, steps, others, job, Batch);
  }

  lemma RoleAmong(main: Row, batch: Row, steps: seq<Row>, others: seq<Row>, job: string, role: Role)
    requires '.' !in job && OtherSteps(steps, job) && Strangers(others, job) && !role.Other?
    ensures RowsOf(AllRows(main, batch, steps, others), job, role) == RowsOf([main], job, role) + RowsOf([batch], job, role)
    ensures RowsOf([main], job, role) == if Read(main).role == role && Read(main).id == job then [Read(main)] else []
    ensures RowsOf([batch], job, role) == if Read(batch).role == role && Read(batch).id == job then [Read(batch)] else []
  {
    RowsOfConcat([main] + [batch] + steps, others, job, role);
    RowsOfConcat([main] + [batch], steps, job, role);
    RowsOfConcat([main], [batch], job, role);
    NoneOfRole(steps, job, role);
    NoneOfRole(others, job, role);
    RowsOfOne(main, job, role);
    RowsOfOne(batch, job, role);
  }

  lemma {:induction false} RssOfBelongs(rows: seq<Row>, job: string, x: nat)
    requires '.' !in job
    ensures x in RssOf(rows, job) <==> exists i :: 0 <= i < |rows| && Belongs(rows[i], job) && rows[i].rssBytes == x
  {
    if rows != [] {
      var init, r := rows[..|rows| - 1], Last(rows);
      RssOfBelongs(init, job, x);
      RowOfJobExactly(r, job);
      assert RssOf(rows, job) == RssOf(init, job) + if Read(r).id == job then [Read(r).rss] else [];
      assert forall i :: 0 <= i < |init| ==> init[i] == rows[i];
      assert rows[|init|] == r;
    }
  }

  /** The largest memory figure among the job's rows, whichever step had it; 0 if none has any. */
  ghost predicate IsPeak(rss: nat, rows: seq<Row>, job: string) {
    && (forall i :: 0 <= i < |rows| && Belongs(rows[i], job) ==> rows[i].rssBytes <= rss)
    && (rss == 0 || exists i :: 0 <= i < |rows| && Belongs(rows[i], job) && rows[i].rssBytes == rss)
  }

  lemma PeakIsMax(rows: seq<Row>, job: string)
    requires '.' !in job
    ensures IsPeak(MaxOf(RssOf(rows, job)), rows, job)
  {
    var rss := RssOf(rows, job);
    MaxOfIsMax(rss);
    RssOfBelongs(rows, job, MaxOf(rss));
    forall i | 0 <= i < |rows| && Belongs(rows[i], job)
      ensures rows[i].rssBytes <= MaxOf(rss)
    {
      RssOfBelongs(rows, job, rows[i].rssBytes);
    }
  }

  /** The state of a job by its two rows' texts. */
  function StateByText(main: Row, batch: Row): string {
    if Overrules(FirstWord(batch.state)) then FirstWord(batch.state)
    else if IndicatesFailure(batch.exitCode) then "FAILED"
    else if FirstWord(main.state) == "COMPLETED" && IndicatesFailure(main.exitCode) then "FAILED"
    else FirstWord(main.state)
  }

  /** The report of a job from the texts of its rows, in any order and among rows of any other jobs: the
      batch row overrules the state and the exit code of the main row, memory is the peak of all steps. */
  lemma ReportByText(
    rows: seq<Row>, main: Row, batch: Row, steps: seq<Row>, others: seq<Row>, job: string)
    requires '.' !in job && main.rawId == job && batch.rawId == job + ".batch"
    requires OtherSteps(steps, job) && Strangers(others, job)
    requires multiset(rows) == multiset(AllRows(main, batch, steps, others))
    ensures Reported(Folded(rows), job).Some?
    ensures var report := Reported(Folded(rows), job).value;
            && report.state == Some(StateByText(main, batch))
            && report.exitCode == (if ExitInt(batch.exitCode).Some? then ExitInt(batch.exitCode) else ExitInt(main.exitCode))
            && report.totalCpu == (if batch.totalCpu != 0.0 then batch.totalCpu else main.totalCpu)
            && IsShare(report.cpuEfficiency, report.totalCpu, main)
            && report.start == main.start && report.end == main.end
            && IsPeak(report.maxRss, AllRows(main, batch, steps, others), job)
  {
    var all := AllRows(main, batch, steps, others);
    MainAndBatch(main, batch, steps, others, job);
    RowOrderIsIrrelevant(all, rows, job);
    FoldRefinesSpecification(all, job);
    PeakIsMax(all, job);
    SpecifiedByText(main, batch, MaxOf(RssOf(all, job)));
    assert First([Read(main)]) == Some(Read(main)) && First([Read(batch)]) == Some(Read(batch));
  }

  /** CPU time as a share of the time the allocated CPUs were held, in percent; an unreadable number of
      CPUs, and less than one, count as one. */
  predicate IsShare(efficiency: real, cpu: real, main: Row) {
    var n := if main.allocCpus != "" && ParseInt(main.allocCpus).Some? then ParseInt(main.allocCpus).value else 1;
    var held := main.elapsed * (if n > 1 then n else 1) as real;
    if held > 0.0 then efficiency * held == cpu * 100.0 else efficiency == 0.0
  }

  lemma EfficiencyIsShare(cpu: real, main: Row)
    ensures IsShare(Efficiency(cpu, main.elapsed, Cpus(main.allocCpus)), cpu, main)
  {
    var n := Cpus(main.allocCpus);
    var held := main.elapsed * (if n > 1 then n else 1) as real;
    if held > 0.0 {
      ShareOf(cpu, held);
    }
  }

  lemma ShareOf(cpu: real, held: real)
    requires held > 0.0
    ensures cpu / held * 100.0 * held == cpu * 100.0
  {
    assert cpu / held * held == cpu;
  }

  /** A job without a batch row is reported as its main row says, a nonzero exit under COMPLETED being a
      failure. */
  lemma ReportWithoutBatch(rows: seq<Row>, main: Row, steps: seq<Row>, others: seq<Row>, job: string)
    requires '.' !in job && main.rawId == job && OtherSteps(steps, job) && Strangers(others, job)
    requires multiset(rows) == multiset([main] + steps + others)
    ensures Reported(Folded(rows), job).Some?
    ensures var report, word := Reported(Folded(rows), job).value, FirstWord(main.state);
            && report.state == Some(if word == "COMPLETED" && IndicatesFailure(main.exitCode) then "FAILED" else word)
            && report.exitCode == ExitInt(main.exitCode)
            && report.totalCpu == main.totalCpu && IsShare(report.cpuEfficiency, main.totalCpu, main)
            && report.start == main.start && report.end == main.end
            && IsPeak(report.maxRss, [main] + steps + others, job)
  {
    var all := [main] + steps + others;
    OnlyMain(main, steps, others, job);
    RowOrderIsIrrelevant(all, rows, job);
    FoldRefinesSpecification(all, job);
    PeakIsMax(all, job);
    EfficiencyIsShare(main.totalCpu, main);
    assert First([Read(main)]) == Some(Read(main));
  }

  lemma OnlyMain(main: Row, steps: seq<Row>, others: seq<Row>, job: string)
    requires '.' !in job && main.rawId == job && OtherSteps(steps, job) && Strangers(others, job)
    ensures RowsOf([main] + steps + others, job, Main) == [Read(main)]
    ensures RowsOf([main] + steps + others, job, Batch) == []
  {
    RowOfJobExactly(main, job);
    OnlyMainOfRole(main, steps, others, job, Main);
    OnlyMainOfRole(main, steps, others, job, Batch);
  }

  lemma OnlyMainOfRole(main: Row, steps: seq<Row>, others: seq<Row>, job: string, role: Role)
    requires '.' !in job && OtherSteps(steps, job) && Strangers(others, job) && !role.Other?
    ensures RowsOf([main] + steps + others, job, role) ==
              if Read(main).role == role && Read(main).id == job then [Read(main)] else []
  {
    RowsOfConcat([main] + steps, others, job, role);
    RowsOfConcat([main], steps, job, role);
    NoneOfRole(steps, job, role);
    NoneOfRole(others, job, role);
    RowsOfOne(main, job, role);
  }

  /** Without its main row a job is not reported at all. */
  lemma {:induction false} NoMainNoReport(rows: seq<Row>, job: string)
    requires '.' !in job && forall i :: 0 <= i < |rows| ==> rows[i].rawId != job
    ensures Reported(Folded(rows), job).None?
  {
    if rows != [] {
      var init, s := rows[..|rows| - 1], Read(Last(rows));
      NoMainNoReport(init, job);
      RowOfJobExactly(Last(rows), job);
      CellStep(Folded(init), s, job);
      assert Folded(rows) == WithStep(Folded(init), s);
      assert CellOf(Folded(init), job).main.None? && CellOf(Folded(rows), job).main.None?;
    }
  }

  /** The specification for two rows, in terms of their texts. */
  lemma SpecifiedByText(main: Row, batch: Row, rss: nat)
    ensures var report := JobReport(Some(Read(main)), Some(Read(batch)), rss);
            && report.Some?
            && report.value.state == Some(StateByText(main, batch))
            && report.value.exitCode ==
                 (if ExitInt(batch.exitCode).Some? then ExitInt(batch.exitCode) else ExitInt(main.exitCode))
            && report.value.totalCpu == (if batch.totalCpu != 0.0 then batch.totalCpu else main.totalCpu)
            && IsShare(report.value.cpuEfficiency, report.value.totalCpu, main)
            && report.value.start == main.start && report.value.end == main.end && report.value.maxRss == rss
  {
    EfficiencyIsShare(if batch.totalCpu != 0.0 then batch.totalCpu else main.totalCpu, main);
    OverrulesExactly(FirstWord(batch.state));
    assert BatchState(Some(Read(batch))) ==
      if Overrules(FirstWord(batch.state)) then Some(FirstWord(batch.state))
      else if IndicatesFailure(batch.exitCode) then Some("FAILED") else None;
  }

  /** A job whose main row says COMPLETED 0:0 and whose batch row was killed for memory: it is reported
      OUT_OF_MEMORY, with exit code 0, in either order of the rows. */
  lemma MaskedOutOfMemory(job: string, main: Row, batch: Row, rows: seq<Row>)
    requires '.' !in job && main.rawId == job && main.state == "COMPLETED" && main.exitCode == "0:0"
    requires batch.rawId == job + ".batch" && batch.state == "OUT_OF_MEMORY" && batch.exitCode == "0:125"
    requires rows == [main, batch] || rows == [batch, main]
    ensures Reported(Folded(rows), job).Some?
    ensures Reported(Folded(rows), job).value.state == Some("OUT_OF_MEMORY")
    ensures Reported(Folded(rows), job).value.exitCode == Some(0)
  {
    assert AllRows(main, batch, [], []) == [main, batch];
    ReportByText(rows, main, batch, [], [], job);
    OutOfMemoryText(batch.state, batch.exitCode);
  }

  lemma OutOfMemoryText(state: string, exitCode: string)
    requires state == "OUT_OF_MEMORY" && exitCode == "0:125"
    ensures FirstWord(state) == state && Overrules(state) && ExitInt(exitCode) == Some(0)
  {
    FirstWordOf(state, "");
    assert state + "" == state;
    DecOf125();
    DocumentedExitCodes(0, 125);
  }

  lemma DecOf125()
    ensures Dec(0) + ":" + Dec(125) == "0:125"
  {
    assert Dec(1) == "1";
    assert Dec(12) == Dec(1) + "2";
    assert Dec(125) == Dec(12) + "5";
  }
}
