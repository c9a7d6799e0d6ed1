/** What a plan deletes, exactly: from the runs that are known, the request, and the text of the paths. */
module CleanupVerdicts {
  import opened Wrappers
  import opened Lists
  import opened Text
  import opened RemotePaths
  import opened Directories
  import opened DiskModel
  import opened Classify
  import opened DiskEntries
  import opened Cleanup
  import opened CleanupSafety
  import opened CleanupDirectories

  // ----- What holds an entry -----

  /** The path is or lies in the child `name` of the i-th root, and below no root listed before it. */
  predicate LeadsTo(d: string, roots: seq<string>, i: nat, name: string) {
    && i < |roots| && Contains(roots[i] + "/" + name, d)
    && forall j :: 0 <= j < i ==> !Below(roots[j], d)
  }

  /** A clone is held by its name wherever it is, a workspace by its path. */
  predicate PathHolds(d: string, e: Entry, roots: seq<string>) {
    exists i :: 0 <= i < |roots| && LeadsTo(d, roots, i, BaseName(e.path))
      && (e.kind.Agent? ==> roots[i] + "/" + BaseName(e.path) == e.path)
  }

  predicate DirHolds(run: Run, e: Entry, req: Request) {
    || (exists i :: 0 <= i < |run.workingDirs| && PathHolds(Normalize(run.workingDirs[i], req.home), e, CloneRoots(req)))
    || (LogsRemotely(run) && PathHolds(Normalize(run.logDir, req.home), e, CloneRoots(req)))
  }

  predicate LogsRemotely(run: Run) {
    run.logDir != "" && !("backend://" <= run.logDir)
  }

  /** The name of the clone is the first twelve characters of the commit hash. */
  predicate CommitHolds(run: Run, e: Entry) {
    run.commitHash.Some? && |BaseName(e.path)| == 12 && BaseName(e.path) <= run.commitHash.value
  }

  predicate Holds(run: Run, e: Entry, req: Request) {
    match e.kind
    case Clone => CommitHolds(run, e) || DirHolds(run, e, req)
    case Agent => DirHolds(run, e, req)
    case Log => LogsRemotely(run) && Contains(e.path, Normalize(run.logDir, req.home))
    case _ => false
  }

  ghost predicate HolderId(runs: seq<Run>, backend: string, e: Entry, req: Request, id: string) {
    exists r :: r in runs && r.backend == backend && r.id == id && Holds(r, e, req)
  }

  /** Some known run of the backend holds the entry. */
  ghost predicate Held(runs: seq<Run>, backend: string, e: Entry, req: Request) {
    exists r :: r in runs && r.backend == backend && Holds(r, e, req)
  }

  /** One that is pending or running does, runs being told apart by their ids. */
  ghost predicate HeldActively(runs: seq<Run>, backend: string, e: Entry, req: Request) {
    exists r, a ::
      && r in runs && r.backend == backend && Holds(r, e, req)
      && a in runs && a.backend == backend && a.id == r.id && (a.status.Pending? || a.status.Running?)
  }

  ghost predicate UniqueIds(runs: seq<Run>) {
    forall r, a :: r in runs && a in runs && r.id == a.id ==> r == a
  }

  lemma HeldByActiveRun(runs: seq<Run>, backend: string, e: Entry, req: Request)
    requires UniqueIds(runs)
    ensures HeldActively(runs, backend, e, req) <==>
              exists r :: r in runs && r.backend == backend && Holds(r, e, req) && (r.status.Pending? || r.status.Running?)
  {
  }

  // ----- The tables say the same -----

  lemma {:induction false} FirstAboveDecides(d: string, roots: seq<string>, i: nat)
    requires i < |roots| && Below(roots[i], d) && forall j :: 0 <= j < i ==> !Below(roots[j], d)
    ensures FirstComponentUnder(d, roots[i]).Some?
    ensures ChildOf(d, roots) == ChildNamed(roots[i], FirstComponentUnder(d, roots[i]).value)
  {
    if i > 0 {
      assert !Below(roots[0], d);
      FirstAboveDecides(d, roots[1..], i - 1);
    }
  }

  lemma {:induction false} FirstAbove(d: string, roots: seq<string>) returns (i: nat)
    requires ChildOf(d, roots) != NoChild
    ensures i < |roots| && Below(roots[i], d) && forall j :: 0 <= j < i ==> !Below(roots[j], d)
  {
    if Below(roots[0], d) {
      i := 0;
    } else {
      var k := FirstAbove(d, roots[1..]);
      i := k + 1;
      assert forall j :: 1 <= j < i ==> roots[j] == roots[1..][j - 1];
    }
  }

  lemma BaseHasNoSlash(path: string)
    ensures '/' !in BaseName(path)
  {
    SplitPartsNoSep(path, '/');
  }

  /** The entry's own child, in the words of the paths. */
  lemma PathHoldsExactly(d: string, e: Entry, roots: seq<string>)
    requires e.kind.Clone? ==> IsCloneName(BaseName(e.path))
    requires e.kind.Agent? ==> IsAgentName(BaseName(e.path))
    requires e.kind.Clone? || e.kind.Agent?
    ensures PathHolds(d, e, roots) <==> ChildOf(d, roots) == OwnChild(e)
  {
    var name := BaseName(e.path);
    BaseHasNoSlash(e.path);
    if IsAgentName(name) {
      NamesAreExclusive(name);
    }
    if PathHolds(d, e, roots) {
      var i :| 0 <= i < |roots| && LeadsTo(d, roots, i, name) && (e.kind.Agent? ==> roots[i] + "/" + name == e.path);
      FirstComponentInside(roots[i], name, d);
      FirstAboveDecides(d, roots, i);
    }
    if ChildOf(d, roots) == OwnChild(e) {
      var i := FirstAbove(d, roots);
      FirstAboveDecides(d, roots, i);
      var first := FirstComponentUnder(d, roots[i]).value;
      FirstIsPart(d, roots[i], first);
      FirstComponentLeads(roots[i], first, d);
      BaseNameOfChild(roots[i], first);
      assert first == name;
      assert LeadsTo(d, roots, i, name);
    }
  }

  lemma FirstIsPart(d: string, root: string, first: string)
    requires FirstComponentUnder(d, root) == Some(first)
    ensures '/' !in first
  {
    SplitPartsNoSep(d[|root| + 1..], '/');
  }

  lemma CommitHoldsExactly(run: Run, e: Entry)
    requires e.kind.Clone? && IsCloneName(BaseName(e.path))
    ensures CommitHolds(run, e) <==> CommitRefers(run, CloneRef(BaseName(e.path)))
  {
    var name := BaseName(e.path);
    if run.commitHash.Some? {
      var commit := run.commitHash.value;
      assert name <= commit && |name| == 12 ==> commit[..12] == name;
    }
  }

  lemma DirHoldsExactly(run: Run, e: Entry, req: Request)
    requires e.kind.Clone? || e.kind.Agent?
    requires e.kind.Clone? ==> IsCloneName(BaseName(e.path))
    requires e.kind.Agent? ==> IsAgentName(BaseName(e.path))
    ensures DirHolds(run, e, req) <==> PathsRefer(RunPaths(run, req.home), OwnRef(e), CloneRoots(req))
  {
    var roots := CloneRoots(req);
    var dirs := NormalizeAll(run.workingDirs, req.home);
    RunPathsRefer(run, roots, req.home);
    forall d
      ensures PathHolds(d, e, roots) <==> PathRefers(d, OwnRef(e), roots)
    {
      PathHoldsExactly(d, e, roots);
    }
    assert PathsRefer(dirs, OwnRef(e), roots) <==>
      exists i :: 0 <= i < |run.workingDirs| && PathHolds(Normalize(run.workingDirs[i], req.home), e, roots) by {
      if PathsRefer(dirs, OwnRef(e), roots) {
        var i :| 0 <= i < |dirs| && PathRefers(dirs[i], OwnRef(e), roots);
        assert PathHolds(Normalize(run.workingDirs[i], req.home), e, roots);
      }
      if i :| 0 <= i < |run.workingDirs| && PathHolds(Normalize(run.workingDirs[i], req.home), e, roots) {
        assert PathRefers(dirs[i], OwnRef(e), roots);
      }
    }
  }

  /** The entry carries a name of its kind, as what passes the last check does. */
  predicate WellNamed(e: Entry) {
    && (e.kind.Clone? ==> IsCloneName(BaseName(e.path)))
    && (e.kind.Agent? ==> IsAgentName(BaseName(e.path)))
  }

  lemma HoldsExactly(run: Run, e: Entry, req: Request)
    requires WellNamed(e) && (e.kind.Clone? || e.kind.Agent?)
    ensures Holds(run, e, req) <==> Refers(run, OwnRef(e), CloneRoots(req), req.home)
  {
    DirHoldsExactly(run, e, req);
    if e.kind.Clone? {
      CommitHoldsExactly(run, e);
    }
  }

  /** The runs that classification finds for an entry are those that hold it. */
  lemma HoldersAreRuns(runs: seq<Run>, backend: string, refs: Refs, e: Entry, req: Request, id: string)
    requires RefsOf(refs, runs, backend, req) && WellNamed(e)
    requires e.kind.Clone? || e.kind.Agent? || e.kind.Log?
    ensures id in Holders(e, refs) <==> HolderId(runs, backend, e, req, id)
  {
    if e.kind.Log? {
      LogHoldersAreRuns(runs, backend, refs, e, req, id);
    } else {
      assert id in Holders(e, refs) <==> Referrer(runs, backend, id, OwnRef(e), CloneRoots(req), req.home);
      forall r | r in runs
        ensures Holds(r, e, req) <==> Refers(r, OwnRef(e), CloneRoots(req), req.home)
      {
        HoldsExactly(r, e, req);
      }
    }
  }

  lemma LogHoldersAreRuns(runs: seq<Run>, backend: string, refs: Refs, e: Entry, req: Request, id: string)
    requires RefsOf(refs, runs, backend, req) && e.kind.Log?
    ensures id in Holders(e, refs) <==> HolderId(runs, backend, e, req, id)
  {
    if id in Holders(e, refs) {
      var dir :| dir in refs.logs && Contains(e.path, dir) && id in refs.logs[dir];
      LogHolderIsRun(runs, backend, refs, e, req, id, dir);
    }
    if HolderId(runs, backend, e, req, id) {
      var r :| r in runs && r.backend == backend && r.id == id && Holds(r, e, req);
      var ld := Normalize(r.logDir, req.home);
      assert Refers(r, LogRef(ld), CloneRoots(req), req.home);
      assert Referrer(runs, backend, id, LogRef(ld), CloneRoots(req), req.home);
      assert id in Ids(refs, LogRef(ld));
    }
  }

  lemma LogHolderIsRun(runs: seq<Run>, backend: string, refs: Refs, e: Entry, req: Request, id: string, dir: string)
    requires RefsOf(refs, runs, backend, req) && e.kind.Log?
    requires dir in refs.logs && Contains(e.path, dir) && id in refs.logs[dir]
    ensures HolderId(runs, backend, e, req, id)
  {
    assert id in Ids(refs, LogRef(dir));
    var r :| r in runs && r.backend == backend && r.id == id && Refers(r, LogRef(dir), CloneRoots(req), req.home);
    assert LogRefers(r, LogRef(dir), req.home);
    assert Holds(r, e, req);
  }

  // ----- The class of an entry -----

  ghost predicate HoldersIn(ids: set<string>, runs: seq<Run>, backend: string, e: Entry, req: Request) {
    forall id :: id in ids <==> HolderId(runs, backend, e, req, id)
  }

  /** Active, referenced or orphaned: by what the runs hold. */
  lemma ClassFromRuns(runs: seq<Run>, backend: string, refs: Refs, e: Entry, req: Request)
    requires RefsOf(refs, runs, backend, req) && WellNamed(e)
    requires e.kind.Clone? || e.kind.Agent? || e.kind.Log?
    ensures var c := FreshClassified(e, refs, req.hashes);
            && c.class_ == (if HeldActively(runs, backend, e, req) then Active
                            else if Held(runs, backend, e, req) then Referenced
                            else Orphaned)
            && HoldersIn(c.runIds, runs, backend, e, req)
  {
    var ids := Holders(Fresh(e), refs);
    ClassifiedKeepsIdentity(e, refs, req.hashes);
    forall id
      ensures id in ids <==> HolderId(runs, backend, e, req, id)
    {
      HoldersAreRuns(runs, backend, refs, e, req, id);
    }
    HeldByIds(ids, runs, backend, e, req);
    ActiveByIds(ids, refs, runs, backend, e, req);
  }

  lemma HeldByIds(ids: set<string>, runs: seq<Run>, backend: string, e: Entry, req: Request)
    requires HoldersIn(ids, runs, backend, e, req)
    ensures ids != {} <==> Held(runs, backend, e, req)
  {
    if ids != {} {
      var id :| id in ids;
      assert HolderId(runs, backend, e, req, id);
    }
    if r :| r in runs && r.backend == backend && Holds(r, e, req) {
      assert HolderId(runs, backend, e, req, r.id);
    }
  }

  lemma ActiveByIds(ids: set<string>, refs: Refs, runs: seq<Run>, backend: string, e: Entry, req: Request)
    requires HoldersIn(ids, runs, backend, e, req) && RefsOf(refs, runs, backend, req)
    ensures ids * refs.active != {} <==> HeldActively(runs, backend, e, req)
  {
    if ids * refs.active != {} {
      var id :| id in ids * refs.active;
      assert HolderId(runs, backend, e, req, id) && ActiveId(runs, backend, id);
    }
    if HeldActively(runs, backend, e, req) {
      var r, a :|
        && r in runs && r.backend == backend && Holds(r, e, req)
        && a in runs && a.backend == backend && a.id == r.id && (a.status.Pending? || a.status.Running?);
      assert HolderId(runs, backend, e, req, r.id) && ActiveId(runs, backend, r.id);
      assert r.id in ids * refs.active;
    }
  }

  // ----- What is planned -----

  predicate OptedIn(path: string, req: Request) {
    exists p :: p in req.allow && Normalize(p, req.home) == path
  }

  predicate Scanned(entries: seq<Entry>, path: string) {
    exists k :: 0 <= k < |entries| && entries[k].path == path
  }

  /** Every path of the request is the path of a scanned entry. */
  ghost predicate AllScanned(entries: seq<Entry>, paths: seq<string>, home: Option<string>) {
    var normal := NormalizeAll(paths, home);
    forall i :: 0 <= i < |normal| ==> Scanned(entries, normal[i])
  }

  ghost predicate Named(path: string, paths: seq<string>, home: Option<string>) {
    exists i :: 0 <= i < |paths| && Normalize(paths[i], home) == path
  }

  /** The plan has a decision on the entry; two entries with one path and kind are not told apart. */
  ghost predicate Decided(plan: CleanupPlan, e: Entry, action: Action) {
    exists i :: 0 <= i < |plan.entries|
      && plan.entries[i].action == action && plan.entries[i].entry.path == e.path && plan.entries[i].entry.kind == e.kind
  }

  /** The plan deletes it: a workspace after a check for unpushed work, anything else at once. */
  ghost predicate Deleted(plan: CleanupPlan, e: Entry) {
    Decided(plan, e, if e.kind.Agent? then CheckThenDelete else Delete)
  }

  lemma {:induction false} ResolvesToLast(copies: seq<Entry>, k: nat)
    requires k < |copies| && forall j :: k < j < |copies| ==> copies[j].path != copies[k].path
    ensures Resolve(copies, copies[k].path) == Some(copies[k])
  {
    var last := |copies| - 1;
    if k < last {
      assert copies[..last][k] == copies[k];
      ResolvesToLast(copies[..last], k);
    }
  }

  /** A request path stands for the copy. */
  predicate StandsFor(copies: seq<Entry>, path: string, home: Option<string>, c: Entry) {
    Resolve(copies, Normalize(path, home)) == Some(c)
  }

  lemma {:induction false} NamedCandidateExactly(
    copies: seq<Entry>, paths: seq<string>, home: Option<string>, c: Entry, p: string -> bool)
    requires forall x :: p(x) <==> StandsFor(copies, x, home, c)
    ensures c in NamedCandidates(copies, paths, home) <==> Any(paths, p)
  {
    if paths != [] {
      var n := |paths| - 1;
      NamedCandidateExactly(copies, paths[..n], home, c, p);
      AnySoFar(paths, n, p);
      assert paths[..n + 1] == paths;
      LastCandidate(copies, paths, home, c);
      assert p(paths[n]) <==> StandsFor(copies, Last(paths), home, c);
    }
  }

  lemma LastCandidate(copies: seq<Entry>, paths: seq<string>, home: Option<string>, c: Entry)
    requires paths != []
    ensures c in NamedCandidates(copies, paths, home) <==>
              c in NamedCandidates(copies, paths[..|paths| - 1], home) || StandsFor(copies, Last(paths), home, c)
  {
  }

  ghost predicate AllResolve(copies: seq<Entry>, paths: seq<string>) {
    forall i :: 0 <= i < |paths| ==> Resolve(copies, paths[i]).Some?
  }

  lemma {:induction false} NothingUnknownExactly(
    copies: seq<Entry>, paths: seq<string>, home: Option<string>, normal: seq<string>)
    requires |normal| == |paths| && forall i :: 0 <= i < |paths| ==> normal[i] == Normalize(paths[i], home)
    ensures UnknownPaths(copies, paths, home) == [] <==> AllResolve(copies, normal)
  {
    if paths != [] {
      var n := |paths| - 1;
      NothingUnknownExactly(copies, paths[..n], home, normal[..n]);
      LastUnknown(copies, paths, home);
      LastResolves(copies, normal);
    }
  }

  lemma LastResolves(copies: seq<Entry>, paths: seq<string>)
    requires paths != []
    ensures AllResolve(copies, paths) <==> AllResolve(copies, paths[..|paths| - 1]) && Resolve(copies, Last(paths)).Some?
  {
    var init := paths[..|paths| - 1];
    assert forall i :: 0 <= i < |init| ==> init[i] == paths[i];
  }

  lemma LastUnknown(copies: seq<Entry>, paths: seq<string>, home: Option<string>)
    requires paths != []
    ensures UnknownPaths(copies, paths, home) != [] <==>
              UnknownPaths(copies, paths[..|paths| - 1], home) != [] || Resolve(copies, Normalize(Last(paths), home)).None?
  {
  }

  lemma ResolvesIfScanned(entries: seq<Entry>, refs: Refs, hashes: StackHashes, path: string)
    ensures Resolve(FreshAll(entries, refs, hashes), path).Some? <==> Scanned(entries, path)
  {
    var copies := FreshAll(entries, refs, hashes);
    ResolvedMember(copies, path);
    forall k | 0 <= k < |entries|
      ensures copies[k].path == entries[k].path
    {
      ClassifiedKeepsIdentity(entries[k], refs, hashes);
    }
    if Resolve(copies, path).Some? {
      var k :| 0 <= k < |copies| && copies[k] == Resolve(copies, path).value;
      assert entries[k].path == path;
    }
    if k :| 0 <= k < |entries| && entries[k].path == path {
      assert copies[k] in copies;
    }
  }

  lemma NothingUnknownIfScanned(entries: seq<Entry>, refs: Refs, hashes: StackHashes, paths: seq<string>, home: Option<string>)
    ensures UnknownPaths(FreshAll(entries, refs, hashes), paths, home) == [] <==> AllScanned(entries, paths, home)
  {
    var copies, normal := FreshAll(entries, refs, hashes), NormalizeAll(paths, home);
    NothingUnknownExactly(copies, paths, home, normal);
    forall path
      ensures Resolve(copies, path).Some? <==> Scanned(entries, path)
    {
      ResolvesIfScanned(entries, refs, hashes, path);
    }
    assert AllResolve(copies, normal) <==> forall i :: 0 <= i < |normal| ==> Scanned(entries, normal[i]);
  }

  /** The last entry with a path is the one that the path of a request stands for. */
  ghost predicate LastWithPath(entries: seq<Entry>, k: nat) {
    k < |entries| && forall j :: k < j < |entries| ==> entries[j].path != entries[k].path
  }

  /** An explicit plan decides on an entry as on its fresh copy, if all paths are scanned and one names it. */
  lemma NamedDecision(entries: seq<Entry>, k: nat, refs: Refs, req: Request, action: Action)
    requires LastWithPath(entries, k) && req.paths.Some?
    ensures Decided(Plan(entries, refs, req), entries[k], action) <==>
              && AllScanned(entries, req.paths.value, req.home)
              && Named(entries[k].path, req.paths.value, req.home)
              && Decide(FreshClassified(entries[k], refs, req.hashes), req).action == action
  {
    var paths, copies := req.paths.value, FreshAll(entries, refs, req.hashes);
    NothingUnknownIfScanned(entries, refs, req.hashes, paths, req.home);
    CopiesKeepIdentity(entries, refs, req.hashes);
    if AllScanned(entries, paths, req.home) {
      DecisionOnCandidates(copies, k, NamedCandidates(copies, paths, req.home), req, action);
      ResolvesToLast(copies, k);
      OnlyCandidate(copies, k, paths, req.home);
    }
  }

  lemma CopiesKeepIdentity(entries: seq<Entry>, refs: Refs, hashes: StackHashes)
    ensures var copies := FreshAll(entries, refs, hashes);
            forall j :: 0 <= j < |entries| ==> copies[j].path == entries[j].path && copies[j].kind == entries[j].kind
  {
    forall j | 0 <= j < |entries|
      ensures FreshAll(entries, refs, hashes)[j].path == entries[j].path
      ensures FreshAll(entries, refs, hashes)[j].kind == entries[j].kind
    {
      ClassifiedKeepsIdentity(entries[j], refs, hashes);
    }
  }

  /** A copy is a candidate just if a path names it, and then no other candidate has its path. */
  lemma OnlyCandidate(copies: seq<Entry>, k: nat, paths: seq<string>, home: Option<string>)
    requires k < |copies| && Resolve(copies, copies[k].path) == Some(copies[k])
    ensures copies[k] in NamedCandidates(copies, paths, home) <==> Named(copies[k].path, paths, home)
    ensures forall c :: c in NamedCandidates(copies, paths, home) && c.path == copies[k].path ==> c == copies[k]
  {
    CandidateIfNamed(copies, paths, home, copies[k]);
    forall c | c in NamedCandidates(copies, paths, home) && c.path == copies[k].path
      ensures c == copies[k]
    {
      CandidateIfNamed(copies, paths, home, c);
    }
  }

  lemma CandidateIfNamed(copies: seq<Entry>, paths: seq<string>, home: Option<string>, c: Entry)
    ensures c in NamedCandidates(copies, paths, home) <==> Resolve(copies, c.path) == Some(c) && Named(c.path, paths, home)
  {
    var p := x => StandsFor(copies, x, home, c);
    NamedCandidateExactly(copies, paths, home, c, p);
    forall i | 0 <= i < |paths|
      ensures p(paths[i]) <==> Resolve(copies, c.path) == Some(c) && Normalize(paths[i], home) == c.path
    {
      ResolvedMember(copies, Normalize(paths[i], home));
    }
  }

  /** The plan's decisions are those on its candidates. */
  lemma DecisionOnCandidates(copies: seq<Entry>, k: nat, candidates: seq<Entry>, req: Request, action: Action)
    requires k < |copies|
    ensures (exists c :: c in candidates && Decide(c, req).action == action && c.path == copies[k].path && c.kind == copies[k].kind)
      <==> Decided(CleanupPlan(DecideAll(candidates, req), []), copies[k], action)
  {
    var planned := DecideAll(candidates, req);
    if c :| c in candidates && Decide(c, req).action == action && c.path == copies[k].path && c.kind == copies[k].kind {
      var i :| 0 <= i < |candidates| && candidates[i] == c;
      assert planned[i].action == action && planned[i].entry == c;
    }
    if Decided(CleanupPlan(planned, []), copies[k], action) {
      var i :| 0 <= i < |planned|
        && planned[i].action == action && planned[i].entry.path == copies[k].path && planned[i].entry.kind == copies[k].kind;
      assert candidates[i] in candidates && planned[i] == Decide(candidates[i], req) && planned[i].entry == candidates[i];
    }
  }

  // ----- The law of deletion -----

  /** Safe to delete as far as runs go: no active run holds it, and a finished one only with an opt-in. */
  ghost predicate Free(runs: seq<Run>, backend: string, e: Entry, req: Request) {
    !HeldActively(runs, backend, e, req) && (Held(runs, backend, e, req) ==> OptedIn(e.path, req))
  }

  lemma SafeIsWellNamed(e: Entry, req: Request)
    requires SafetyReason(e, req.spec, req.home).None?
    ensures WellNamed(e)
  {
    if e.kind.Clone? || e.kind.Agent? {
      var root, name := SafeShape(e, req.spec, req.home);
      BaseNameOfChild(root, name);
    }
  }

  /** The decision on a clone, workspace or log that passes the last check. */
  lemma DecisionFromRuns(runs: seq<Run>, backend: string, refs: Refs, e: Entry, req: Request)
    requires RefsOf(refs, runs, backend, req)
    requires e.kind.Clone? || e.kind.Agent? || e.kind.Log?
    requires SafetyReason(e, req.spec, req.home).None?
    ensures var d := Decide(FreshClassified(e, refs, req.hashes), req);
            && (Free(runs, backend, e, req) ==> d.action == if e.kind.Agent? then CheckThenDelete else Delete)
            && (HeldActively(runs, backend, e, req) ==>
                  d.action.Skip? && d.action.reason.HeldByActive? && HoldersIn(d.action.reason.runs, runs, backend, e, req))
            && (!HeldActively(runs, backend, e, req) && !Free(runs, backend, e, req) ==>
                  d.action.Skip? && d.action.reason.NeedsOptIn? && HoldersIn(d.action.reason.runs, runs, backend, e, req))
  {
    SafeIsWellNamed(e, req);
    ClassFromRuns(runs, backend, refs, e, req);
    ClassifiedKeepsIdentity(e, refs, req.hashes);
    assert Allowed(e.path, req) <==> OptedIn(e.path, req);
  }

  /** An explicit request deletes a clone, workspace or log that passes the last check if and only if
      every path of the request is scanned, one names the entry, no active run of the backend holds it,
      and no other run does either unless the request opts in for it. */
  lemma NamedIsDeletedExactly(entries: seq<Entry>, k: nat, runs: seq<Run>, backend: string, refs: Refs, req: Request)
    requires RefsOf(refs, runs, backend, req) && req.paths.Some? && LastWithPath(entries, k)
    requires entries[k].kind.Clone? || entries[k].kind.Agent? || entries[k].kind.Log?
    requires SafetyReason(entries[k], req.spec, req.home).None?
    ensures Deleted(Plan(entries, refs, req), entries[k]) <==>
              && AllScanned(entries, req.paths.value, req.home)
              && Named(entries[k].path, req.paths.value, req.home)
              && !HeldActively(runs, backend, entries[k], req)
              && (Held(runs, backend, entries[k], req) ==> OptedIn(entries[k].path, req))
  {
    var e := entries[k];
    NamedDecision(entries, k, refs, req, if e.kind.Agent? then CheckThenDelete else Delete);
    DecisionFromRuns(runs, backend, refs, e, req);
  }

  /** What is named and kept says why: the runs that hold it, all of them. */
  lemma NamedIsKeptExactly(entries: seq<Entry>, k: nat, runs: seq<Run>, backend: string, refs: Refs, req: Request)
    returns (ids: set<string>)
    requires RefsOf(refs, runs, backend, req) && req.paths.Some? && LastWithPath(entries, k)
    requires entries[k].kind.Clone? || entries[k].kind.Agent? || entries[k].kind.Log?
    requires SafetyReason(entries[k], req.spec, req.home).None?
    requires AllScanned(entries, req.paths.value, req.home) && Named(entries[k].path, req.paths.value, req.home)
    ensures HoldersIn(ids, runs, backend, entries[k], req)
    ensures HeldActively(runs, backend, entries[k], req) <==> Decided(Plan(entries, refs, req), entries[k], Skip(HeldByActive(ids)))
    ensures !HeldActively(runs, backend, entries[k], req) && Held(runs, backend, entries[k], req)
              && !OptedIn(entries[k].path, req) <==>
            Decided(Plan(entries, refs, req), entries[k], Skip(NeedsOptIn(ids)))
  {
    ids := FreshClassified(entries[k], refs, req.hashes).runIds;
    NamedDecision(entries, k, refs, req, Skip(HeldByActive(ids)));
    NamedDecision(entries, k, refs, req, Skip(NeedsOptIn(ids)));
    KeptWithReason(runs, backend, refs, entries[k], req, ids);
  }

  lemma KeptWithReason(runs: seq<Run>, backend: string, refs: Refs, e: Entry, req: Request, ids: set<string>)
    requires RefsOf(refs, runs, backend, req) && ids == FreshClassified(e, refs, req.hashes).runIds
    requires e.kind.Clone? || e.kind.Agent? || e.kind.Log?
    requires SafetyReason(e, req.spec, req.home).None?
    ensures HoldersIn(ids, runs, backend, e, req)
    ensures var d := Decide(FreshClassified(e, refs, req.hashes), req);
            && (HeldActively(runs, backend, e, req) <==> d.action == Skip(HeldByActive(ids)))
            && (!HeldActively(runs, backend, e, req) && Held(runs, backend, e, req) && !OptedIn(e.path, req) <==>
                  d.action == Skip(NeedsOptIn(ids)))
  {
    SafeIsWellNamed(e, req);
    ClassFromRuns(runs, backend, refs, e, req);
    ClassifiedKeepsIdentity(e, refs, req.hashes);
    ReasonByClass(FreshClassified(e, refs, req.hashes), req);
  }

  lemma ReasonByClass(c: Entry, req: Request)
    requires DeletableKind(c.kind) && SafetyReason(c, req.spec, req.home).None? && c.class_ != Unknown
    ensures Decide(c, req).action == Skip(HeldByActive(c.runIds)) <==> c.class_ == Active
    ensures Decide(c, req).action == Skip(NeedsOptIn(c.runIds)) <==> c.class_ == Referenced && !OptedIn(c.path, req)
  {
    assert Allowed(c.path, req) <==> OptedIn(c.path, req);
  }

  // ----- Bulk plans -----

  /** A bulk plan decides on the orphaned copies. */
  lemma BulkDecision(entries: seq<Entry>, k: nat, refs: Refs, req: Request, action: Action)
    requires k < |entries| && req.paths.None?
    ensures Decided(Plan(entries, refs, req), entries[k], action) <==>
              exists j :: 0 <= j < |entries| && entries[j].path == entries[k].path && entries[j].kind == entries[k].kind
                && BulkAction(FreshClassified(entries[j], refs, req.hashes), req, action)
  {
    var copies := FreshAll(entries, refs, req.hashes);
    var candidates := BulkCandidates(copies);
    CopiesKeepIdentity(entries, refs, req.hashes);
    DecisionOnCandidates(copies, k, candidates, req, action);
    if c :| c in candidates && Decide(c, req).action == action && c.path == copies[k].path && c.kind == copies[k].kind {
      BulkMembers(copies, c);
      var j :| 0 <= j < |copies| && copies[j] == c;
      assert BulkAction(FreshClassified(entries[j], refs, req.hashes), req, action);
    }
    forall j | 0 <= j < |entries|
      ensures copies[j] in candidates <==> BulkEligible(copies[j])
    {
      BulkMembers(copies, copies[j]);
    }
  }

  predicate BulkAction(c: Entry, req: Request, action: Action) {
    BulkEligible(c) && Decide(c, req).action == action
  }

  lemma SamePathIsHeldAlike(e: Entry, other: Entry, runs: seq<Run>, backend: string, req: Request)
    requires other.path == e.path && other.kind == e.kind
    ensures Held(runs, backend, other, req) <==> Held(runs, backend, e, req)
    ensures HeldActively(runs, backend, other, req) <==> HeldActively(runs, backend, e, req)
    ensures SafetyReason(other, req.spec, req.home) == SafetyReason(e, req.spec, req.home)
  {
    forall r
      ensures Holds(r, other, req) <==> Holds(r, e, req)
    {
    }
  }

  /** A bulk plan deletes a clone, workspace or log that passes the last check if and only if no known
      run of the backend, active or not, holds it. */
  lemma BulkIsDeletedExactly(entries: seq<Entry>, k: nat, runs: seq<Run>, backend: string, refs: Refs, req: Request)
    requires RefsOf(refs, runs, backend, req) && req.paths.None? && k < |entries|
    requires entries[k].kind.Clone? || entries[k].kind.Agent? || entries[k].kind.Log?
    requires SafetyReason(entries[k], req.spec, req.home).None?
    ensures Deleted(Plan(entries, refs, req), entries[k]) <==> !Held(runs, backend, entries[k], req)
  {
    var e := entries[k];
    var action := if e.kind.Agent? then CheckThenDelete else Delete;
    BulkDecision(entries, k, refs, req, action);
    forall j | 0 <= j < |entries| && entries[j].path == e.path && entries[j].kind == e.kind
      ensures BulkAction(FreshClassified(entries[j], refs, req.hashes), req, action) <==> !Held(runs, backend, e, req)
    {
      SamePathIsHeldAlike(e, entries[j], runs, backend, req);
      OrphanedInBulk(entries[j], runs, backend, refs, req);
    }
  }

  lemma OrphanedInBulk(e: Entry, runs: seq<Run>, backend: string, refs: Refs, req: Request)
    requires RefsOf(refs, runs, backend, req)
    requires e.kind.Clone? || e.kind.Agent? || e.kind.Log?
    requires SafetyReason(e, req.spec, req.home).None?
    ensures BulkAction(FreshClassified(e, refs, req.hashes), req, if e.kind.Agent? then CheckThenDelete else Delete) <==>
              !Held(runs, backend, e, req)
  {
    SafeIsWellNamed(e, req);
    ClassFromRuns(runs, backend, refs, e, req);
    DecisionFromRuns(runs, backend, refs, e, req);
    ClassifiedKeepsIdentity(e, refs, req.hashes);
  }

  // ----- What no plan deletes -----

  /** Whatever fails the last check, and whatever is of no known kind, is in no deletion of any plan. */
  lemma UnsafeIsNeverDeleted(entries: seq<Entry>, refs: Refs, req: Request, pe: PlanEntry)
    requires pe in Plan(entries, refs, req).entries && pe.Deletes()
    ensures SafetyReason(pe.entry, req.spec, req.home).None? && pe.entry.kind != Other
    ensures exists e :: e in entries && e.path == pe.entry.path && e.kind == pe.entry.kind
  {
    var k := PlannedIsScanned(entries, refs, req, pe);
    ClassifiedKeepsIdentity(entries[k], refs, req.hashes);
    assert entries[k] in entries;
  }

  // ----- Stacks -----

  /** A stack dir that was not finished, or whose name no declared stack has. */
  predicate Unwanted(ready: Option<bool>, name: string, hashes: StackHashes) {
    ready == Some(false) || (hashes.Some? && name !in hashes.value)
  }

  /** The note that a stack dir is shown with. */
  function StackNote(ready: Option<bool>, name: string, hash: string, hashes: StackHashes): string {
    if ready == Some(false) then " (half-built)"
    else if hashes.None? then ""
    else if name !in hashes.value then " (unconfigured)"
    else if hash !in hashes.value[name] then " (superseded)"
    else ""
  }

  /** A stack dir is orphaned if and only if it is unwanted, and else counts as in use, superseded or not. */
  lemma StackClassExactly(e: Entry, above: string, name: string, hash: string, refs: Refs, hashes: StackHashes)
    requires e.kind.Stack? && e.path == above + "/" + name + "/" + hash && '/' !in name && '/' !in hash
    ensures var c := FreshClassified(e, refs, hashes);
            && c.class_ == (if Unwanted(e.ready, name, hashes) then Orphaned else Referenced)
            && c.detail == Some(name + "/" + hash + StackNote(e.ready, name, hash, hashes))
  {
    SplitConcat(above + "/" + name, '/', hash);
    SplitConcat(above, '/', name);
    SplitNoSep(name, '/');
    SplitNoSep(hash, '/');
    var parts := Split(e.path, '/');
    assert parts == Split(above, '/') + [name, hash];
    assert parts[|parts| - 2] == name && parts[|parts| - 1] == hash;
    assert name + "/" + hash + "" == name + "/" + hash;
  }

  /** An explicit request deletes a stack dir that passes the last check if and only if it is named, all
      of the request is scanned, and the dir is unwanted or opted in for. */
  lemma NamedStackIsDeletedExactly(
    entries: seq<Entry>, k: nat, above: string, name: string, hash: string, refs: Refs, req: Request)
    requires req.paths.Some? && LastWithPath(entries, k) && entries[k].kind.Stack?
    requires entries[k].path == above + "/" + name + "/" + hash && '/' !in name && '/' !in hash
    requires SafetyReason(entries[k], req.spec, req.home).None?
    ensures Deleted(Plan(entries, refs, req), entries[k]) <==>
              && AllScanned(entries, req.paths.value, req.home)
              && Named(entries[k].path, req.paths.value, req.home)
              && (Unwanted(entries[k].ready, name, req.hashes) || OptedIn(entries[k].path, req))
  {
    NamedDecision(entries, k, refs, req, Delete);
    StackDecision(entries[k], above, name, hash, refs, req);
  }

  lemma StackDecision(e: Entry, above: string, name: string, hash: string, refs: Refs, req: Request)
    requires e.kind.Stack? && e.path == above + "/" + name + "/" + hash && '/' !in name && '/' !in hash
    requires SafetyReason(e, req.spec, req.home).None?
    ensures var c := FreshClassified(e, refs, req.hashes);
            && (Decide(c, req).action == Delete <==> Unwanted(e.ready, name, req.hashes) || OptedIn(e.path, req))
            && (BulkAction(c, req, Delete) <==> Unwanted(e.ready, name, req.hashes))
  {
    var c := FreshClassified(e, refs, req.hashes);
    StackClassExactly(e, above, name, hash, refs, req.hashes);
    ClassifiedKeepsIdentity(e, refs, req.hashes);
    DecisionByClass(c, req);
  }

  lemma DecisionByClass(c: Entry, req: Request)
    requires c.kind.Stack? && SafetyReason(c, req.spec, req.home).None?
    requires c.class_ == Orphaned || c.class_ == Referenced
    ensures Decide(c, req).action == Delete <==> c.class_ == Orphaned || OptedIn(c.path, req)
    ensures BulkAction(c, req, Delete) <==> c.class_ == Orphaned
  {
    assert Allowed(c.path, req) <==> OptedIn(c.path, req);
  }

  /** A bulk plan deletes just the unwanted ones; a superseded stack dir is not among them. */
  lemma BulkStackIsDeletedExactly(
    entries: seq<Entry>, k: nat, above: string, name: string, hash: string, refs: Refs, req: Request)
    requires req.paths.None? && k < |entries| && entries[k].kind.Stack?
    requires entries[k].path == above + "/" + name + "/" + hash && '/' !in name && '/' !in hash
    requires SafetyReason(entries[k], req.spec, req.home).None?
    ensures Deleted(Plan(entries, refs, req), entries[k]) <==>
              exists j :: 0 <= j < |entries| && entries[j].path == entries[k].path && entries[j].kind.Stack?
                && Unwanted(entries[j].ready, name, req.hashes)
  {
    BulkDecision(entries, k, refs, req, Delete);
    forall j | 0 <= j < |entries| && entries[j].path == entries[k].path && entries[j].kind.Stack?
      ensures BulkAction(FreshClassified(entries[j], refs, req.hashes), req, Delete) <==>
                Unwanted(entries[j].ready, name, req.hashes)
    {
      SameSafety(entries[j], entries[k], req);
      StackDecision(entries[j], above, name, hash, refs, req);
    }
  }

  lemma SameSafety(e: Entry, other: Entry, req: Request)
    requires other.path == e.path && other.kind == e.kind
    ensures SafetyReason(other, req.spec, req.home) == SafetyReason(e, req.spec, req.home)
  {
  }

  // ----- The last check -----

  predicate LowerHex(s: string) {
    forall i :: 0 <= i < |s| ==> s[i] in "0123456789abcdef"
  }

  /** What may follow the matched root: a clone's twelve hex digits, an agent's eight, two names for a
      stack, else one name. A final line break is overlooked. */
  predicate FitsKind(kind: Kind, rest: string) {
    match kind
    case Clone => |rest| >= 12 && LowerHex(rest[..12]) && (rest[12..] == "" || rest[12..] == "\n")
    case Agent => |rest| >= 14 && rest[..6] == "agent-" && LowerHex(rest[6..14]) && (rest[14..] == "" || rest[14..] == "\n")
    case Stack => |Split(rest, '/')| == 2
    case _ => '/' !in rest
  }

  /** The i-th root is the first absolute one that the path lies below. */
  predicate FirstUnder(p: string, roots: seq<string>, i: nat) {
    && i < |roots| && "/" <= roots[i] && Below(roots[i], p)
    && forall j :: 0 <= j < i && "/" <= roots[j] ==> !Below(roots[j], p)
  }

  lemma {:induction false} MatchedIsFirst(p: string, roots: seq<string>, i: nat)
    requires FirstUnder(p, roots, i)
    ensures MatchedRoot(p, roots) == Some(roots[i])
  {
    if i > 0 {
      assert forall j :: 0 <= j < i - 1 ==> roots[1..][j] == roots[j + 1];
      MatchedIsFirst(p, roots[1..], i - 1);
    }
  }

  lemma {:induction false} SomeRootIsFirst(p: string, roots: seq<string>) returns (i: nat)
    requires MatchedRoot(p, roots).Some?
    ensures FirstUnder(p, roots, i)
  {
    if "/" <= roots[0] && Below(roots[0], p) {
      i := 0;
    } else {
      var k := SomeRootIsFirst(p, roots[1..]);
      i := k + 1;
      assert forall j :: 1 <= j < i ==> roots[j] == roots[1..][j - 1];
    }
  }

  /** The roots that things of a kind are deleted below. */
  function DeletionRoots(kind: Kind, req: Request): seq<string> {
    NormalizeAll(
      if kind.Clone? || kind.Agent? then req.spec.cloneDirs
      else if kind.Stack? then req.spec.stackDirs
      else req.spec.logRoots, req.home)
  }

  lemma HexNames(s: string)
    ensures IsCloneName(s) <==> FitsKind(Clone, s)
    ensures IsAgentName(s) <==> FitsKind(Agent, s)
  {
    HexDigits();
    assert forall i, n :: 0 <= i < n <= |s| ==> s[..n][i] == s[i];
    if |s| >= 14 {
      assert forall i :: 0 <= i < 8 ==> s[6..14][i] == s[i + 6];
      assert forall i :: 6 <= i < 14 ==> s[i] == s[6..14][i - 6];
      assert "agent-" <= s <==> s[..6] == "agent-";
    }
  }

  lemma HexDigits()
    ensures forall c: char :: IsHex(c) <==> c in "0123456789abcdef"
  {
  }

  lemma FitsKindExactly(kind: Kind, rest: string)
    ensures ChildIssue(kind, Split(rest, '/')).None? <==> FitsKind(kind, rest)
  {
    SplitSingle(rest, '/');
    HexNames(rest);
    if '/' !in rest {
      SplitNoSep(rest, '/');
    } else if kind.Clone? || kind.Agent? {
      NamesHaveNoSlash(rest);
    }
  }

  lemma NamesHaveNoSlash(s: string)
    ensures IsCloneName(s) || IsAgentName(s) ==> '/' !in s
  {
    if IsAgentName(s) {
      AgentNameIsStep(s);
    }
  }

  /** Below the first absolute root above it the path is what its kind calls for. */
  ghost predicate FitsFirstRoot(kind: Kind, p: string, roots: seq<string>) {
    exists i :: 0 <= i < |roots| && FirstUnder(p, roots, i) && FitsKind(kind, p[|roots[i]| + 1..])
  }

  /** The last check, in words: a path in normal form of at least three steps, not the home directory,
      and below the first of its roots just what its kind calls for. */
  lemma LastCheckExactly(e: Entry, req: Request)
    ensures SafetyReason(e, req.spec, req.home).None? <==>
              && NormalPath(e.path) && |Segments(e.path)| >= 3
              && !(req.home.Some? && req.home.value != "" && e.path == RStripSlash(req.home.value))
              && FitsFirstRoot(e.kind, e.path, DeletionRoots(e.kind, req))
  {
    var roots := DeletionRoots(e.kind, req);
    if NormalPath(e.path) {
      StepsAreCounted(e.path);
      RootFitsExactly(e.kind, e.path, roots);
      CheckByRoot(e, req.spec, req.home, roots);
    }
  }

  lemma CheckByRoot(e: Entry, spec: ScanSpec, home: Option<string>, roots: seq<string>)
    requires NormalPath(e.path) && roots == NormalizeAll(RootsFor(e.kind, spec), home)
    ensures SafetyReason(e, spec, home).None? <==>
              && NonEmpty(Split(e.path, '/')) >= 3 && RootFits(e.kind, e.path, roots)
              && !(home.Some? && home.value != "" && e.path == RStripSlash(home.value))
  {
  }

  predicate RootFits(kind: Kind, p: string, roots: seq<string>) {
    MatchedRoot(p, roots).Some? &&
      (MatchedIsAbove(p, roots);
       ChildIssue(kind, Split(p[|MatchedRoot(p, roots).value| + 1..], '/')).None?)
  }

  lemma RootFitsExactly(kind: Kind, p: string, roots: seq<string>)
    ensures RootFits(kind, p, roots) <==> FitsFirstRoot(kind, p, roots)
  {
    forall j | 0 <= j < |roots| && FirstUnder(p, roots, j)
      ensures MatchedRoot(p, roots) == Some(roots[j])
    {
      MatchedIsFirst(p, roots, j);
    }
    if MatchedRoot(p, roots).Some? {
      var i := SomeRootIsFirst(p, roots);
      FitsKindExactly(kind, p[|roots[i]| + 1..]);
    }
  }

  lemma StepsAreCounted(p: string)
    requires NormalPath(p)
    ensures NonEmpty(Split(p, '/')) == |Segments(p)|
  {
    NormalSegments(p);
    var steps := Segments(p);
    assert forall i :: 0 <= i < |steps| ==> steps[i] == Split(p, '/')[i + 1];
    NonEmptySteps(steps);
    assert Split(p, '/')[1..] == steps;
  }
}
