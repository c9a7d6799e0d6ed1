/** What the cleanup planner guarantees about active work: it is never deleted, and exactly when. */
module CleanupSafety {
  import opened Wrappers
  import opened Lists
  import opened Text
  import opened Runs
  import opened RemotePaths
  import opened Directories
  import opened DiskModel
  import opened Classify
  import opened DiskEntries
  import opened Cleanup

  /** The references a request is planned under: both sides use the same clone roots and home. */
  ghost predicate RefsOf(refs: Refs, runs: seq<Run>, backend: string, req: Request) {
    ExactRefs(refs, runs, backend, CloneRoots(req), req.home)
  }

  function CloneRoots(req: Request): seq<string> {
    NormalizeAll(req.spec.cloneDirs, req.home)
  }

  // ----- Members of a plan -----

  lemma {:induction false} BulkMembers(copies: seq<Entry>, c: Entry)
    ensures c in BulkCandidates(copies) <==> c in copies && BulkEligible(c)
  {
    if copies != [] {
      BulkMembers(copies[..|copies| - 1], c);
      assert copies == copies[..|copies| - 1] + [Last(copies)];
    }
  }

  lemma {:induction false} ResolvedMember(copies: seq<Entry>, path: string)
    ensures Resolve(copies, path).Some? ==> Resolve(copies, path).value in copies && Resolve(copies, path).value.path == path
    ensures Resolve(copies, path).None? ==> forall c :: c in copies ==> c.path != path
  {
    if copies != [] {
      ResolvedMember(copies[..|copies| - 1], path);
      assert copies == copies[..|copies| - 1] + [Last(copies)];
    }
  }

  lemma {:induction false} NamedMember(copies: seq<Entry>, paths: seq<string>, home: Option<string>, c: Entry)
    requires c in NamedCandidates(copies, paths, home)
    ensures c in copies
  {
    ResolvedMember(copies, Normalize(Last(paths), home));
    if c in NamedCandidates(copies, paths[..|paths| - 1], home) {
      NamedMember(copies, paths[..|paths| - 1], home, c);
    }
  }

  /** Every planned entry is the fresh classification of some scanned entry, with its own verdict. */
  lemma PlannedIsScanned(entries: seq<Entry>, refs: Refs, req: Request, pe: PlanEntry) returns (k: nat)
    requires pe in Plan(entries, refs, req).entries
    ensures k < |entries| && pe == Decide(FreshClassified(entries[k], refs, req.hashes), req)
  {
    var copies := FreshAll(entries, refs, req.hashes);
    var i :| 0 <= i < |Plan(entries, refs, req).entries| && Plan(entries, refs, req).entries[i] == pe;
    var c: Entry;
    if req.paths.None? {
      c := BulkCandidates(copies)[i];
      BulkMembers(copies, c);
    } else {
      c := NamedCandidates(copies, req.paths.value, req.home)[i];
      NamedMember(copies, req.paths.value, req.home, c);
    }
    k :| 0 <= k < |copies| && copies[k] == c;
  }

  // ----- Reference building and the safety check agree on the root -----

  /** A root listed before the one the path is matched under is the path itself or lies inside it. */
  predicate Shadowed(p: string, roots: seq<string>) {
    roots != []
    && !("/" <= roots[0] && Below(roots[0], p))
    && (Contains(p, roots[0]) || Shadowed(p, roots[1..]))
  }

  function ChildNamed(root: string, name: string): Child {
    if IsCloneName(name) then CloneChild(name)
    else if IsAgentName(name) then AgentChild(root + "/" + name)
    else OtherChild
  }

  ghost predicate NamedRoots(roots: seq<string>) {
    forall i :: 0 <= i < |roots| ==> |roots[i]| > 0
  }

  /** A root neither above nor inside an absolute path is above nothing inside that path. */
  lemma StrangersStayStrangers(root: string, p: string, d: string)
    requires |root| > 0 && "/" <= p
    requires !("/" <= root && Below(root, p)) && !Contains(p, root)
    requires Contains(p, d)
    ensures !Below(root, d)
  {
    if Below(root, d) {
      AncestorsAreNested(root, p, d);
      PrefixIsAbsolute(root, p);
    }
  }

  lemma PrefixIsAbsolute(a: string, p: string)
    requires |a| > 0 && Below(a, p) && "/" <= p
    ensures "/" <= a
  {
    assert a[0] == (a + "/")[0] == p[0] == "/"[0];
  }

  /** Unless shadowed, everything inside `root/name` is attributed to `root/name`. */
  lemma {:induction false} InsideIsAttributed(roots: seq<string>, root: string, name: string, d: string)
    requires NamedRoots(roots)
    requires "/" <= root + "/" + name && '/' !in name
    requires MatchedRoot(root + "/" + name, roots) == Some(root)
    requires !Shadowed(root + "/" + name, roots)
    requires Contains(root + "/" + name, d)
    ensures ChildOf(d, roots) == ChildNamed(root, name)
  {
    var p := root + "/" + name;
    if "/" <= roots[0] && Below(roots[0], p) {
      FirstComponentInside(root, name, d);
    } else {
      StrangersStayStrangers(roots[0], p, d);
      assert NamedRoots(roots[1..]);
      InsideIsAttributed(roots[1..], root, name, d);
    }
  }

  /** When shadowed, some path inside is attributed to nothing. */
  lemma {:induction false} ShadowHides(p: string, roots: seq<string>) returns (d: string)
    requires NamedRoots(roots)
    requires "/" <= p
    requires Shadowed(p, roots)
    ensures Below(p, d) && ChildOf(d, roots) == OtherChild
    ensures d[|d| - 1] == 'x' && forall home :: Normalize(d, home) == d
  {
    if Contains(p, roots[0]) {
      d := roots[0] + "/" + "x";
      FirstComponentInside(roots[0], "x", d);
      assert p <= roots[0];
      assert Below(p, d) by {
        if roots[0] != p { assert p + "/" <= roots[0]; }
      }
      AbsoluteIsNormal(d);
    } else {
      assert NamedRoots(roots[1..]);
      d := ShadowHides(p, roots[1..]);
      StrangersStayStrangers(roots[0], p, d);
    }
  }

  lemma AbsoluteIsNormal(d: string)
    requires "/" <= d && Trimmed(d) && d[|d| - 1] != '/'
    ensures forall home :: Normalize(d, home) == d
  {
    StripFixesTrimmed(d);
    assert d[0] == "/"[0];
    assert d != "~" && !("~/" <= d);
  }

  lemma SafetyFacts(e: Entry, spec: ScanSpec, home: Option<string>)
    requires SafetyReason(e, spec, home).None?
    ensures NormalPath(e.path) && NonEmpty(Split(e.path, '/')) >= 3
    ensures MatchedRoot(e.path, NormalizeAll(RootsFor(e.kind, spec), home)).Some?
    ensures var root := MatchedRoot(e.path, NormalizeAll(RootsFor(e.kind, spec), home)).value;
            Below(root, e.path) && ChildIssue(e.kind, Split(e.path[|root| + 1..], '/')).None?
  {
    MatchedIsAbove(e.path, NormalizeAll(RootsFor(e.kind, spec), home));
  }

  lemma MatchFacts(e: Entry, spec: ScanSpec, home: Option<string>)
    requires SafetyReason(e, spec, home).None? && (e.kind.Clone? || e.kind.Agent?)
    ensures "/" <= e.path
    ensures MatchedRoot(e.path, NormalizeAll(spec.cloneDirs, home)).Some?
    ensures var root := MatchedRoot(e.path, NormalizeAll(spec.cloneDirs, home)).value;
            root + "/" <= e.path && ChildIssue(e.kind, Split(e.path[|root| + 1..], '/')).None?
  {
    SafetyFacts(e, spec, home);
  }

  /** What passes the last check is a direct child of its matched clone root, well named. */
  lemma SafeShape(e: Entry, spec: ScanSpec, home: Option<string>) returns (root: string, name: string)
    requires e.kind.Clone? || e.kind.Agent?
    requires SafetyReason(e, spec, home).None?
    ensures "/" <= e.path && e.path == root + "/" + name && '/' !in name
    ensures MatchedRoot(e.path, NormalizeAll(spec.cloneDirs, home)) == Some(root)
    ensures e.kind.Clone? ==> IsCloneName(name)
    ensures e.kind.Agent? ==> IsAgentName(name)
  {
    MatchFacts(e, spec, home);
    root := MatchedRoot(e.path, NormalizeAll(spec.cloneDirs, home)).value;
    name := e.path[|root| + 1..];
    assert e.path == root + "/" + name;
    OnlySegment(e.kind, name);
  }

  lemma OnlySegment(kind: Kind, name: string)
    requires kind.Clone? || kind.Agent?
    requires ChildIssue(kind, Split(name, '/')).None?
    ensures '/' !in name
    ensures kind.Clone? ==> IsCloneName(name)
    ensures kind.Agent? ==> IsAgentName(name)
  {
    SplitSingle(name, '/');
    SplitNoSep(name, '/');
  }

  lemma PathMakesReferrer(ref: Ref, runs: seq<Run>, backend: string, refs: Refs, req: Request, run: Run, d: string)
    requires RefsOf(refs, runs, backend, req)
    requires run in runs && run.backend == backend && d in RunPaths(run, req.home)
    requires PathRefers(d, ref, CloneRoots(req))
    ensures run.id in Ids(refs, ref)
  {
    var paths := RunPaths(run, req.home);
    var i :| 0 <= i < |paths| && paths[i] == d;
    assert PathsRefer(paths, ref, CloneRoots(req));
    assert Refers(run, ref, CloneRoots(req), req.home);
  }

  /** The reference that a path inside a safe, unshadowed entry makes: the one the entry is looked up by. */
  lemma SafeInsideRefers(e: Entry, req: Request, d: string) returns (ref: Ref)
    requires e.kind.Clone? || e.kind.Agent?
    requires SafetyReason(e, req.spec, req.home).None?
    requires !Shadowed(e.path, CloneRoots(req)) && Contains(e.path, d)
    ensures ref == if e.kind.Clone? then CloneRef(BaseName(e.path)) else AgentRef(e.path)
    ensures PathRefers(d, ref, CloneRoots(req))
  {
    var root, name := SafeShape(e, req.spec, req.home);
    InsideIsAttributed(CloneRoots(req), root, name, d);
    if e.kind.Clone? {
      BaseNameOfChild(root, name);
      ref := CloneRef(name);
    } else {
      NamesAreExclusive(name);
      ref := AgentRef(e.path);
    }
  }

  /** The path of an entry and its kind decide safety; classification does not touch them. */
  lemma ClassifiedKeepsIdentity(e: Entry, refs: Refs, hashes: StackHashes)
    ensures FreshClassified(e, refs, hashes).path == e.path
    ensures FreshClassified(e, refs, hashes).kind == e.kind
    ensures forall spec, home :: SafetyReason(FreshClassified(e, refs, hashes), spec, home) == SafetyReason(e, spec, home)
    ensures Holders(FreshClassified(e, refs, hashes), refs) == Holders(e, refs)
  {
  }

  /** An entry held by a pending or running run is kept. */
  lemma HeldByActiveIsKept(e: Entry, runs: seq<Run>, backend: string, refs: Refs, req: Request, run: Run)
    requires RefsOf(refs, runs, backend, req)
    requires run in runs && run.backend == backend && run.IsActive()
    requires run.id in Holders(e, refs)
    ensures FreshClassified(e, refs, req.hashes).class_ == Active
    ensures !Decide(FreshClassified(e, refs, req.hashes), req).Deletes()
  {
    ClassifiedKeepsIdentity(e, refs, req.hashes);
    assert ActiveId(runs, backend, run.id);
    assert run.id in Holders(Fresh(e), refs) * refs.active;
  }

  lemma DeletedIsSafe(c: Entry, req: Request)
    requires Decide(c, req).Deletes()
    ensures SafetyReason(c, req.spec, req.home).None?
  {
  }

  /** No deletion of a clone or workspace contains a working dir or log dir of a pending or running
      run of the backend, unless a clone root listed earlier hides inside that deletion. */
  ghost predicate SparesWork(plan: CleanupPlan, runs: seq<Run>, backend: string, req: Request) {
    forall pe, run, d ::
      && pe in plan.entries && pe.Deletes() && (pe.entry.kind.Clone? || pe.entry.kind.Agent?)
      && !Shadowed(pe.entry.path, CloneRoots(req))
      && run in runs && run.backend == backend && run.IsActive() && d in RunPaths(run, req.home)
      ==> !Contains(pe.entry.path, d)
  }

  /** No deletion of a log contains the log dir of a pending or running run of the backend. */
  ghost predicate SparesLogs(plan: CleanupPlan, runs: seq<Run>, backend: string, req: Request) {
    forall pe, run ::
      && pe in plan.entries && pe.Deletes() && pe.entry.kind.Log?
      && run in runs && run.backend == backend && run.IsActive() && run.HasLogDir()
      ==> !Contains(pe.entry.path, Normalize(run.logDir, req.home))
  }

  /** Active work is never deleted. */
  lemma ActiveWorkIsNeverDeleted(entries: seq<Entry>, runs: seq<Run>, backend: string, refs: Refs, req: Request)
    requires RefsOf(refs, runs, backend, req)
    ensures SparesWork(Plan(entries, refs, req), runs, backend, req)
  {
    forall pe, run, d |
      && pe in Plan(entries, refs, req).entries && pe.Deletes() && (pe.entry.kind.Clone? || pe.entry.kind.Agent?)
      && !Shadowed(pe.entry.path, CloneRoots(req))
      && run in runs && run.backend == backend && run.IsActive() && d in RunPaths(run, req.home)
      ensures !Contains(pe.entry.path, d)
    {
      var k := PlannedIsScanned(entries, refs, req, pe);
      ClassifiedKeepsIdentity(entries[k], refs, req.hashes);
      if Contains(pe.entry.path, d) {
        DeletedIsSafe(pe.entry, req);
        var ref := SafeInsideRefers(entries[k], req, d);
        PathMakesReferrer(ref, runs, backend, refs, req, run, d);
        HeldByActiveIsKept(entries[k], runs, backend, refs, req, run);
      }
    }
  }

  /** Nor are active logs. */
  lemma ActiveLogsAreNeverDeleted(entries: seq<Entry>, runs: seq<Run>, backend: string, refs: Refs, req: Request)
    requires RefsOf(refs, runs, backend, req)
    ensures SparesLogs(Plan(entries, refs, req), runs, backend, req)
  {
    forall pe, run |
      && pe in Plan(entries, refs, req).entries && pe.Deletes() && pe.entry.kind.Log?
      && run in runs && run.backend == backend && run.IsActive() && run.HasLogDir()
      ensures !Contains(pe.entry.path, Normalize(run.logDir, req.home))
    {
      var k := PlannedIsScanned(entries, refs, req, pe);
      var ld := Normalize(run.logDir, req.home);
      ClassifiedKeepsIdentity(entries[k], refs, req.hashes);
      if Contains(pe.entry.path, ld) {
        assert Refers(run, LogRef(ld), CloneRoots(req), req.home);
        assert run.id in Ids(refs, LogRef(ld));
        HeldByActiveIsKept(entries[k], runs, backend, refs, req, run);
      }
    }
  }

  /** The same for paths read as directories, when the run's path is in normal form. */
  ghost predicate SparesDirectories(plan: CleanupPlan, runs: seq<Run>, backend: string, req: Request) {
    forall pe, run, d ::
      && pe in plan.entries && pe.Deletes() && (pe.entry.kind.Clone? || pe.entry.kind.Agent?)
      && !Shadowed(pe.entry.path, CloneRoots(req))
      && run in runs && run.backend == backend && run.IsActive() && d in RunPaths(run, req.home) && NormalPath(d)
      ==> !(Segments(pe.entry.path) <= Segments(d))
  }

  lemma ActiveDirectoriesAreNeverDeleted(entries: seq<Entry>, runs: seq<Run>, backend: string, refs: Refs, req: Request)
    requires RefsOf(refs, runs, backend, req)
    ensures SparesDirectories(Plan(entries, refs, req), runs, backend, req)
  {
    ActiveWorkIsNeverDeleted(entries, runs, backend, refs, req);
    forall pe, d | pe in Plan(entries, refs, req).entries && pe.Deletes() && NormalPath(d) && Segments(pe.entry.path) <= Segments(d)
      ensures Contains(pe.entry.path, d)
    {
      var k := PlannedIsScanned(entries, refs, req, pe);
      DeletedIsSafe(pe.entry, req);
      SafetyFacts(pe.entry, req.spec, req.home);
      DirectoryAboveIsPrefix(pe.entry.path, d);
    }
  }

  /** `plan_cleanup_for_backend`: references to the runs known now, and the plan under them. */
  method PlanForBackend(entries: seq<DiskEntry>, runs: seq<Run>, backend: string, req: Request)
    returns (plan: CleanupPlan, ghost refs: Refs)
    ensures RefsOf(refs, runs, backend, req) && plan == Plan(Views(entries), refs, req)
    ensures SparesWork(plan, runs, backend, req)
    ensures SparesLogs(plan, runs, backend, req)
    ensures SparesDirectories(plan, runs, backend, req)
  {
    var known := BuildRunReferences(runs, backend, req.spec.cloneDirs, req.home);
    plan := PlanCleanup(entries, known, req);
    refs := known;
    ActiveWorkIsNeverDeleted(Views(entries), runs, backend, refs, req);
    ActiveLogsAreNeverDeleted(Views(entries), runs, backend, refs, req);
    ActiveDirectoriesAreNeverDeleted(Views(entries), runs, backend, refs, req);
  }

  /** Whatever active work lies inside the entry, under whatever runs, the entry is kept. */
  ghost predicate WorkInsideIsKept(e: Entry, backend: string, req: Request) {
    forall runs: seq<Run>, refs: Refs, run: Run, d: string ::
      RefsOf(refs, runs, backend, req)
      && run in runs && run.backend == backend && run.IsActive()
      && d in RunPaths(run, req.home) && Contains(e.path, d)
      ==> !Decide(FreshClassified(e, refs, req.hashes), req).Deletes()
  }

  /** For a clone or workspace that passes the last check, active work inside it is safe exactly
      when no clone root listed before the matched one is that directory or lies inside it. */
  lemma ProtectionIsExact(e: Entry, backend: string, req: Request)
    requires e.kind.Clone? || e.kind.Agent?
    requires SafetyReason(e, req.spec, req.home).None?
    ensures WorkInsideIsKept(e, backend, req) <==> !Shadowed(e.path, CloneRoots(req))
  {
    if Shadowed(e.path, CloneRoots(req)) {
      var run, refs, d := ShadowedWorkIsDeleted(e, [e], backend, req);
      assert run in [run];
    } else {
      forall runs: seq<Run>, refs: Refs, run: Run, d: string |
        && RefsOf(refs, runs, backend, req)
        && run in runs && run.backend == backend && run.IsActive()
        && d in RunPaths(run, req.home) && Contains(e.path, d)
        ensures !Decide(FreshClassified(e, refs, req.hashes), req).Deletes()
      {
        var ref := SafeInsideRefers(e, req, d);
        PathMakesReferrer(ref, runs, backend, refs, req, run, d);
        HeldByActiveIsKept(e, runs, backend, refs, req, run);
      }
    }
  }

  /** With such a root, a bulk plan deletes the directory a running task works in. */
  lemma ShadowedWorkIsDeleted(e: Entry, entries: seq<Entry>, backend: string, req: Request)
    returns (run: Run, refs: Refs, d: string)
    requires e.kind.Clone? || e.kind.Agent?
    requires SafetyReason(e, req.spec, req.home).None?
    requires Shadowed(e.path, CloneRoots(req))
    requires e in entries
    ensures run.backend == backend && run.IsActive()
    ensures d in RunPaths(run, req.home) && Below(e.path, d)
    ensures RefsOf(refs, [run], backend, req)
    ensures var pe := Decide(FreshClassified(e, refs, req.hashes), req);
            pe.Deletes() && pe in Plan(entries, refs, req.(paths := None)).entries
  {
    var roots := CloneRoots(req);
    SafetyFacts(e, req.spec, req.home);
    d := ShadowHides(e.path, roots);
    run, refs := LoneRun(backend, d, None, req);
    OrphanIsDeletedInBulk(e, entries, refs, req);
  }

  // ----- A run with one path -----

  /** The tables when the only reference is what a path below a clone root stands for. */
  function ChildRefs(child: Child, id: string): (r: Refs)
    ensures r.active == {id} && r.logs == map[]
    ensures forall ref :: Ids(r, ref) ==
              if (ref.CloneRef? && child == CloneChild(ref.hash)) || (ref.AgentRef? && child == AgentChild(ref.dir)) then {id} else {}
  {
    var none := NO_REFS.(active := {id});
    match child
    case CloneChild(h) => Note(none, CloneRef(h), id)
    case AgentChild(d) => Note(none, AgentRef(d), id)
    case _ => none
  }

  function CommitRefs(refs: Refs, commit: Option<string>, id: string): (r: Refs)
    ensures r.active == refs.active
    ensures forall ref :: Ids(r, ref) == Ids(refs, ref) +
              if ref.CloneRef? && commit.Some? && commit.value != [] && ref.hash == Prefix(commit.value, 12) then {id} else {}
  {
    if commit.Some? && commit.value != [] then Note(refs, CloneRef(Prefix(commit.value, 12)), id) else refs
  }

  /** A running run with one working dir and perhaps a commit hash, and all that is known of it. */
  lemma LoneRun(backend: string, x: string, commit: Option<string>, req: Request) returns (run: Run, refs: Refs)
    ensures run.backend == backend && run.IsActive() && run.workingDirs == [x] && run.commitHash == commit
    ensures Normalize(x, req.home) in RunPaths(run, req.home)
    ensures refs == CommitRefs(ChildRefs(ChildOf(Normalize(x, req.home), CloneRoots(req)), run.id), commit, run.id)
    ensures RefsOf(refs, [run], backend, req)
  {
    var d := Normalize(x, req.home);
    run := Run("run", backend, Running, commit, [x], "");
    refs := CommitRefs(ChildRefs(ChildOf(d, CloneRoots(req)), run.id), commit, run.id);
    assert RunPaths(run, req.home) == [d];
    forall ref
      ensures Ids(refs, ref) == if Refers(run, ref, CloneRoots(req), req.home) then {run.id} else {}
    {
      assert PathsRefer([d], ref, CloneRoots(req)) <==> PathRefers(d, ref, CloneRoots(req)) by {
        assert [d][0] == d;
      }
    }
    LoneRunRefs(run, refs, backend, CloneRoots(req), req.home);
  }

  lemma LoneRunRefs(run: Run, refs: Refs, backend: string, roots: seq<string>, home: Option<string>)
    requires run.backend == backend && run.IsActive() && refs.active == {run.id}
    requires forall ref :: Ids(refs, ref) == if Refers(run, ref, roots, home) then {run.id} else {}
    ensures ExactRefs(refs, [run], backend, roots, home)
  {
    assert run in [run];
    forall id
      ensures id in refs.active <==> ActiveId([run], backend, id)
    {
    }
    forall ref, id
      ensures id in Ids(refs, ref) <==> Referrer([run], backend, id, ref, roots, home)
    {
    }
  }

  lemma OrphanIsDeletedInBulk(e: Entry, entries: seq<Entry>, refs: Refs, req: Request)
    requires e.kind.Clone? || e.kind.Agent? || e.kind.Log?
    requires e in entries && SafetyReason(e, req.spec, req.home).None?
    requires Holders(Fresh(e), refs) == {}
    ensures var pe := Decide(FreshClassified(e, refs, req.hashes), req);
            pe.Deletes() && pe in Plan(entries, refs, req.(paths := None)).entries
  {
    var bulk := req.(paths := None);
    var copy := FreshClassified(e, refs, req.hashes);
    ClassifiedKeepsIdentity(e, refs, req.hashes);
    assert copy.class_ == Orphaned;
    assert Decide(copy, bulk) == Decide(copy, req);
    var copies := FreshAll(entries, refs, req.hashes);
    var i :| 0 <= i < |entries| && entries[i] == e;
    assert copies[i] == copy;
    BulkMembers(copies, copy);
    var candidates := BulkCandidates(copies);
    var j :| 0 <= j < |candidates| && candidates[j] == copy;
    assert DecideAll(candidates, bulk)[j] == Decide(copy, bulk);
  }

  // ----- What passes the last check -----

  /** An entry as the scan yields it. */
  function ScannedAs(path: string, kind: Kind): Entry {
    Entry(path, kind, None, None, Unknown, {}, None, None)
  }

  lemma {:induction false} NonEmptySteps(parts: seq<string>)
    requires forall i :: 0 <= i < |parts| ==> IsStep(parts[i])
    ensures NonEmpty(parts) == |parts|
  {
    if parts != [] {
      NonEmptySteps(parts[1..]);
    }
  }

  /** A well-named child of a root in normal form, at least two steps deep, passes the last check. */
  lemma ChildIsSafe(e: Entry, root: string, name: string, spec: ScanSpec)
    requires NormalPath(root) && |Segments(root)| >= 2 && root[|root| - 1] != '/' && Trimmed(root)
    requires e.path == root + "/" + name && IsStep(name) && '/' !in name
    requires !e.kind.Stack? && RootsFor(e.kind, spec) == [root]
    requires e.kind.Clone? ==> IsCloneName(name)
    requires e.kind.Agent? ==> IsAgentName(name)
    ensures SafetyReason(e, spec, None).None?
  {
    var p, steps := e.path, Segments(root) + [name];
    SplitNoSep(name, '/');
    SplitConcat(root, '/', name);
    NormalSegments(root);
    assert Split(p, '/') == [""] + steps;
    forall i | 0 <= i < |steps|
      ensures IsStep(steps[i])
    {
      if i < |Segments(root)| { assert steps[i] == Split(root, '/')[i + 1]; }
    }
    assert forall i :: 1 <= i < |Split(p, '/')| ==> Split(p, '/')[i] == steps[i - 1];
    NonEmptySteps(steps);
    assert Split(p, '/')[1..] == steps;
    StripFixesTrimmed(root);
    assert NormalizeAll([root], None) == [root];
    assert p[|root| + 1..] == name;
    assert p[0] == root[0];
  }
}
