/** Which directories of active runs are safe from cleanup, exactly: the text of the recorded path
    has to lead the reference builder to the entry. */
module CleanupDirectories {
  import opened Wrappers
  import opened Lists
  import opened Text
  import opened Runs
  import opened RemotePaths
  import opened Directories
  import opened DiskModel
  import opened Classify
  import opened Cleanup
  import opened CleanupSafety
  import opened ScanRoots

  /** The entry is kept, whatever else is known, while an active run of the backend has this path. */
  ghost predicate KeptFor(e: Entry, backend: string, req: Request, d: string) {
    forall runs: seq<Run>, refs: Refs, run: Run ::
      && RefsOf(refs, runs, backend, req)
      && run in runs && run.backend == backend && run.IsActive() && d in RunPaths(run, req.home)
      ==> !Decide(FreshClassified(e, refs, req.hashes), req).Deletes()
  }

  /** The same for its log dir. */
  ghost predicate KeptForLog(e: Entry, backend: string, req: Request, logDir: string) {
    forall runs: seq<Run>, refs: Refs, run: Run ::
      && RefsOf(refs, runs, backend, req)
      && run in runs && run.backend == backend && run.IsActive() && run.HasLogDir() && run.logDir == logDir
      ==> !Decide(FreshClassified(e, refs, req.hashes), req).Deletes()
  }

  /** What a path has to stand for to hold a clone or workspace. */
  function OwnChild(e: Entry): Child {
    if e.kind.Clone? then CloneChild(BaseName(e.path)) else AgentChild(e.path)
  }

  function OwnRef(e: Entry): Ref {
    if e.kind.Clone? then CloneRef(BaseName(e.path)) else AgentRef(e.path)
  }

  // ----- Clones and workspaces -----

  /** Exactly when a working dir or log dir of an active run protects a clone or workspace: when the
      first clone root above the path's text leads to that entry. */
  lemma RunPathIsProtectedExactly(e: Entry, backend: string, req: Request, x: string)
    requires e.kind.Clone? || e.kind.Agent?
    requires SafetyReason(e, req.spec, req.home).None?
    ensures KeptFor(e, backend, req, Normalize(x, req.home)) <==>
              ChildOf(Normalize(x, req.home), CloneRoots(req)) == OwnChild(e)
  {
    var d := Normalize(x, req.home);
    if ChildOf(d, CloneRoots(req)) == OwnChild(e) {
      forall runs: seq<Run>, refs: Refs, run: Run |
        && RefsOf(refs, runs, backend, req)
        && run in runs && run.backend == backend && run.IsActive() && d in RunPaths(run, req.home)
        ensures !Decide(FreshClassified(e, refs, req.hashes), req).Deletes()
      {
        PathMakesReferrer(OwnRef(e), runs, backend, refs, req, run, d);
        HeldByActiveIsKept(e, runs, backend, refs, req, run);
      }
    } else {
      var run, refs := UnattributedIsDeleted(e, [e], backend, req, x, None);
      assert run in [run];
    }
  }

  /** Otherwise a run with that working dir alone has its directory deleted by a bulk plan. A commit hash
      on record may hold a clone besides, but never a workspace. */
  lemma UnattributedIsDeleted(
    e: Entry, entries: seq<Entry>, backend: string, req: Request, x: string, commit: Option<string>)
    returns (run: Run, refs: Refs)
    requires e.kind.Clone? || e.kind.Agent?
    requires e.kind.Clone? ==> commit.None?
    requires SafetyReason(e, req.spec, req.home).None? && e in entries
    requires ChildOf(Normalize(x, req.home), CloneRoots(req)) != OwnChild(e)
    ensures run.backend == backend && run.IsActive() && run.workingDirs == [x] && run.commitHash == commit
    ensures Normalize(x, req.home) in RunPaths(run, req.home)
    ensures RefsOf(refs, [run], backend, req)
    ensures var pe := Decide(FreshClassified(e, refs, req.hashes), req);
            pe.Deletes() && pe in Plan(entries, refs, req.(paths := None)).entries
  {
    run, refs := LoneRun(backend, x, commit, req);
    assert Holders(Fresh(e), refs) == Ids(refs, OwnRef(e));
    OrphanIsDeletedInBulk(e, entries, refs, req);
  }

  /** With one clone root that is just textual containment, and for paths in normal form it is the
      containment of directories. */
  lemma DirectoryIsProtectedExactly(e: Entry, backend: string, req: Request, x: string)
    requires e.kind.Clone? || e.kind.Agent?
    requires SafetyReason(e, req.spec, req.home).None?
    requires |CloneRoots(req)| == 1
    ensures var d := Normalize(x, req.home);
            && (KeptFor(e, backend, req, d) <==> Contains(e.path, d))
            && (NormalPath(d) ==> (KeptFor(e, backend, req, d) <==> Segments(e.path) <= Segments(d)))
  {
    var d := Normalize(x, req.home);
    RunPathIsProtectedExactly(e, backend, req, x);
    OwnChildIsContained(e, req, d);
    SafetyFacts(e, req.spec, req.home);
    if NormalPath(d) {
      PrefixIsDirectoryAbove(e.path, d);
    }
  }

  lemma OwnChildIsContained(e: Entry, req: Request, d: string)
    requires e.kind.Clone? || e.kind.Agent?
    requires SafetyReason(e, req.spec, req.home).None? && |CloneRoots(req)| == 1
    ensures ChildOf(d, CloneRoots(req)) == OwnChild(e) <==> Contains(e.path, d)
  {
    var root, name := SafeShape(e, req.spec, req.home);
    assert CloneRoots(req) == [root];
    OneRootDecides(e, root, name, d);
  }

  lemma OneRootDecides(e: Entry, root: string, name: string, d: string)
    requires e.path == root + "/" + name && '/' !in name
    requires e.kind.Clone? ==> IsCloneName(name)
    requires !e.kind.Clone? ==> IsAgentName(name)
    ensures ChildOf(d, [root]) == OwnChild(e) <==> Contains(e.path, d)
  {
    BaseNameOfChild(root, name);
    assert [root][1..] == [];
    if IsAgentName(name) {
      NamesAreExclusive(name);
    }
    if Contains(e.path, d) {
      FirstComponentInside(root, name, d);
    } else if FirstComponentUnder(d, root) == Some(name) {
      FirstComponentLeads(root, name, d);
    } else if FirstComponentUnder(d, root).Some? {
      SameName(root, FirstComponentUnder(d, root).value, name);
    }
  }

  lemma SameName(root: string, a: string, b: string)
    ensures root + "/" + a == root + "/" + b ==> a == b
  {
    assert (root + "/" + a)[|root| + 1..] == a && (root + "/" + b)[|root| + 1..] == b;
  }

  /** A path whose first component below a root is a name lies inside that name. */
  lemma FirstComponentLeads(root: string, name: string, d: string)
    requires FirstComponentUnder(d, root) == Some(name)
    ensures Contains(root + "/" + name, d)
  {
    var tail := d[|root| + 1..];
    assert d == root + "/" + tail;
    JoinSplit(tail);
    if |Split(tail, '/')| == 1 {
      assert tail == name;
    } else {
      assert tail == name + "/" + Join(Split(tail, '/')[1..], '/');
    }
  }

  // ----- Logs -----

  /** Exactly when the log dir of an active run protects a log entry: when its text contains it, which
      for a log dir in normal form is the containment of directories. */
  lemma LogDirIsProtectedExactly(e: Entry, backend: string, req: Request, logDir: string)
    requires e.kind.Log? && SafetyReason(e, req.spec, req.home).None?
    requires logDir != "" && !("backend://" <= logDir)
    ensures var ld := Normalize(logDir, req.home);
            && (KeptForLog(e, backend, req, logDir) <==> Contains(e.path, ld))
            && (NormalPath(ld) ==> (KeptForLog(e, backend, req, logDir) <==> Segments(e.path) <= Segments(ld)))
  {
    var ld := Normalize(logDir, req.home);
    LogTextProtectsExactly(e, backend, req, logDir);
    SafetyFacts(e, req.spec, req.home);
    if NormalPath(ld) {
      PrefixIsDirectoryAbove(e.path, ld);
    }
  }

  lemma LogTextProtectsExactly(e: Entry, backend: string, req: Request, logDir: string)
    requires e.kind.Log? && SafetyReason(e, req.spec, req.home).None?
    requires logDir != "" && !("backend://" <= logDir)
    ensures KeptForLog(e, backend, req, logDir) <==> Contains(e.path, Normalize(logDir, req.home))
  {
    var ld := Normalize(logDir, req.home);
    if Contains(e.path, ld) {
      forall runs: seq<Run>, refs: Refs, run: Run |
        && RefsOf(refs, runs, backend, req)
        && run in runs && run.backend == backend && run.IsActive() && run.HasLogDir() && run.logDir == logDir
        ensures !Decide(FreshClassified(e, refs, req.hashes), req).Deletes()
      {
        assert Refers(run, LogRef(ld), CloneRoots(req), req.home);
        assert run.id in Ids(refs, LogRef(ld));
        HeldByActiveIsKept(e, runs, backend, refs, req, run);
      }
    } else {
      var run, refs := LoneLogRun(backend, logDir, req);
      assert run in [run];
      assert Holders(Fresh(e), refs) == {};
      OrphanIsDeletedInBulk(e, [e], refs, req);
    }
  }

  /** A running run with a log dir and no items, and all that is known of it. */
  lemma LoneLogRun(backend: string, logDir: string, req: Request) returns (run: Run, refs: Refs)
    requires logDir != "" && !("backend://" <= logDir)
    ensures run.backend == backend && run.IsActive() && run.HasLogDir() && run.logDir == logDir
    ensures refs.logs.Keys == {Normalize(logDir, req.home)}
    ensures RefsOf(refs, [run], backend, req)
  {
    var ld, roots := Normalize(logDir, req.home), CloneRoots(req);
    run := Run("run", backend, Running, None, [], logDir);
    refs := Note(ChildRefs(ChildOf(ld, roots), run.id), LogRef(ld), run.id);
    assert RunPaths(run, req.home) == [ld];
    forall ref
      ensures Ids(refs, ref) == if Refers(run, ref, roots, req.home) then {run.id} else {}
    {
      assert PathsRefer([ld], ref, roots) <==> PathRefers(ld, ref, roots) by {
        assert [ld][0] == ld;
      }
    }
    LoneRunRefs(run, refs, backend, roots, req.home);
  }

  // ----- Paths whose text hides their directory -----

  /** With an empty segment, or `.`, right below the clone root a path is attributed to nothing. */
  lemma QuietSegmentIsDeleted(e: Entry, entries: seq<Entry>, backend: string, req: Request, s: string)
    returns (run: Run, refs: Refs, d: string)
    requires e.kind.Clone? || e.kind.Agent?
    requires SafetyReason(e, req.spec, req.home).None?
    requires |CloneRoots(req)| == 1 && e in entries && (s == "" || s == ".")
    ensures run.backend == backend && run.IsActive()
    ensures d in RunPaths(run, req.home) && Segments(e.path) <= Segments(d)
    ensures RefsOf(refs, [run], backend, req)
    ensures var pe := Decide(FreshClassified(e, refs, req.hashes), req);
            pe.Deletes() && pe in Plan(entries, refs, req.(paths := None)).entries
  {
    var root, name := SafeShape(e, req.spec, req.home);
    assert CloneRoots(req) == [root];
    d := SlippedPath(root, s, name);
    assert Normalize(d, req.home) == d;
    run, refs := UnattributedIsDeleted(e, entries, backend, req, d, None);
  }

  lemma SlippedPath(root: string, s: string, name: string) returns (d: string)
    requires '/' !in name && "/" <= root + "/" + name && (s == "" || s == ".")
    ensures Segments(root + "/" + name) <= Segments(d)
    ensures ChildOf(d, [root]) == OtherChild
    ensures forall home :: Normalize(d, home) == d
  {
    var p, below := root + "/" + name, name + "/x";
    d := root + "/" + s + "/" + below;
    assert root + "/" + below == p + "/" + "x";
    QuietSegment(root, s, below);
    OneMoreStep(p, "x");
    assert d[..1] == p[..1] && d[|d| - 1] == 'x';
    AbsoluteIsNormal(d);
    QuietComponent(root, s, below);
  }

  lemma QuietComponent(root: string, s: string, below: string)
    requires s == "" || s == "."
    ensures ChildOf(root + "/" + s + "/" + below, [root]) == OtherChild
  {
    var d, rest := root + "/" + s + "/" + below, s + "/" + below;
    assert d == root + "/" + rest && d[|root| + 1..] == rest;
    SplitNoSep(s, '/');
    SplitConcat(s, '/', below);
    assert FirstComponentUnder(d, root) == Some(s);
    assert [root][1..] == [];
  }

  // ----- A clone dir configured with a trailing slash -----

  /** Where the clone dir of a source is configured with trailing slashes, the scan strips them but
      the run manager appends `/name` to what is configured: the working dir of every run then has
      an empty segment, and a bulk plan deletes the very directory a running item works in. */
  lemma TrailingSlashIsDeleted(
    e: Entry, entries: seq<Entry>, backend: string, req: Request, cloneDir: string, commit: Option<string>)
    returns (run: Run, refs: Refs)
    requires e.kind.Clone? || e.kind.Agent?
    requires e.kind.Clone? ==> commit.None?
    requires SafetyReason(e, req.spec, req.home).None? && e in entries && Trimmed(e.path)
    requires req.spec.cloneDirs == RootsFrom([cloneDir])
    requires cloneDir != "" && cloneDir[|cloneDir| - 1] == '/'
    requires Trimmed(cloneDir) && Trimmed(RStripSlash(cloneDir))
    ensures run.backend == backend && run.IsActive() && run.workingDirs == [cloneDir + "/" + BaseName(e.path)] && run.commitHash == commit
    ensures Segments(Normalize(run.workingDirs[0], req.home)) == Segments(e.path)
    ensures RefsOf(refs, [run], backend, req)
    ensures var pe := Decide(FreshClassified(e, refs, req.hashes), req);
            pe.Deletes() && pe in Plan(entries, refs, req.(paths := None)).entries
  {
    var root, name := SafeShape(e, req.spec, req.home);
    LoneCloneRoot(cloneDir, req);
    assert CloneRoots(req) == [root];
    BaseNameOfChild(root, name);
    NameIsTrimmed(e, root, name);
    RootIsNotSlash(e, root, name, req);
    SlashedWorkingDir(cloneDir, root, name, req.home);
    run, refs := UnattributedIsDeleted(e, entries, backend, req, cloneDir + "/" + name, commit);
  }

  /** The working dir below a clone dir with trailing slashes is attributed to nothing, and names the
      directory below the clone root all the same. */
  lemma SlashedWorkingDir(cloneDir: string, root: string, name: string, home: Option<string>)
    requires cloneDir != "" && cloneDir[|cloneDir| - 1] == '/' && Trimmed(cloneDir)
    requires RStripSlash(cloneDir) != "" && Trimmed(RStripSlash(cloneDir))
    requires root == Normalize(RStripSlash(cloneDir), home) && root != "/"
    requires name != "" && '/' !in name && Trimmed(name)
    ensures ChildOf(Normalize(cloneDir + "/" + name, home), [root]) == OtherChild
    ensures Segments(Normalize(cloneDir + "/" + name, home)) == Segments(root + "/" + name)
  {
    var at := AtHome(cloneDir, home);
    NormalizedBelow(cloneDir, name, home);
    SlashedAtHome(cloneDir, home);
    assert RStripSlash(at) == root;
    SlashedText(at, name);
    SlashedDirectory(at);
    SegmentsConcat(at, name);
    SegmentsConcat(root, name);
  }

  /** The only clone root of the request is the clone dir without its trailing slashes. */
  lemma LoneCloneRoot(cloneDir: string, req: Request)
    requires req.spec.cloneDirs == RootsFrom([cloneDir]) && CloneRoots(req) != []
    ensures RStripSlash(cloneDir) != "" && CloneRoots(req) == [Normalize(RStripSlash(cloneDir), req.home)]
  {
    assert [cloneDir][..0] == [];
  }

  lemma NameIsTrimmed(e: Entry, root: string, name: string)
    requires e.path == root + "/" + name && Trimmed(e.path) && (IsCloneName(name) || IsAgentName(name))
    ensures name != "" && Trimmed(name)
  {
    assert name[|name| - 1] == e.path[|e.path| - 1];
    if IsCloneName(name) {
      assert IsHex(name[0]);
    } else {
      assert name[0] == "agent-"[0];
    }
  }

  lemma RootIsNotSlash(e: Entry, root: string, name: string, req: Request)
    requires SafetyReason(e, req.spec, req.home).None? && e.path == root + "/" + name
    ensures root != "/"
  {
    SafetyFacts(e, req.spec, req.home);
    if root == "/" {
      SplitConcat("", '/', "/" + name);
      SplitConcat("", '/', name);
    }
  }

  /** The working dir as the reference builder sees it: the clone dir at home, a slash and the name. */
  lemma NormalizedBelow(cloneDir: string, name: string, home: Option<string>)
    requires cloneDir != "" && cloneDir[|cloneDir| - 1] == '/' && Trimmed(cloneDir)
    requires name != "" && '/' !in name && Trimmed(name)
    ensures Normalize(cloneDir + "/" + name, home) == AtHome(cloneDir, home) + "/" + name
  {
    var x := cloneDir + "/" + name;
    assert x[0] == cloneDir[0] && x[|x| - 1] == name[|name| - 1];
    StripFixesTrimmed(x);
    AtHomeBelow(cloneDir, x, "/" + name, home);
    NameEnds(AtHome(cloneDir, home), name);
  }

  lemma NameEnds(at: string, name: string)
    requires name != "" && '/' !in name
    ensures RStripSlash(at + "/" + name) == at + "/" + name
  {
    var r := at + "/" + name;
    assert r[|r| - 1] == name[|name| - 1];
  }

  /** What follows a clone dir stays as it is when the home is put in. */
  lemma AtHomeBelow(cloneDir: string, x: string, rest: string, home: Option<string>)
    requires cloneDir != "" && cloneDir[|cloneDir| - 1] == '/' && x == cloneDir + rest && rest != ""
    ensures AtHome(x, home) == AtHome(cloneDir, home) + rest
  {
    TildeBelow(cloneDir, x, rest);
    assert x[1..] == cloneDir[1..] + rest;
    if home.Some? && home.value != [] && "~/" <= cloneDir {
      var h := RStripSlash(home.value);
      assert h + x[1..] == h + cloneDir[1..] + rest;
    }
  }

  lemma TildeBelow(cloneDir: string, x: string, rest: string)
    requires cloneDir != "" && cloneDir[|cloneDir| - 1] == '/' && x == cloneDir + rest && rest != ""
    ensures cloneDir != "~" && x != "~"
    ensures "~/" <= x <==> "~/" <= cloneDir
  {
    assert x[0] == cloneDir[0] && |x| >= 2;
    if |cloneDir| >= 2 {
      assert x[..2] == cloneDir[..2];
    }
  }

  lemma {:induction false} StripAfter(a: string, t: string)
    ensures RStripSlash(a + t) == RStripSlash(a + RStripSlash(t))
  {
    if t != [] && t[|t| - 1] == '/' {
      assert (a + t)[..|a + t| - 1] == a + t[..|t| - 1];
      StripAfter(a, t[..|t| - 1]);
    }
  }

  /** Stripping before or after the home is put in makes no difference. */
  lemma SlashedAtHome(cloneDir: string, home: Option<string>)
    requires RStripSlash(cloneDir) != "" && Trimmed(RStripSlash(cloneDir))
    requires cloneDir[|cloneDir| - 1] == '/'
    ensures RStripSlash(AtHome(cloneDir, home)) == RStripSlash(AtHome(Strip(RStripSlash(cloneDir)), home))
    ensures AtHome(cloneDir, home) != "" && AtHome(cloneDir, home)[|AtHome(cloneDir, home)| - 1] == '/'
  {
    var c := RStripSlash(cloneDir);
    StripFixesTrimmed(c);
    TildeOrNot(cloneDir);
    if home.Some? && home.value != [] && "~/" <= cloneDir {
      var h := RStripSlash(home.value);
      StripTail(cloneDir);
      StripAfter(h, cloneDir[1..]);
      assert AtHome(cloneDir, home) == h + cloneDir[1..];
      assert AtHome(c, home) == h + c[1..];
    } else {
      StripTwice(cloneDir);
      assert AtHome(cloneDir, home) == cloneDir && AtHome(c, home) == c;
    }
  }

  lemma TildeOrNot(cloneDir: string)
    requires RStripSlash(cloneDir) != "" && cloneDir[|cloneDir| - 1] == '/'
    ensures cloneDir != "~"
    ensures "~/" <= cloneDir <==> RStripSlash(cloneDir) == "~" || "~/" <= RStripSlash(cloneDir)
  {
    var c := RStripSlash(cloneDir);
    SlashFollows(cloneDir);
    assert |c| >= 2 ==> c[..2] == cloneDir[..2];
    assert c == cloneDir[..|c|] && cloneDir[0] == c[0];
  }

  lemma StripTwice(s: string)
    ensures RStripSlash(RStripSlash(s)) == RStripSlash(s)
  {
  }

  /** Only slashes are stripped. */
  lemma {:induction false} SlashFollows(s: string)
    ensures RStripSlash(s) == s || s[|RStripSlash(s)|] == '/'
  {
    if s != [] && s[|s| - 1] == '/' {
      SlashFollows(s[..|s| - 1]);
    }
  }

  lemma {:induction false} StripTail(s: string)
    requires s != "" && s[0] != '/'
    ensures RStripSlash(s) != "" && RStripSlash(s)[1..] == RStripSlash(s[1..])
  {
    if s[|s| - 1] == '/' {
      assert s[1..][..|s| - 2] == s[..|s| - 1][1..];
      StripTail(s[..|s| - 1]);
    }
  }

  /** Below a text with trailing slashes, the first component under the stripped text is empty. */
  lemma SlashedText(at: string, name: string)
    requires at != "" && at[|at| - 1] == '/'
    ensures ChildOf(at + "/" + name, [RStripSlash(at)]) == OtherChild
  {
    var root, d := RStripSlash(at), at + "/" + name;
    SlashFollows(at);
    var n := |root|;
    assert n < |at| && d[n] == '/' && d[n + 1] == '/' by {
      if n + 1 < |at| { StrippedAreSlashes(at, n + 1); }
    }
    assert d[..n] == root;
    assert d == root + "/" + ("" + "/" + d[n + 2..]);
    assert d[n + 1..] == "" + "/" + d[n + 2..];
    SplitConcat("", '/', d[n + 2..]);
    assert FirstComponentUnder(d, root) == Some("");
    assert [root][1..] == [];
  }

  lemma {:induction false} StrippedAreSlashes(s: string, i: nat)
    requires |RStripSlash(s)| <= i < |s|
    ensures s[i] == '/'
  {
    if i < |s| - 1 {
      StrippedAreSlashes(s[..|s| - 1], i);
    }
  }

  /** Trailing slashes do not change the directory. */
  lemma {:induction false} SlashedDirectory(s: string)
    ensures Segments(RStripSlash(s)) == Segments(s)
  {
    if s != [] && s[|s| - 1] == '/' {
      var init := s[..|s| - 1];
      SlashedDirectory(init);
      assert s == init + "/" + "";
      SegmentsConcat(init, "");
      WalkOne(Segments(init), "");
    }
  }

  /** A path below `~` is the path below the home directory, once that is known; else it stays relative. */
  lemma TildeIsHome(rest: string, home: string)
    requires rest != "" && !IsSpace(rest[|rest| - 1]) && rest[|rest| - 1] != '/' && home != ""
    ensures Normalize("~/" + rest, Some(home)) == RStripSlash(home) + "/" + rest
    ensures Normalize("~/" + rest, None) == "~/" + rest
  {
    var p, at := "~/" + rest, RStripSlash(home) + "/" + rest;
    TildeTexts(p, rest);
    AtHomeTilde(p, rest, home);
    LastIsNotStripped(p);
    LastIsNotStripped(at);
    NormalizedTo(p, Some(home), at);
    NormalizedTo(p, None, p);
  }

  lemma TildeTexts(p: string, rest: string)
    requires p == "~/" + rest && rest != "" && !IsSpace(rest[|rest| - 1])
    ensures Strip(p) == p && p[1..] == "/" + rest && p != "~" && "~/" <= p && p[|p| - 1] == rest[|rest| - 1]
  {
    assert p[0] == '~' && p[|p| - 1] == rest[|rest| - 1];
    StripFixesTrimmed(p);
  }

  lemma AtHomeTilde(p: string, rest: string, home: string)
    requires "~/" <= p && p != "~" && p[1..] == "/" + rest && home != ""
    ensures AtHome(p, Some(home)) == RStripSlash(home) + "/" + rest
  {
    assert RStripSlash(home) + ("/" + rest) == RStripSlash(home) + "/" + rest;
  }

  lemma NormalizedTo(p: string, home: Option<string>, at: string)
    requires Strip(p) == p && AtHome(p, home) == at && RStripSlash(at) == at && at != ""
    ensures Normalize(p, home) == at
  {
  }

  lemma LastIsNotStripped(p: string)
    requires p != "" && p[|p| - 1] != '/'
    ensures RStripSlash(p) == p
  {
  }

  // ----- Such a configuration -----

  lemma AgentNameIsStep(name: string)
    requires IsAgentName(name)
    ensures IsStep(name) && '/' !in name
  {
    forall i | 0 <= i < |name|
      ensures name[i] != '/'
    {
      if i < 6 { assert name[i] == "agent-"[i]; }
    }
  }

  /** Every clone dir in normal form, at least two steps deep and configured with a trailing slash,
      is such a configuration: the workspace in which a run works is deleted, whatever its commit hash. */
  lemma SlashedCloneDirLosesWork(root: string, name: string, backend: string, commit: Option<string>, hashes: StackHashes)
    returns (req: Request, run: Run, refs: Refs)
    requires NormalPath(root) && |Segments(root)| >= 2 && root[|root| - 1] != '/' && Trimmed(root)
    requires IsAgentName(name) && Trimmed(name)
    ensures req.spec == SpecFor([root + "/"], [], backend) && req.paths.None?
    ensures run.backend == backend && run.IsActive() && run.workingDirs == [root + "/" + "/" + name] && run.commitHash == commit
    ensures Segments(Normalize(run.workingDirs[0], req.home)) == Segments(root + "/" + name)
    ensures RefsOf(refs, [run], backend, req)
    ensures exists pe :: pe in Plan([ScannedAs(root + "/" + name, Agent)], refs, req).entries && pe.Deletes() && pe.entry.path == root + "/" + name
  {
    var dir, e := root + "/", ScannedAs(root + "/" + name, Agent);
    req := Request(SpecFor([dir], [], backend), None, hashes, None, {});
    SlashedConfiguration(root, name, e, dir, req, backend);
    run, refs := TrailingSlashIsDeleted(e, [e], backend, req, dir, commit);
    ClassifiedKeepsIdentity(e, refs, hashes);
    assert req.(paths := None) == req;
  }

  lemma SlashedConfiguration(root: string, name: string, e: Entry, dir: string, req: Request, backend: string)
    requires NormalPath(root) && |Segments(root)| >= 2 && root[|root| - 1] != '/' && Trimmed(root)
    requires IsAgentName(name) && Trimmed(name) && e == ScannedAs(root + "/" + name, Agent)
    requires dir == root + "/" && req.spec == SpecFor([dir], [], backend) && req.home.None?
    ensures req.spec.cloneDirs == RootsFrom([dir])
    ensures Trimmed(dir) && Trimmed(RStripSlash(dir)) && Trimmed(e.path)
    ensures BaseName(e.path) == name && SafetyReason(e, req.spec, req.home).None?
  {
    StripOne(root);
    SlashedRoot(dir, backend);
    AgentNameIsStep(name);
    ChildIsSafe(e, root, name, req.spec);
    BaseNameOfChild(root, name);
    TextsAreTrimmed(root, name);
  }

  lemma TextsAreTrimmed(root: string, name: string)
    requires root != "" && Trimmed(root) && name != "" && Trimmed(name)
    ensures Trimmed(root + "/") && Trimmed(root + "/" + name)
  {
    var p := root + "/" + name;
    assert p[0] == root[0] && p[|p| - 1] == name[|name| - 1];
  }

  lemma SlashedRoot(dir: string, backend: string)
    requires RStripSlash(dir) != ""
    ensures SpecFor([dir], [], backend).cloneDirs == RootsFrom([dir]) == [RStripSlash(dir)]
  {
    var dirs := [dir];
    assert dirs[..0] == [] && Last(dirs) == dir;
  }

  lemma StripOne(root: string)
    requires root != "" && root[|root| - 1] != '/'
    ensures RStripSlash(root + "/") == root
  {
    assert (root + "/")[..|root|] == root;
  }
}
