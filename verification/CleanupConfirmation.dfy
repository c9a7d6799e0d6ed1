/** Relations between two plans over the same scan: knowing more runs never deletes more, and
    executing a confirmed plan deletes what was shown. */
module CleanupConfirmation {
  import opened Wrappers
  import opened Lists
  import opened Text
  import opened RemotePaths
  import opened Directories
  import opened DiskModel
  import opened Classify
  import opened Cleanup
  import opened CleanupSafety

  // ----- More runs never delete more -----

  ghost predicate MoreRuns(runs: seq<Run>, more: seq<Run>) {
    forall r :: r in runs ==> r in more
  }

  ghost predicate MoreRefs(refs: Refs, more: Refs) {
    && refs.active <= more.active
    && forall ref :: Ids(refs, ref) <= Ids(more, ref)
  }

  lemma RefsGrow(refs: Refs, more: Refs, runs: seq<Run>, moreRuns: seq<Run>, backend: string, req: Request)
    requires RefsOf(refs, runs, backend, req) && RefsOf(more, moreRuns, backend, req)
    requires MoreRuns(runs, moreRuns)
    ensures MoreRefs(refs, more)
  {
    forall ref, id | id in Ids(refs, ref)
      ensures id in Ids(more, ref)
    {
      assert Referrer(runs, backend, id, ref, CloneRoots(req), req.home);
      assert Referrer(moreRuns, backend, id, ref, CloneRoots(req), req.home);
    }
    forall id | id in refs.active
      ensures id in more.active
    {
      assert ActiveId(runs, backend, id);
      assert ActiveId(moreRuns, backend, id);
    }
  }

  lemma HoldersGrow(e: Entry, refs: Refs, more: Refs)
    requires MoreRefs(refs, more)
    ensures Holders(e, refs) <= Holders(e, more)
  {
    if e.kind.Log? {
      forall id | id in Holders(e, refs)
        ensures id in Holders(e, more)
      {
        var dir :| dir in refs.logs && Contains(e.path, dir) && id in refs.logs[dir];
        assert id in Ids(refs, LogRef(dir));
        assert id in Ids(more, LogRef(dir));
      }
    }
  }

  /** More references never turn a kept entry into a deleted one. */
  lemma VerdictIsAntitone(e: Entry, refs: Refs, more: Refs, req: Request)
    requires MoreRefs(refs, more)
    ensures Decide(FreshClassified(e, more, req.hashes), req).Deletes() ==>
              Decide(FreshClassified(e, refs, req.hashes), req).Deletes()
    ensures BulkEligible(FreshClassified(e, more, req.hashes)) ==> BulkEligible(FreshClassified(e, refs, req.hashes))
    ensures FreshClassified(e, more, req.hashes).path == FreshClassified(e, refs, req.hashes).path
  {
    ClassifiedKeepsIdentity(e, refs, req.hashes);
    ClassifiedKeepsIdentity(e, more, req.hashes);
    HoldersGrow(Fresh(e), refs, more);
  }

  /** The paths a plan sends to deletion, in order. */
  function DeletedPaths(entries: seq<PlanEntry>): seq<string> {
    if entries == [] then []
    else DeletedPaths(entries[..|entries| - 1]) + if Last(entries).Deletes() then [Last(entries).entry.path] else []
  }

  function PlannedDeletions(entries: seq<Entry>, refs: Refs, req: Request): seq<string> {
    DeletedPaths(Plan(entries, refs, req).entries)
  }

  function BulkDeletions(copies: seq<Entry>, req: Request): seq<string> {
    DeletedPaths(DecideAll(BulkCandidates(copies), req))
  }

  function NamedDeletions(copies: seq<Entry>, paths: seq<string>, req: Request): seq<string> {
    DeletedPaths(DecideAll(NamedCandidates(copies, paths, req.home), req))
  }

  lemma DecideAllSnoc(candidates: seq<Entry>, c: Entry, req: Request)
    ensures DeletedPaths(DecideAll(candidates + [c], req)) ==
              DeletedPaths(DecideAll(candidates, req)) + if Decide(c, req).Deletes() then [c.path] else []
  {
    var all := DecideAll(candidates + [c], req);
    assert all[..|candidates|] == DecideAll(candidates, req);
  }

  /** The copies agree on paths, and whatever is selected or deleted on the right is on the left. */
  ghost predicate Permits(copies: seq<Entry>, fewer: seq<Entry>, req: Request) {
    |copies| == |fewer| && forall i :: 0 <= i < |copies| ==> PermitsOne(copies[i], fewer[i], req)
  }

  predicate PermitsOne(copy: Entry, fewer: Entry, req: Request) {
    && copy.path == fewer.path
    && (BulkEligible(fewer) ==> BulkEligible(copy))
    && (Decide(fewer, req).Deletes() ==> Decide(copy, req).Deletes())
  }

  lemma BulkStep(copies: seq<Entry>, req: Request)
    requires copies != []
    ensures BulkDeletions(copies, req) ==
              BulkDeletions(copies[..|copies| - 1], req)
              + if BulkEligible(Last(copies)) && Decide(Last(copies), req).Deletes() then [Last(copies).path] else []
  {
    var before := BulkCandidates(copies[..|copies| - 1]);
    if BulkEligible(Last(copies)) {
      DecideAllSnoc(before, Last(copies), req);
    } else {
      assert BulkCandidates(copies) == before;
    }
  }

  lemma {:induction false} BulkIsAntitone(copies: seq<Entry>, fewer: seq<Entry>, req: Request)
    requires Permits(copies, fewer, req)
    ensures multiset(BulkDeletions(fewer, req))
         <= multiset(BulkDeletions(copies, req))
  {
    if copies != [] {
      BulkIsAntitone(copies[..|copies| - 1], fewer[..|fewer| - 1], req);
      BulkStep(copies, req);
      BulkStep(fewer, req);
    }
  }

  lemma {:induction false} ResolveTogether(copies: seq<Entry>, fewer: seq<Entry>, path: string, req: Request)
    requires Permits(copies, fewer, req)
    ensures Resolve(copies, path).Some? == Resolve(fewer, path).Some?
    ensures Resolve(copies, path).Some? ==>
              var c, f := Resolve(copies, path).value, Resolve(fewer, path).value;
              c.path == f.path && (Decide(f, req).Deletes() ==> Decide(c, req).Deletes())
  {
    if copies != [] {
      ResolveTogether(copies[..|copies| - 1], fewer[..|fewer| - 1], path, req);
    }
  }

  lemma {:induction false} NamedIsAntitone(copies: seq<Entry>, fewer: seq<Entry>, paths: seq<string>, req: Request)
    requires Permits(copies, fewer, req)
    ensures UnknownPaths(copies, paths, req.home) == UnknownPaths(fewer, paths, req.home)
    ensures multiset(NamedDeletions(fewer, paths, req))
         <= multiset(NamedDeletions(copies, paths, req))
  {
    if paths != [] {
      var init := paths[..|paths| - 1];
      NamedIsAntitone(copies, fewer, init, req);
      ResolveTogether(copies, fewer, Normalize(Last(paths), req.home), req);
      NamedStep(copies, paths, req);
      NamedStep(fewer, paths, req);
    }
  }

  lemma NamedStep(copies: seq<Entry>, paths: seq<string>, req: Request)
    requires paths != []
    ensures var found := Resolve(copies, Normalize(Last(paths), req.home));
            NamedDeletions(copies, paths, req) ==
              NamedDeletions(copies, paths[..|paths| - 1], req)
              + if found.Some? && Decide(found.value, req).Deletes() then [found.value.path] else []
  {
    var found := Resolve(copies, Normalize(Last(paths), req.home));
    var before := NamedCandidates(copies, paths[..|paths| - 1], req.home);
    if found.Some? {
      DecideAllSnoc(before, found.value, req);
    } else {
      assert NamedCandidates(copies, paths, req.home) == before;
    }
  }

  lemma MoreRefsPermitLess(entries: seq<Entry>, refs: Refs, more: Refs, req: Request)
    requires MoreRefs(refs, more)
    ensures Permits(FreshAll(entries, refs, req.hashes), FreshAll(entries, more, req.hashes), req)
  {
    forall i | 0 <= i < |entries|
      ensures PermitsOne(FreshClassified(entries[i], refs, req.hashes), FreshClassified(entries[i], more, req.hashes), req)
    {
      VerdictIsAntitone(entries[i], refs, more, req);
    }
  }

  /** Planning is antitone in the known runs, in bulk and in explicit mode: for the same scan,
      knowing more runs rejects the same requests and deletes no path more often. */
  lemma PlanningIsAntitone(
    entries: seq<Entry>, runs: seq<Run>, moreRuns: seq<Run>, backend: string, refs: Refs, more: Refs, req: Request)
    requires RefsOf(refs, runs, backend, req) && RefsOf(more, moreRuns, backend, req)
    requires MoreRuns(runs, moreRuns)
    ensures multiset(PlannedDeletions(entries, more, req)) <= multiset(PlannedDeletions(entries, refs, req))
    ensures Plan(entries, more, req).errors == Plan(entries, refs, req).errors
  {
    RefsGrow(refs, more, runs, moreRuns, backend, req);
    MoreRefsPermitLess(entries, refs, more, req);
    var copies, fewer := FreshAll(entries, refs, req.hashes), FreshAll(entries, more, req.hashes);
    if req.paths.None? {
      BulkIsAntitone(copies, fewer, req);
    } else {
      NamedIsAntitone(copies, fewer, req.paths.value, req);
    }
  }

  // ----- The confirmed plan is what is executed -----

  ghost predicate UniquePaths(entries: seq<Entry>) {
    forall i, j :: 0 <= i < j < |entries| ==> entries[i].path != entries[j].path
  }

  /** The execution request: exactly the paths shown, with the original permissions. */
  function Confirmation(entries: seq<Entry>, refs: Refs, req: Request): Request {
    req.(paths := Some(PlannedDeletions(entries, refs, req)))
  }

  lemma {:induction false} NonEmptyBound(parts: seq<string>)
    ensures NonEmpty(parts) <= |parts|
  {
    if parts != [] {
      NonEmptyBound(parts[1..]);
    }
  }

  lemma CleanIsNormalIfTrimmed(p: string, home: Option<string>)
    requires "/" <= p && p[|p| - 1] != '/'
    ensures Normalize(p, home) == p <==> Trimmed(p)
  {
    StripFixesTrimmed(p);
    StripKeepsHead(p);
  }

  /** A planned path keeps its meaning as a request path exactly when it is already trimmed. */
  lemma PlannedPathIsNormal(c: Entry, req: Request)
    requires Decide(c, req).Deletes()
    ensures Normalize(c.path, req.home) == c.path <==> Trimmed(c.path)
  {
    DeletedIsSafe(c, req);
    SafePathIsNormal(c, req.spec, req.home);
  }

  lemma SafePathIsNormal(c: Entry, spec: ScanSpec, home: Option<string>)
    requires SafetyReason(c, spec, home).None?
    ensures Normalize(c.path, home) == c.path <==> Trimmed(c.path)
  {
    SafetyFacts(c, spec, home);
    NonEmptyBound(Split(c.path, '/'));
    CleanHasNoTrailingSlash(c.path);
    CleanIsNormalIfTrimmed(c.path, home);
  }

  lemma StripKeepsHead(p: string)
    requires "/" <= p
    ensures "/" <= Strip(p) && |Strip(p)| <= |p|
    ensures forall home :: Normalize(p, home) == if RStripSlash(Strip(p)) == [] then "/" else RStripSlash(Strip(p))
  {
    assert p[0] == "/"[0];
    HeadSurvives(p);
  }

  lemma {:induction false} HeadSurvives(p: string)
    requires p != [] && !IsSpace(p[0])
    ensures RStrip(p) != [] && RStrip(p)[0] == p[0]
    ensures LStrip(p) == p && |RStrip(p)| <= |p|
  {
    if IsSpace(p[|p| - 1]) {
      HeadSurvives(p[..|p| - 1]);
    }
  }

  lemma {:induction false} ResolveUnique(copies: seq<Entry>, k: nat)
    requires k < |copies|
    requires UniquePaths(copies)
    ensures Resolve(copies, copies[k].path) == Some(copies[k])
  {
    var last := |copies| - 1;
    if k < last {
      assert copies[..last][k] == copies[k];
      ResolveUnique(copies[..last], k);
    }
  }

  /** Every path sent to deletion is the path of a copy that is deleted on its own verdict. */
  lemma {:induction false} DeletedPathHasEntry(planned: seq<PlanEntry>, i: nat) returns (pe: PlanEntry)
    requires i < |DeletedPaths(planned)|
    ensures pe in planned && pe.Deletes() && pe.entry.path == DeletedPaths(planned)[i]
  {
    var init := planned[..|planned| - 1];
    if i < |DeletedPaths(init)| {
      pe := DeletedPathHasEntry(init, i);
    } else {
      pe := Last(planned);
    }
  }

  /** What one request path adds to the deletions, and to the errors. */
  function DeletionFor(copies: seq<Entry>, path: string, req: Request): seq<string> {
    var found := Resolve(copies, Normalize(path, req.home));
    if found.Some? && Decide(found.value, req).Deletes() then [found.value.path] else []
  }

  function ErrorFor(copies: seq<Entry>, path: string, req: Request): seq<string> {
    if Resolve(copies, Normalize(path, req.home)).None? then [path] else []
  }

  lemma {:induction false} NamedCollects(
    copies: seq<Entry>, paths: seq<string>, req: Request, deletions: string -> seq<string>, errors: string -> seq<string>)
    requires forall p :: deletions(p) == DeletionFor(copies, p, req) && errors(p) == ErrorFor(copies, p, req)
    ensures NamedDeletions(copies, paths, req) == Collect(paths, deletions)
    ensures UnknownPaths(copies, paths, req.home) == Collect(paths, errors)
  {
    if paths != [] {
      NamedCollects(copies, paths[..|paths| - 1], req, deletions, errors);
      NamedStep(copies, paths, req);
    }
  }

  ghost predicate ReplayOf(deleted: seq<string>, paths: seq<string>, home: Option<string>) {
    && |deleted| <= |paths|
    && (|deleted| == |paths| ==> forall i :: 0 <= i < |paths| ==> deleted[i] == Normalize(paths[i], home))
  }

  lemma ReplayGrows(before: seq<string>, after: seq<string>, paths: seq<string>, home: Option<string>)
    requires paths != [] && ReplayOf(before, paths[..|paths| - 1], home)
    requires after == before || after == before + [Normalize(Last(paths), home)]
    ensures ReplayOf(after, paths, home)
  {
  }

  lemma NamedStepShape(copies: seq<Entry>, paths: seq<string>, req: Request)
    requires paths != []
    ensures var before := NamedDeletions(copies, paths[..|paths| - 1], req);
            || NamedDeletions(copies, paths, req) == before
            || NamedDeletions(copies, paths, req) == before + [Normalize(Last(paths), req.home)]
  {
    NamedStep(copies, paths, req);
    ResolvedMember(copies, Normalize(Last(paths), req.home));
  }

  /** A replay deletes at most one path per request path, and then the normalized one. */
  lemma {:induction false} ReplayShape(copies: seq<Entry>, paths: seq<string>, req: Request)
    ensures ReplayOf(NamedDeletions(copies, paths, req), paths, req.home)
  {
    if paths != [] {
      var init := paths[..|paths| - 1];
      ReplayShape(copies, init, req);
      NamedStepShape(copies, paths, req);
      ReplayGrows(NamedDeletions(copies, init, req), NamedDeletions(copies, paths, req), paths, req.home);
    }
  }

  /** A path the plan deletes: its scanned entry, whose fresh copy is deleted on its own verdict. */
  lemma PlannedDeletionSource(entries: seq<Entry>, refs: Refs, req: Request, i: nat) returns (k: nat)
    requires i < |PlannedDeletions(entries, refs, req)|
    ensures k < |entries| && entries[k].path == PlannedDeletions(entries, refs, req)[i]
    ensures Decide(FreshClassified(entries[k], refs, req.hashes), req).Deletes()
  {
    var pe := DeletedPathHasEntry(Plan(entries, refs, req).entries, i);
    k := PlannedIsScanned(entries, refs, req, pe);
    ClassifiedKeepsIdentity(entries[k], refs, req.hashes);
  }

  lemma FreshKeepsUnique(entries: seq<Entry>, refs: Refs, hashes: StackHashes)
    requires UniquePaths(entries)
    ensures UniquePaths(FreshAll(entries, refs, hashes))
  {
    forall i | 0 <= i < |entries|
      ensures FreshAll(entries, refs, hashes)[i].path == entries[i].path
    {
      ClassifiedKeepsIdentity(entries[i], refs, hashes);
    }
  }

  ghost predicate AllTrimmed(paths: seq<string>) {
    forall i :: 0 <= i < |paths| ==> Trimmed(paths[i])
  }

  /** A trimmed planned path, replayed, resolves to the entry it was planned for. */
  lemma ReplayOne(entries: seq<Entry>, refs: Refs, req: Request, i: nat)
    requires UniquePaths(entries) && i < |PlannedDeletions(entries, refs, req)|
    ensures var path := PlannedDeletions(entries, refs, req)[i];
            && (Normalize(path, req.home) == path <==> Trimmed(path))
            && (Trimmed(path) ==>
                  && DeletionFor(FreshAll(entries, refs, req.hashes), path, Confirmation(entries, refs, req)) == [path]
                  && ErrorFor(FreshAll(entries, refs, req.hashes), path, Confirmation(entries, refs, req)) == [])
  {
    var copies := FreshAll(entries, refs, req.hashes);
    var k := PlannedDeletionSource(entries, refs, req, i);
    FreshKeepsUnique(entries, refs, req.hashes);
    ClassifiedKeepsIdentity(entries[k], refs, req.hashes);
    PlannedPathIsNormal(copies[k], req);
    ResolveUnique(copies, k);
    SameVerdict(copies[k], req, Confirmation(entries, refs, req));
  }

  /** Replaying trimmed planned paths deletes just those. */
  lemma ReplayExact(entries: seq<Entry>, refs: Refs, req: Request)
    requires UniquePaths(entries)
    requires AllTrimmed(PlannedDeletions(entries, refs, req))
    ensures var paths := PlannedDeletions(entries, refs, req);
            var copies := FreshAll(entries, refs, req.hashes);
            && UnknownPaths(copies, paths, req.home) == []
            && NamedDeletions(copies, paths, Confirmation(entries, refs, req)) == paths
  {
    var paths, again := PlannedDeletions(entries, refs, req), Confirmation(entries, refs, req);
    var copies := FreshAll(entries, refs, req.hashes);
    var deletions, errors := p => DeletionFor(copies, p, again), p => ErrorFor(copies, p, again);
    forall i | 0 <= i < |paths|
      ensures deletions(paths[i]) == [paths[i]] && errors(paths[i]) == []
    {
      ReplayOne(entries, refs, req, i);
    }
    NamedCollects(copies, paths, again, deletions, errors);
    CollectItself(paths, deletions);
    CollectNothing(paths, errors);
  }

  /** Over a scan with unique paths, executing the confirmed paths deletes them all again, in the
      same order and without a request error, exactly when every one of them is trimmed. */
  lemma ConfirmationIsPinned(entries: seq<Entry>, refs: Refs, req: Request)
    requires UniquePaths(entries)
    ensures PlannedDeletions(entries, refs, Confirmation(entries, refs, req)) == PlannedDeletions(entries, refs, req)
      <==> AllTrimmed(PlannedDeletions(entries, refs, req))
    ensures AllTrimmed(PlannedDeletions(entries, refs, req))
      ==> Plan(entries, refs, Confirmation(entries, refs, req)).errors == []
  {
    var paths := PlannedDeletions(entries, refs, req);
    if AllTrimmed(paths) {
      ReplayExact(entries, refs, req);
    } else {
      var i :| 0 <= i < |paths| && !Trimmed(paths[i]);
      ReplayOne(entries, refs, req, i);
      ReplayShape(FreshAll(entries, refs, req.hashes), paths, Confirmation(entries, refs, req));
    }
  }

  /** The verdict on an entry does not depend on how the request names paths. */
  lemma SameVerdict(c: Entry, req: Request, other: Request)
    requires other == req.(paths := other.paths)
    ensures Decide(c, req) == Decide(c, other)
  {
  }

  /** A path that is not trimmed can be planned: alone in a scan without runs, a clone, workspace or
      log that passes the last check is deleted in bulk, and then its execution is refused. */
  lemma UntrimmedPathIsRefused(e: Entry, backend: string, req: Request)
    requires e.kind.Clone? || e.kind.Agent? || e.kind.Log?
    requires SafetyReason(e, req.spec, req.home).None? && !Trimmed(e.path) && req.paths.None?
    ensures RefsOf(NO_REFS, [], backend, req)
    ensures PlannedDeletions([e], NO_REFS, req) == [e.path]
    ensures Plan([e], NO_REFS, Confirmation([e], NO_REFS, req)) == CleanupPlan([], [e.path])
  {
    NoRunsNoRefs(backend, req);
    OrphanIsPlanned(e, req);
    UnknownPathIsRefused(e, NO_REFS, req, e.path);
    ConfirmationOf([e], NO_REFS, req, [e.path]);
  }

  lemma NoRunsNoRefs(backend: string, req: Request)
    ensures RefsOf(NO_REFS, [], backend, req)
  {
  }

  lemma ConfirmationOf(entries: seq<Entry>, refs: Refs, req: Request, paths: seq<string>)
    requires PlannedDeletions(entries, refs, req) == paths
    ensures Confirmation(entries, refs, req) == req.(paths := Some(paths))
  {
  }

  lemma OrphanIsPlanned(e: Entry, req: Request)
    requires e.kind.Clone? || e.kind.Agent? || e.kind.Log?
    requires SafetyReason(e, req.spec, req.home).None? && req.paths.None?
    ensures PlannedDeletions([e], NO_REFS, req) == [e.path]
    ensures Normalize(e.path, req.home) == e.path <==> Trimmed(e.path)
  {
    var copy := FreshClassified(e, NO_REFS, req.hashes);
    ClassifiedKeepsIdentity(e, NO_REFS, req.hashes);
    assert Holders(Fresh(e), NO_REFS) == {};
    OrphanIsDeletedInBulk(e, [e], NO_REFS, req);
    OnlyPlanned(e, NO_REFS, req);
    SafePathIsNormal(e, req.spec, req.home);
  }

  lemma OnlyPlanned(e: Entry, refs: Refs, req: Request)
    requires req.paths.None? && BulkEligible(FreshClassified(e, refs, req.hashes))
    requires Decide(FreshClassified(e, refs, req.hashes), req).Deletes()
    requires FreshClassified(e, refs, req.hashes).path == e.path
    ensures PlannedDeletions([e], refs, req) == [e.path]
  {
    var copy := FreshClassified(e, refs, req.hashes);
    var copies, planned := [copy], [Decide(copy, req)];
    assert FreshAll([e], refs, req.hashes) == copies;
    assert copies[..0] == [] && BulkCandidates(copies) == [copy];
    assert DecideAll([copy], req) == planned;
    assert planned[..0] == [] && DeletedPaths(planned) == [e.path];
  }

  /** A request for a path that no scanned entry has is refused as a whole. */
  lemma UnknownPathIsRefused(e: Entry, refs: Refs, req: Request, path: string)
    requires Normalize(path, req.home) != e.path
    ensures Plan([e], refs, req.(paths := Some([path]))) == CleanupPlan([], [path])
  {
    var copy := FreshClassified(e, refs, req.hashes);
    ClassifiedKeepsIdentity(e, refs, req.hashes);
    assert FreshAll([e], refs, req.hashes) == [copy];
    LoneUnknownPath(copy, path, req.home);
  }

  lemma LoneUnknownPath(copy: Entry, path: string, home: Option<string>)
    requires copy.path != Normalize(path, home)
    ensures UnknownPaths([copy], [path], home) == [path]
  {
    var copies, paths := [copy], [path];
    assert Last(copies) == copy && Last(paths) == path;
    assert copies[..0] == [] && paths[..0] == [];
    assert UnknownPaths(copies, paths[..0], home) == [];
    assert Resolve(copies, Normalize(path, home)).None?;
  }

  /** The log `x ` below the log root `/a/b`, with a space at its end, is such an entry. */
  lemma UntrimmedLogIsRefused(backend: string, hashes: StackHashes) returns (e: Entry, req: Request)
    ensures e.path == "/a/b" + "/" + "x " && e.kind.Log? && req.spec.logRoots == ["/a/b"]
    ensures RefsOf(NO_REFS, [], backend, req)
    ensures PlannedDeletions([e], NO_REFS, req) == [e.path]
    ensures Plan([e], NO_REFS, Confirmation([e], NO_REFS, req)) == CleanupPlan([], [e.path])
  {
    AbIsNormal();
    e, req := UntrimmedLog("/a/b", "x ", backend, hashes);
  }

  lemma AbIsNormal()
    ensures NormalPath("/a/b") && Segments("/a/b") == ["a", "b"]
  {
    SplitNoSep("a", '/');
    SplitNoSep("b", '/');
    SplitConcat("", '/', "a");
    SplitConcat("" + "/" + "a", '/', "b");
    assert "/a/b" == "" + "/" + "a" + "/" + "b";
    assert Split("/a/b", '/') == ["", "a", "b"];
    NormalSegments("/a/b");
  }

  lemma UntrimmedLog(root: string, name: string, backend: string, hashes: StackHashes) returns (e: Entry, req: Request)
    requires NormalPath(root) && |Segments(root)| >= 2 && root[|root| - 1] != '/' && Trimmed(root)
    requires IsStep(name) && '/' !in name && !Trimmed(root + "/" + name)
    ensures e.path == root + "/" + name && e.kind.Log? && req.spec.logRoots == [root]
    ensures RefsOf(NO_REFS, [], backend, req)
    ensures PlannedDeletions([e], NO_REFS, req) == [e.path]
    ensures Plan([e], NO_REFS, Confirmation([e], NO_REFS, req)) == CleanupPlan([], [e.path])
  {
    e := ScannedAs(root + "/" + name, Log);
    req := Request(ScanSpec([], [], [root], []), None, hashes, None, {});
    ChildIsSafe(e, root, name, req.spec);
    UntrimmedPathIsRefused(e, backend, req);
  }

  /** And if runs appeared since, the execution still raises no error and deletes no more. */
  lemma ConfirmationOnlyShrinks(
    entries: seq<Entry>, runs: seq<Run>, moreRuns: seq<Run>, backend: string, refs: Refs, more: Refs, req: Request)
    requires RefsOf(refs, runs, backend, req) && RefsOf(more, moreRuns, backend, req)
    requires MoreRuns(runs, moreRuns)
    requires UniquePaths(entries)
    requires AllTrimmed(PlannedDeletions(entries, refs, req))
    ensures Plan(entries, more, Confirmation(entries, refs, req)).errors == []
    ensures multiset(PlannedDeletions(entries, more, Confirmation(entries, refs, req)))
         <= multiset(PlannedDeletions(entries, refs, req))
  {
    ConfirmationIsPinned(entries, refs, req);
    PlanningIsAntitone(entries, runs, moreRuns, backend, refs, more, Confirmation(entries, refs, req));
  }
}
