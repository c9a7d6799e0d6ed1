/** The cleanup planner: which scanned entries may reach `rm -rf`, and why the others may not. */
module Cleanup {
  import opened Wrappers
  import opened Lists
  import opened Text
  import opened RemotePaths
  import opened Directories
  import opened DiskModel
  import opened Classify
  import opened DiskEntries

  // ----- Fresh copies -----

  /** `_base_detail`: the detail the scanner derives from the path, without classifier annotations. */
  function BaseDetail(e: Entry): Option<string> {
    var parts := Split(e.path, '/');
    match e.kind
    case Stack => Some(StackDetail(parts) + if e.ready == Some(false) then " (half-built)" else "")
    case Log => Some(Last(parts))
    case _ => None
  }

  /** `"/".join(parts[-2:])` */
  function StackDetail(parts: seq<string>): string
    requires |parts| >= 1
  {
    if |parts| == 1 then parts[0] else parts[|parts| - 2] + "/" + parts[|parts| - 1]
  }

  function Fresh(e: Entry): Entry {
    e.(runIds := {}, class_ := Unknown, detail := BaseDetail(e))
  }

  function FreshClassified(e: Entry, refs: Refs, hashes: StackHashes): Entry {
    Classified(Fresh(e), refs, hashes)
  }

  // ----- The last check on a path -----

  datatype SafetyIssue =
    NotClean | TooShallow | NotUnderRoot | IsHome | WrongDepth | NotCloneName | NotAgentName

  function NonEmpty(parts: seq<string>): nat {
    if parts == [] then 0 else (if parts[0] == [] then 0 else 1) + NonEmpty(parts[1..])
  }

  /** The first root, in listed order, that the path lies under; relative roots are passed over. */
  function MatchedRoot(p: string, roots: seq<string>): Option<string> {
    if roots == [] then None
    else if "/" <= roots[0] && Below(roots[0], p) then Some(roots[0])
    else MatchedRoot(p, roots[1..])
  }

  function RootsFor(k: Kind, spec: ScanSpec): seq<string> {
    match k
    case Clone => spec.cloneDirs
    case Agent => spec.cloneDirs
    case Stack => spec.stackDirs
    case _ => spec.logRoots
  }

  /** `_safety_reason`; None means the path may be deleted. */
  function SafetyReason(e: Entry, spec: ScanSpec, home: Option<string>): Option<SafetyIssue> {
    var p := e.path;
    if !NormalPath(p) then Some(NotClean)
    else if NonEmpty(Split(p, '/')) < 3 then Some(TooShallow)
    else
      var matched := MatchedRoot(p, NormalizeAll(RootsFor(e.kind, spec), home));
      if matched.None? then Some(NotUnderRoot)
      else if home.Some? && home.value != [] && p == RStripSlash(home.value) then Some(IsHome)
      else
        MatchedIsAbove(p, NormalizeAll(RootsFor(e.kind, spec), home));
        ChildIssue(e.kind, Split(p[|matched.value| + 1..], '/'))
  }

  /** The segments below the matched root must have the depth and the name their kind calls for. */
  function ChildIssue(kind: Kind, below: seq<string>): Option<SafetyIssue>
    requires |below| >= 1
  {
    if |below| != (if kind.Stack? then 2 else 1) then Some(WrongDepth)
    else if kind.Clone? && !IsCloneName(below[0]) then Some(NotCloneName)
    else if kind.Agent? && !IsAgentName(below[0]) then Some(NotAgentName)
    else None
  }

  lemma {:induction false} MatchedIsAbove(p: string, roots: seq<string>)
    requires MatchedRoot(p, roots).Some?
    ensures Below(MatchedRoot(p, roots).value, p)
    ensures MatchedRoot(p, roots).value in roots
  {
    if !("/" <= roots[0] && Below(roots[0], p)) {
      MatchedIsAbove(p, roots[1..]);
    }
  }

  // ----- The plan -----

  datatype SkipReason =
    | NeverDeletable
    | HeldByActive(runs: set<string>)
    | ClassUnknown
    | NeedsOptIn(runs: set<string>)
    | Unsafe(issue: SafetyIssue)

  datatype Action = Delete | CheckThenDelete | Skip(reason: SkipReason)

  datatype PlanEntry = PlanEntry(entry: Entry, action: Action) {
    predicate Deletes() {
      !action.Skip?
    }
  }

  datatype CleanupPlan = CleanupPlan(entries: seq<PlanEntry>, errors: seq<string>)

  /** Everything a plan depends on besides the scan and the references. `paths == None` is bulk mode. */
  datatype Request = Request(
    spec: ScanSpec, home: Option<string>, hashes: StackHashes, paths: Option<seq<string>>, allow: set<string>)

  predicate Allowed(path: string, req: Request) {
    exists p :: p in req.allow && Normalize(p, req.home) == path
  }

  /** Why a classified entry is kept; None means it is deleted. */
  function Verdict(c: Entry, req: Request): Option<SkipReason> {
    if !DeletableKind(c.kind) then Some(NeverDeletable)
    else if c.class_ == Active then Some(HeldByActive(c.runIds))
    else if c.class_ == Unknown then Some(ClassUnknown)
    else if c.class_ == Referenced && !Allowed(c.path, req) then Some(NeedsOptIn(c.runIds))
    else
      match SafetyReason(c, req.spec, req.home)
      case None => None
      case Some(issue) => Some(Unsafe(issue))
  }

  function Decide(c: Entry, req: Request): PlanEntry {
    match Verdict(c, req)
    case Some(reason) => PlanEntry(c, Skip(reason))
    case None => PlanEntry(c, if c.kind.Agent? then CheckThenDelete else Delete)
  }

  function FreshAll(entries: seq<Entry>, refs: Refs, hashes: StackHashes): (r: seq<Entry>)
    ensures |r| == |entries|
    ensures forall i :: 0 <= i < |r| ==> r[i] == FreshClassified(entries[i], refs, hashes)
  {
    seq(|entries|, i requires 0 <= i < |entries| => FreshClassified(entries[i], refs, hashes))
  }

  predicate BulkEligible(c: Entry) {
    c.class_ == Orphaned && DeletableKind(c.kind)
  }

  function BulkCandidates(copies: seq<Entry>): seq<Entry> {
    if copies == [] then []
    else BulkCandidates(copies[..|copies| - 1]) + if BulkEligible(Last(copies)) then [Last(copies)] else []
  }

  /** The copy an explicit path stands for; of several with the same path the last one counts. */
  function Resolve(copies: seq<Entry>, path: string): Option<Entry> {
    if copies == [] then None
    else if Last(copies).path == path then Some(Last(copies))
    else Resolve(copies[..|copies| - 1], path)
  }

  function NamedCandidates(copies: seq<Entry>, paths: seq<string>, home: Option<string>): seq<Entry> {
    if paths == [] then []
    else
      var found := Resolve(copies, Normalize(Last(paths), home));
      NamedCandidates(copies, paths[..|paths| - 1], home) + if found.Some? then [found.value] else []
  }

  function UnknownPaths(copies: seq<Entry>, paths: seq<string>, home: Option<string>): seq<string> {
    if paths == [] then []
    else
      var found := Resolve(copies, Normalize(Last(paths), home));
      UnknownPaths(copies, paths[..|paths| - 1], home) + if found.None? then [Last(paths)] else []
  }

  function DecideAll(candidates: seq<Entry>, req: Request): (r: seq<PlanEntry>)
    ensures |r| == |candidates| && forall i :: 0 <= i < |r| ==> r[i] == Decide(candidates[i], req)
  {
    seq(|candidates|, i requires 0 <= i < |candidates| => Decide(candidates[i], req))
  }

  /** The plan for a scan, under given references. */
  function Plan(entries: seq<Entry>, refs: Refs, req: Request): CleanupPlan {
    var copies := FreshAll(entries, refs, req.hashes);
    match req.paths
    case None => CleanupPlan(DecideAll(BulkCandidates(copies), req), [])
    case Some(paths) =>
      var errors := UnknownPaths(copies, paths, req.home);
      if errors != [] then CleanupPlan([], errors)
      else CleanupPlan(DecideAll(NamedCandidates(copies, paths, req.home), req), [])
  }

  /** `_fresh_copies`: new entries, classified now; the cached ones are not touched. */
  method FreshCopies(entries: seq<DiskEntry>, refs: Refs, hashes: StackHashes) returns (copies: seq<DiskEntry>)
    ensures Views(copies) == FreshAll(Views(entries), refs, hashes)
    ensures Distinct(copies) && fresh(copies)
  {
    copies := [];
    for i := 0 to |entries|
      invariant |copies| == i && fresh(copies) && Distinct(copies)
      invariant forall j :: 0 <= j < i ==> copies[j].View() == Fresh(entries[j].View())
    {
      var copy := new DiskEntry(Fresh(entries[i].View()));
      copies := copies + [copy];
    }
    ClassifyEntries(copies, refs, hashes);
  }

  method SelectBulk(copies: seq<Entry>) returns (candidates: seq<Entry>)
    ensures candidates == BulkCandidates(copies)
  {
    candidates := [];
    for i := 0 to |copies|
      invariant candidates == BulkCandidates(copies[..i])
    {
      assert copies[..i + 1][..i] == copies[..i];
      if BulkEligible(copies[i]) {
        candidates := candidates + [copies[i]];
      }
    }
    assert copies[..|copies|] == copies;
  }

  lemma NamedSnoc(copies: seq<Entry>, paths: seq<string>, i: nat, home: Option<string>)
    requires i < |paths|
    ensures var found := Resolve(copies, Normalize(paths[i], home));
            && NamedCandidates(copies, paths[..i + 1], home) ==
                 NamedCandidates(copies, paths[..i], home) + (if found.Some? then [found.value] else [])
            && UnknownPaths(copies, paths[..i + 1], home) ==
                 UnknownPaths(copies, paths[..i], home) + (if found.None? then [paths[i]] else [])
  {
    assert paths[..i + 1][..i] == paths[..i];
  }

  method SelectNamed(copies: seq<Entry>, paths: seq<string>, home: Option<string>)
    returns (candidates: seq<Entry>, errors: seq<string>)
    ensures candidates == NamedCandidates(copies, paths, home)
    ensures errors == UnknownPaths(copies, paths, home)
  {
    var byPath := IndexByPath(copies);
    candidates, errors := [], [];
    for i := 0 to |paths|
      invariant candidates == NamedCandidates(copies, paths[..i], home)
      invariant errors == UnknownPaths(copies, paths[..i], home)
    {
      NamedSnoc(copies, paths, i, home);
      var norm := Normalize(paths[i], home);
      if norm !in byPath {
        errors := errors + [paths[i]];
      } else {
        candidates := candidates + [byPath[norm]];
      }
    }
    assert paths[..|paths|] == paths;
  }

  method DecideEach(candidates: seq<Entry>, req: Request) returns (planned: seq<PlanEntry>)
    ensures planned == DecideAll(candidates, req)
  {
    planned := [];
    for i := 0 to |candidates|
      invariant |planned| == i && forall j :: 0 <= j < i ==> planned[j] == Decide(candidates[j], req)
    {
      planned := planned + [Decide(candidates[i], req)];
    }
  }

  /** `plan_cleanup` */
  method PlanCleanup(entries: seq<DiskEntry>, refs: Refs, req: Request) returns (plan: CleanupPlan)
    ensures plan == Plan(Views(entries), refs, req)
  {
    var objects := FreshCopies(entries, refs, req.hashes);
    var copies := Views(objects);
    var candidates;
    if req.paths.None? {
      candidates := SelectBulk(copies);
    } else {
      var errors;
      candidates, errors := SelectNamed(copies, req.paths.value, req.home);
      if errors != [] {
        return CleanupPlan([], errors);
      }
    }
    var planned := DecideEach(candidates, req);
    return CleanupPlan(planned, []);
  }

  method IndexByPath(copies: seq<Entry>) returns (byPath: map<string, Entry>)
    ensures forall p :: Resolve(copies, p) == if p in byPath then Some(byPath[p]) else None
  {
    byPath := map[];
    for i := 0 to |copies|
      invariant forall p :: Resolve(copies[..i], p) == if p in byPath then Some(byPath[p]) else None
    {
      assert copies[..i + 1][..i] == copies[..i];
      byPath := byPath[copies[i].path := copies[i]];
    }
    assert copies[..|copies|] == copies;
  }
}
