/** The roots a backend is scanned at, from its configuration to the remote shell, and whether the
    cache sweep can print a directory that another section prints too. */
module ScanRoots {
  import opened Lists
  import opened Text
  import opened RemotePaths
  import opened Directories
  import opened DiskModel
  import opened CacheSweep

  // ----- From the configuration to the shell -----

  const DEFAULT_LOG_ROOT := "~/.cache/scripthut/logs"
  const DEFAULT_CACHE_ROOT := "~/.cache/scripthut"

  /** What the scan reads of a stack; no backends means all of them. */
  datatype Stack = Stack(cacheDir: string, backends: set<string>)

  function WithRoot(roots: seq<string>, dir: string): seq<string> {
    var d := RStripSlash(dir);
    if d != "" && d !in roots then roots + [d] else roots
  }

  function RootsFrom(dirs: seq<string>): seq<string> {
    if dirs == [] then [] else WithRoot(RootsFrom(dirs[..|dirs| - 1]), Last(dirs))
  }

  function StackDirs(stacks: seq<Stack>, backend: string): seq<string> {
    if stacks == [] then []
    else
      var s := Last(stacks);
      StackDirs(stacks[..|stacks| - 1], backend) + if s.backends == {} || backend in s.backends then [s.cacheDir] else []
  }

  function SpecFor(cloneDirs: seq<string>, stacks: seq<Stack>, backend: string): ScanSpec {
    ScanSpec(RootsFrom(cloneDirs), RootsFrom(StackDirs(stacks, backend)), [DEFAULT_LOG_ROOT], [DEFAULT_CACHE_ROOT])
  }

  /** Some configured directory is this root, trailing slashes aside. */
  predicate Configured(dirs: seq<string>, root: string) {
    exists i :: 0 <= i < |dirs| && RStripSlash(dirs[i]) == root
  }

  /** Each root once, and in the order in which the configured directories first name them. */
  ghost predicate InOrder(roots: seq<string>, dirs: seq<string>) {
    forall i, j :: 0 <= i < j < |roots| ==> roots[i] != roots[j] && NamedBefore(dirs, roots[i], roots[j])
  }

  ghost predicate NamedBefore(dirs: seq<string>, r: string, s: string) {
    exists a :: 0 <= a < |dirs| && RStripSlash(dirs[a]) == r && forall b :: 0 <= b < a ==> RStripSlash(dirs[b]) != s
  }

  /** The stack is declared for the backend, or for all of them. */
  predicate Serves(s: Stack, backend: string) {
    s.backends == {} || backend in s.backends
  }

  /** The cache dir of some stack for the backend is this root, trailing slashes aside. */
  predicate Offered(stacks: seq<Stack>, backend: string, root: string) {
    exists i :: 0 <= i < |stacks| && Serves(stacks[i], backend) && RStripSlash(stacks[i].cacheDir) == root
  }

  /** The same order for the cache dirs of the stacks for the backend. */
  ghost predicate StacksInOrder(roots: seq<string>, stacks: seq<Stack>, backend: string) {
    forall i, j :: 0 <= i < j < |roots| ==> roots[i] != roots[j] && OfferedBefore(stacks, backend, roots[i], roots[j])
  }

  ghost predicate OfferedBefore(stacks: seq<Stack>, backend: string, r: string, s: string) {
    exists a :: 0 <= a < |stacks| && Serves(stacks[a], backend) && RStripSlash(stacks[a].cacheDir) == r
      && forall b :: 0 <= b < a && Serves(stacks[b], backend) ==> RStripSlash(stacks[b].cacheDir) != s
  }

  /** The loop over the clone dirs. */
  method CollectRoots(dirs: seq<string>) returns (roots: seq<string>)
    ensures roots == RootsFrom(dirs)
  {
    roots := [];
    for i := 0 to |dirs|
      invariant roots == RootsFrom(dirs[..i])
    {
      assert dirs[..i + 1][..i] == dirs[..i];
      var d := RStripSlash(dirs[i]);
      if d != "" && d !in roots {
        roots := roots + [d];
      }
    }
    assert dirs[..|dirs|] == dirs;
  }

  /** The loop over the stacks, skipping those for other backends. */
  method CollectStackRoots(stacks: seq<Stack>, backend: string) returns (roots: seq<string>)
    ensures roots == RootsFrom(StackDirs(stacks, backend))
  {
    roots := [];
    for i := 0 to |stacks|
      invariant roots == RootsFrom(StackDirs(stacks[..i], backend))
    {
      assert stacks[..i + 1][..i] == stacks[..i];
      ghost var before := StackDirs(stacks[..i], backend);
      if stacks[i].backends != {} && backend !in stacks[i].backends {
        assert before + [] == before;
        continue;
      }
      assert (before + [stacks[i].cacheDir])[..|before|] == before;
      var d := RStripSlash(stacks[i].cacheDir);
      if d != "" && d !in roots {
        roots := roots + [d];
      }
    }
    assert stacks[..|stacks|] == stacks;
  }

  /** `build_scan_spec`; the backend's own clone dir comes first, then those of the git sources. */
  method BuildScanSpec(backend: string, cloneDir: string, sourceDirs: seq<string>, stacks: seq<Stack>)
    returns (spec: ScanSpec)
    ensures spec == SpecFor([cloneDir] + sourceDirs, stacks, backend)
    ensures forall r :: r in spec.cloneDirs <==> r != "" && Configured([cloneDir] + sourceDirs, r)
    ensures forall r :: r in spec.cloneDirs ==> r[|r| - 1] != '/'
    ensures InOrder(spec.cloneDirs, [cloneDir] + sourceDirs)
    ensures forall r :: r in spec.stackDirs <==> r != "" && Offered(stacks, backend, r)
    ensures StacksInOrder(spec.stackDirs, stacks, backend)
  {
    var cloneDirs := CollectRoots([cloneDir] + sourceDirs);
    var stackDirs := CollectStackRoots(stacks, backend);
    spec := ScanSpec(cloneDirs, stackDirs, [DEFAULT_LOG_ROOT], [DEFAULT_CACHE_ROOT]);
    forall r
      ensures r in cloneDirs <==> r != "" && Configured([cloneDir] + sourceDirs, r)
    {
      RootsAreConfigured([cloneDir] + sourceDirs, r);
    }
    RootsAreInOrder([cloneDir] + sourceDirs);
    forall r
      ensures r in stackDirs <==> r != "" && Offered(stacks, backend, r)
    {
      StackRootsAreOffered(stacks, backend, r);
    }
    StackRootsAreInOrder(stacks, backend);
  }

  /** The roots are the configured directories without trailing slashes, the file-system root left out. */
  lemma {:induction false} RootsAreConfigured(dirs: seq<string>, r: string)
    ensures r in RootsFrom(dirs) <==> r != "" && Configured(dirs, r)
  {
    if dirs != [] {
      var init := dirs[..|dirs| - 1];
      RootsAreConfigured(init, r);
      assert forall i :: 0 <= i < |init| ==> dirs[i] == init[i];
    }
  }

  lemma {:induction false} RootsAreInOrder(dirs: seq<string>)
    ensures InOrder(RootsFrom(dirs), dirs)
  {
    if dirs != [] {
      var init, roots, before := dirs[..|dirs| - 1], RootsFrom(dirs), RootsFrom(dirs[..|dirs| - 1]);
      RootsAreInOrder(init);
      assert forall a :: 0 <= a < |init| ==> init[a] == dirs[a];
      forall i, j | 0 <= i < j < |roots|
        ensures roots[i] != roots[j] && NamedBefore(dirs, roots[i], roots[j])
      {
        if j < |before| {
          assert NamedBefore(init, before[i], before[j]);
        } else {
          assert roots[i] == before[i] && before[i] in before;
          RootsAreConfigured(init, before[i]);
          RootsAreConfigured(init, roots[j]);
          var a :| 0 <= a < |init| && RStripSlash(init[a]) == before[i];
          assert RStripSlash(dirs[a]) == roots[i];
        }
      }
    }
  }

  lemma {:induction false} StackRootsAreOffered(stacks: seq<Stack>, backend: string, r: string)
    ensures r in RootsFrom(StackDirs(stacks, backend)) <==> r != "" && Offered(stacks, backend, r)
  {
    if stacks != [] {
      StackRootsAreOffered(stacks[..|stacks| - 1], backend, r);
      StackRootsGrow(stacks, backend);
      OfferedGrows(stacks, backend, r);
    }
  }

  lemma OfferedGrows(stacks: seq<Stack>, backend: string, r: string)
    requires stacks != []
    ensures Offered(stacks, backend, r) <==>
              || Offered(stacks[..|stacks| - 1], backend, r)
              || (Serves(Last(stacks), backend) && RStripSlash(Last(stacks).cacheDir) == r)
  {
    var init := stacks[..|stacks| - 1];
    assert forall i :: 0 <= i < |init| ==> stacks[i] == init[i];
    assert stacks[|init|] == Last(stacks);
  }

  lemma StackRootsGrow(stacks: seq<Stack>, backend: string)
    requires stacks != []
    ensures var before := RootsFrom(StackDirs(stacks[..|stacks| - 1], backend));
            RootsFrom(StackDirs(stacks, backend)) ==
              if Serves(Last(stacks), backend) then WithRoot(before, Last(stacks).cacheDir) else before
  {
    var init, s := stacks[..|stacks| - 1], Last(stacks);
    var dirs := StackDirs(init, backend);
    assert (dirs + [s.cacheDir])[..|dirs|] == dirs && Last(dirs + [s.cacheDir]) == s.cacheDir;
    assert dirs + [] == dirs;
  }

  lemma {:induction false} StackRootsAreInOrder(stacks: seq<Stack>, backend: string)
    ensures StacksInOrder(RootsFrom(StackDirs(stacks, backend)), stacks, backend)
  {
    if stacks != [] {
      var init := stacks[..|stacks| - 1];
      var roots, before := RootsFrom(StackDirs(stacks, backend)), RootsFrom(StackDirs(init, backend));
      StackRootsAreInOrder(init, backend);
      StackRootsGrow(stacks, backend);
      forall i, j | 0 <= i < j < |roots|
        ensures roots[i] != roots[j] && OfferedBefore(stacks, backend, roots[i], roots[j])
      {
        if j < |before| {
          OfferedStays(stacks, backend, before[i], before[j]);
        } else {
          assert roots[i] in before && roots[j] !in before && roots[j] != "";
          StackRootsAreOffered(init, backend, roots[i]);
          StackRootsAreOffered(init, backend, roots[j]);
          OfferedFirst(stacks, backend, roots[i], roots[j]);
        }
      }
    }
  }

  lemma OfferedStays(stacks: seq<Stack>, backend: string, r: string, s: string)
    requires stacks != [] && OfferedBefore(stacks[..|stacks| - 1], backend, r, s)
    ensures OfferedBefore(stacks, backend, r, s)
  {
    var init := stacks[..|stacks| - 1];
    assert forall a :: 0 <= a < |init| ==> init[a] == stacks[a];
  }

  lemma OfferedFirst(stacks: seq<Stack>, backend: string, r: string, s: string)
    requires stacks != [] && Offered(stacks[..|stacks| - 1], backend, r) && !Offered(stacks[..|stacks| - 1], backend, s)
    ensures OfferedBefore(stacks, backend, r, s)
  {
    var init := stacks[..|stacks| - 1];
    assert forall a :: 0 <= a < |init| ==> init[a] == stacks[a];
    var a :| 0 <= a < |init| && Serves(init[a], backend) && RStripSlash(init[a].cacheDir) == r;
    assert Serves(stacks[a], backend) && RStripSlash(stacks[a].cacheDir) == r;
  }

  /** A leading `~` is replaced by `$HOME`, which the remote shell expands. */
  function Expand(path: string, home: string): string {
    if "~" <= path then home + path[1..] else path
  }

  function ExpandAll(paths: seq<string>, home: string): (r: seq<string>)
    ensures |r| == |paths| && forall i :: 0 <= i < |r| ==> r[i] == Expand(paths[i], home)
  {
    seq(|paths|, i requires 0 <= i < |paths| => Expand(paths[i], home))
  }

  /** The roots as the remote shell sees them. */
  function Expanded(spec: ScanSpec, home: string): ScanSpec {
    ScanSpec(
      ExpandAll(spec.cloneDirs, home), ExpandAll(spec.stackDirs, home),
      ExpandAll(spec.logRoots, home), ExpandAll(spec.cacheRoots, home))
  }

  // ----- Directories -----

  /** The directory a path names for a shell whose current directory is `cwd`. */
  function Directory(p: string, cwd: string): seq<string> {
    if "/" <= p then Segments(p) else Walk(Segments(cwd), Split(p, '/'))
  }

  predicate Nested(a: seq<string>, b: seq<string>) {
    a <= b || b <= a
  }

  /** The name of a directory in its parent; unlike what `*` expands to it may start with a dot. */
  predicate IsDirName(s: string) {
    IsStep(s) && '/' !in s
  }

  lemma DirectoryOfChild(p: string, name: string, cwd: string)
    requires p != "" && IsDirName(name)
    ensures Directory(p + "/" + name, cwd) == Directory(p, cwd) + [name]
  {
    OneMoreStep(p, name);
    SplitNoSep(name, '/');
    SplitConcat(p, '/', name);
    WalkConcat(Segments(cwd), Split(p, '/'), [name]);
    WalkOne(Walk(Segments(cwd), Split(p, '/')), name);
    assert (p + "/" + name)[0] == p[0];
  }

  lemma DirectoryIsOfNames(p: string, cwd: string)
    ensures forall i :: 0 <= i < |Directory(p, cwd)| ==> IsDirName(Directory(p, cwd)[i])
  {
    SplitPartsNoSep(p, '/');
    SplitPartsNoSep(cwd, '/');
    WalkIsOfSteps([], Split(p, '/'));
    WalkIsOfSteps([], Split(cwd, '/'));
    WalkIsOfSteps(Segments(cwd), Split(p, '/'));
  }

  /** The steps from a section root to something printed under it. */
  lemma PrintedIsBelow(spec: ScanSpec, root: string, q: string, cwd: string) returns (steps: seq<string>)
    requires SectionEntry(spec, root, q)
    ensures root != "" && Directory(q, cwd) == Directory(root, cwd) + steps
    ensures CanPrint(spec, root, steps)
  {
    var rest := q[|root| + 1..];
    assert q == root + "/" + rest;
    if root in spec.cloneDirs + spec.logRoots && IsChild(root, q) {
      DirectoryOfChild(root, rest, cwd);
      steps := [rest];
    } else {
      var parts := Split(rest, '/');
      GrandchildText(rest, parts);
      assert q == (root + "/" + parts[0]) + "/" + parts[1];
      DirectoryOfChild(root, parts[0], cwd);
      DirectoryOfChild(root + "/" + parts[0], parts[1], cwd);
      steps := [parts[0], parts[1]];
    }
  }

  lemma GrandchildText(rest: string, parts: seq<string>)
    requires parts == Split(rest, '/') && |parts| == 2
    ensures rest == parts[0] + "/" + parts[1]
  {
    JoinSplit(rest);
    assert parts[1..] == [parts[1]];
  }

  /** What a section can print under one of its roots, as steps: one visible name, two in the stacks section. */
  predicate CanPrint(spec: ScanSpec, root: string, steps: seq<string>) {
    || (root in spec.cloneDirs + spec.logRoots && |steps| == 1 && IsName(steps[0]))
    || (root in spec.stackDirs && |steps| == 2 && IsName(steps[0]) && IsName(steps[1]))
  }

  lemma ChildPrinted(root: string, name: string, cwd: string)
    requires root != "" && IsName(name)
    ensures IsChild(root, root + "/" + name)
    ensures Directory(root + "/" + name, cwd) == Directory(root, cwd) + [name]
  {
    DirectoryOfChild(root, name, cwd);
    assert (root + "/" + name)[|root| + 1..] == name;
  }

  lemma GrandchildPrinted(root: string, name: string, inner: string, cwd: string)
    requires root != "" && IsName(name) && IsName(inner)
    ensures IsGrandchild(root, root + "/" + name + "/" + inner)
    ensures Directory(root + "/" + name + "/" + inner, cwd) == Directory(root, cwd) + [name, inner]
  {
    var q := root + "/" + name + "/" + inner;
    assert q == root + "/" + (name + "/" + inner);
    TwoStepsPrinted(root, name, inner);
    DirectoryOfChild(root, name, cwd);
    DirectoryOfChild(root + "/" + name, inner, cwd);
  }

  lemma TwoStepsPrinted(root: string, name: string, inner: string)
    requires root != "" && IsName(name) && IsName(inner)
    ensures IsGrandchild(root, root + "/" + (name + "/" + inner))
  {
    var rest := name + "/" + inner;
    assert (root + "/" + rest)[|root| + 1..] == rest;
    SplitConcat(name, '/', inner);
    SplitNoSep(name, '/');
    SplitNoSep(inner, '/');
  }

  /** Whatever the section can print, it does print where it exists. */
  lemma SectionPrints(spec: ScanSpec, root: string, steps: seq<string>, cwd: string) returns (q: string)
    requires root != "" && CanPrint(spec, root, steps)
    ensures SectionEntry(spec, root, q) && Directory(q, cwd) == Directory(root, cwd) + steps
  {
    if root in spec.cloneDirs + spec.logRoots && |steps| == 1 {
      q := root + "/" + steps[0];
      ChildPrinted(root, steps[0], cwd);
      assert steps == [steps[0]];
    } else {
      q := root + "/" + steps[0] + "/" + steps[1];
      GrandchildPrinted(root, steps[0], steps[1], cwd);
      assert steps == [steps[0], steps[1]];
    }
  }

  // ----- Double counting -----

  /** Something the sweep can print nests with something a section can print. */
  ghost predicate DoubleCounts(spec: ScanSpec, cwd: string) {
    exists c, root, q ::
      CacheEntry(spec, c) && SectionEntry(spec, root, q) && Nested(Directory(c, cwd), Directory(q, cwd))
  }

  /** The roots name a section root at or above the cache root as a prefix of its text. */
  predicate SweptAway(roots: seq<string>, k: string) {
    exists r :: r in roots && DropSlash(r) != "" && Contains(DropSlash(r), k)
  }

  /** The section prints something towards the cache root that many steps below its root: no name that
      it goes through is hidden. */
  predicate Reaches(spec: ScanSpec, root: string, steps: seq<string>) {
    || (root in spec.cloneDirs + spec.logRoots && (steps == [] || IsName(steps[0])))
    || (root in spec.stackDirs && (steps == [] || (IsName(steps[0]) && (|steps| == 1 || IsName(steps[1])))))
  }

  /** The text of the roots shows what their directories are: a section root below the cache root that
      the sweep meets is seen by the covering test, and one at or above it whose section comes upon the
      cache root covers it altogether. */
  predicate Protected(spec: ScanSpec, k: string, r: string, cwd: string) {
    var dk, dr := Directory(k, cwd), Directory(r, cwd);
    && (dk < dr && IsName(dr[|dk|]) ==> Covered(k + "/" + dr[|dk|], SectionRoots(spec)))
    && (dr <= dk && Reaches(spec, r, dk[|dr|..]) ==> SweptAway(SectionRoots(spec), k))
  }

  lemma {:induction false} CoveredExists(c: string, roots: seq<string>)
    ensures Covered(c, roots) <==> exists r :: r in roots && CoveredBy(c, r)
  {
    if roots != [] {
      CoveredExists(c, roots[1..]);
      assert forall r :: r in roots <==> r == roots[0] || r in roots[1..];
    }
  }

  lemma SweptAwayIsCovered(roots: seq<string>, k: string, name: string)
    requires IsName(name) && SweptAway(roots, k)
    ensures Covered(k + "/" + name, roots)
  {
    var r :| r in roots && DropSlash(r) != "" && Contains(DropSlash(r), k);
    var c := k + "/" + name;
    assert Below(k, c);
    assert Below(DropSlash(r), c) by {
      if DropSlash(r) != k {
        BelowTransitive(DropSlash(r), k, c);
      }
    }
    assert c[|c| - 1] == name[|name| - 1] != '/';
    CoveredExists(c, roots);
    assert CoveredBy(c, r);
  }

  /** A name longer than all roots. */
  function LongName(roots: seq<string>): (name: string)
    ensures IsName(name) && forall r :: r in roots ==> |r| < |name|
  {
    if roots == [] then "x"
    else
      var rest := LongName(roots[1..]);
      assert forall r :: r in roots <==> r == roots[0] || r in roots[1..];
      rest + seq(|roots[0]|, _ => 'x')
  }

  /** If no root contains the cache root, a long enough name is covered by none of them. */
  lemma LongNameIsUncovered(roots: seq<string>, k: string)
    requires !SweptAway(roots, k)
    ensures !Covered(k + "/" + LongName(roots), roots)
  {
    var name := LongName(roots);
    var c := k + "/" + name;
    assert c[|c| - 1] == name[|name| - 1] != '/';
    CoveredExists(c, roots);
    forall r | r in roots
      ensures !CoveredBy(c, r)
    {
      AboveChildIsAbove(DropSlash(r), k, name);
    }
  }

  lemma AboveChildIsAbove(r: string, k: string, name: string)
    requires '/' !in name
    ensures Below(r, k + "/" + name) ==> Contains(r, k)
  {
    var c := k + "/" + name;
    assert forall i :: |k| < i < |c| ==> c[i] == name[i - |k| - 1];
    if r + "/" <= c {
      assert c[|r|] == (r + "/")[|r|] == '/';
      assert c[..|r| + 1] == r + "/";
      if |r| < |k| {
        assert c[..|r| + 1] == k[..|r| + 1];
      } else {
        assert c[..|r|] == k && c[..|r|] == r;
      }
    }
  }

  lemma SweepPrints(spec: ScanSpec, k: string, name: string, cwd: string)
    requires k in spec.cacheRoots && k != "" && IsName(name)
    requires !Covered(k + "/" + name, SectionRoots(spec))
    ensures CacheEntry(spec, k + "/" + name)
    ensures Directory(k + "/" + name, cwd) == Directory(k, cwd) + [name]
  {
    ChildPrinted(k, name, cwd);
  }

  lemma WitnessDoubleCounts(spec: ScanSpec, c: string, r: string, q: string, cwd: string)
    requires CacheEntry(spec, c) && SectionEntry(spec, r, q) && Nested(Directory(c, cwd), Directory(q, cwd))
    ensures DoubleCounts(spec, cwd)
  {
  }

  lemma NestedInside(a: seq<string>, b: seq<string>, steps: seq<string>)
    requires a <= b
    ensures Nested(a, b + steps)
  {
    assert b <= b + steps;
  }

  /** Any section prints a visible name, or two. */
  function AnySteps(spec: ScanSpec, r: string): (steps: seq<string>)
    requires r in SectionRoots(spec)
    ensures CanPrint(spec, r, steps)
  {
    if r in spec.cloneDirs + spec.logRoots then ["x"] else ["x", "x"]
  }

  lemma RootBelowIsDoubleCounted(spec: ScanSpec, k: string, r: string, name: string, cwd: string)
    requires k in spec.cacheRoots && k != "" && r in SectionRoots(spec) && r != "" && IsName(name)
    requires Directory(k, cwd) + [name] <= Directory(r, cwd)
    requires !Covered(k + "/" + name, SectionRoots(spec))
    ensures DoubleCounts(spec, cwd)
  {
    SweepPrints(spec, k, name, cwd);
    var steps := AnySteps(spec, r);
    var q := SectionPrints(spec, r, steps, cwd);
    NestedInside(Directory(k + "/" + name, cwd), Directory(r, cwd), steps);
    WitnessDoubleCounts(spec, k + "/" + name, r, q, cwd);
  }

  /** What a section that reaches the cache root prints on the way to one of its children. */
  lemma ReachingPrints(spec: ScanSpec, r: string, between: seq<string>, name: string) returns (steps: seq<string>)
    requires Reaches(spec, r, between) && IsName(name)
    ensures CanPrint(spec, r, steps) && Nested(between + [name], steps)
  {
    var path := between + [name];
    if r in spec.cloneDirs + spec.logRoots && (between == [] || IsName(between[0])) {
      steps := path[..1];
    } else if |path| == 1 {
      steps := [name, "x"];
    } else {
      steps := path[..2];
    }
  }

  lemma NestedBelow(at: seq<string>, a: seq<string>, b: seq<string>)
    requires Nested(a, b)
    ensures Nested(at + a, at + b)
  {
    if a <= b {
      assert at + b == at + a + b[|a|..];
    } else {
      assert at + a == at + b + a[|b|..];
    }
  }

  lemma NestedOnTheWay(dr: seq<string>, dk: seq<string>, name: string, steps: seq<string>)
    requires dr <= dk && Nested(dk[|dr|..] + [name], steps)
    ensures Nested(dk + [name], dr + steps)
  {
    NestedBelow(dr, dk[|dr|..] + [name], steps);
    assert dr + (dk[|dr|..] + [name]) == dk + [name];
  }

  lemma RootAboveIsDoubleCounted(spec: ScanSpec, k: string, r: string, cwd: string)
    requires k in spec.cacheRoots && k != "" && r in SectionRoots(spec) && r != ""
    requires Directory(r, cwd) <= Directory(k, cwd)
    requires Reaches(spec, r, Directory(k, cwd)[|Directory(r, cwd)|..])
    requires !SweptAway(SectionRoots(spec), k)
    ensures DoubleCounts(spec, cwd)
  {
    var name := LongName(SectionRoots(spec));
    LongNameIsUncovered(SectionRoots(spec), k);
    SweepPrints(spec, k, name, cwd);
    var steps := ReachingPrints(spec, r, Directory(k, cwd)[|Directory(r, cwd)|..], name);
    var q := SectionPrints(spec, r, steps, cwd);
    NestedOnTheWay(Directory(r, cwd), Directory(k, cwd), name, steps);
    WitnessDoubleCounts(spec, k + "/" + name, r, q, cwd);
  }

  lemma UnprotectedIsDoubleCounted(spec: ScanSpec, k: string, r: string, cwd: string)
    requires k in spec.cacheRoots && k != "" && r in SectionRoots(spec) && r != ""
    requires !Protected(spec, k, r, cwd)
    ensures DoubleCounts(spec, cwd)
  {
    var dk, dr := Directory(k, cwd), Directory(r, cwd);
    if dk < dr {
      assert dr[..|dk| + 1] == dk + [dr[|dk|]];
      RootBelowIsDoubleCounted(spec, k, r, dr[|dk|], cwd);
    } else {
      RootAboveIsDoubleCounted(spec, k, r, cwd);
    }
  }

  /** A child of one directory nests with something inside another only if the other is at or above
      the first, or at or below the child. */
  lemma NestingCases(dk: seq<string>, name: string, dr: seq<string>, steps: seq<string>)
    requires steps != [] && Nested(dk + [name], dr + steps)
    ensures dr <= dk || (dk < dr && dr[|dk|] == name)
  {
    var dc, dq := dk + [name], dr + steps;
    assert dc <= dq ==> dq[..|dc|] == dc;
    assert dq[..|dr|] == dr;
    if |dr| <= |dk| {
      assert dc[..|dr|] == dr;
      assert dk[..|dr|] == dr;
    } else {
      assert dr[..|dc|] == dc;
    }
  }

  /** What is printed under a root above the cache root and nests with a child of it goes towards it. */
  lemma NestingReaches(spec: ScanSpec, r: string, dr: seq<string>, between: seq<string>, name: string, steps: seq<string>)
    requires CanPrint(spec, r, steps) && Nested(dr + between + [name], dr + steps)
    ensures Reaches(spec, r, between)
  {
    var path := between + [name];
    assert dr + between + [name] == dr + path;
    forall i | 0 <= i < |between| && i < |steps|
      ensures between[i] == steps[i]
    {
      assert (dr + path)[|dr| + i] == (dr + steps)[|dr| + i];
    }
  }

  lemma ProtectedIsApart(spec: ScanSpec, k: string, c: string, r: string, q: string, cwd: string)
    requires IsChild(k, c) && SectionEntry(spec, r, q) && Protected(spec, k, r, cwd)
    ensures Nested(Directory(c, cwd), Directory(q, cwd)) ==> Covered(c, SectionRoots(spec))
  {
    var name, dk, dr := c[|k| + 1..], Directory(k, cwd), Directory(r, cwd);
    assert c == k + "/" + name;
    DirectoryOfChild(k, name, cwd);
    var steps := PrintedIsBelow(spec, r, q, cwd);
    if Nested(Directory(c, cwd), Directory(q, cwd)) {
      NestingCases(dk, name, dr, steps);
      if dr <= dk {
        assert dr + dk[|dr|..] == dk;
        NestingReaches(spec, r, dr, dk[|dr|..], name, steps);
        SweptAwayIsCovered(SectionRoots(spec), k, name);
      }
    }
  }

  /** Exactly when the sweep cannot print a directory that another section prints, nor one above or
      below it, whatever is on the disk: when every section root is protected. */
  lemma SweepIsDisjointExactly(spec: ScanSpec, cwd: string)
    ensures !DoubleCounts(spec, cwd) <==>
              forall k, r :: k in spec.cacheRoots && k != "" && r in SectionRoots(spec) && r != "" ==>
                Protected(spec, k, r, cwd)
  {
    if k, r :|
      && k in spec.cacheRoots && k != "" && r in SectionRoots(spec) && r != ""
      && !Protected(spec, k, r, cwd)
    {
      UnprotectedIsDoubleCounted(spec, k, r, cwd);
    } else {
      forall c, r, q | CacheEntry(spec, c) && SectionEntry(spec, r, q)
        ensures !Nested(Directory(c, cwd), Directory(q, cwd))
      {
        var k :| k in spec.cacheRoots && IsChild(k, c);
        var steps := PrintedIsBelow(spec, r, q, cwd);
        assert r in SectionRoots(spec);
        ProtectedIsApart(spec, k, c, r, q, cwd);
      }
    }
  }

  // ----- Roots in normal form -----

  /** Absolute and all steps down, but for one trailing slash. */
  predicate NormalRoot(r: string) {
    NormalPath(DropSlash(r))
  }

  lemma DropSlashKeepsDirectory(r: string, cwd: string)
    requires NormalRoot(r)
    ensures Directory(r, cwd) == Segments(DropSlash(r)) && DropSlash(r) != ""
  {
    var d := DropSlash(r);
    assert r == d || r == d + "/";
    assert r[0] == d[0];
    if r == d + "/" {
      assert r == d + "/" + "";
      SegmentsConcat(d, "");
      WalkOne(Segments(d), "");
    }
  }

  lemma NormalRootIsProtected(spec: ScanSpec, k: string, r: string, cwd: string)
    requires r in SectionRoots(spec) && NormalRoot(r) && NormalPath(k)
    ensures Protected(spec, k, r, cwd)
  {
    var dk, dr := Directory(k, cwd), Directory(r, cwd);
    DropSlashKeepsDirectory(r, cwd);
    if dr <= dk {
      DirectoryAboveIsPrefix(DropSlash(r), k);
    }
    if dk < dr {
      DirectoryIsOfNames(r, cwd);
      assert dr[..|dk| + 1] == dk + [dr[|dk|]];
      NormalRootShows(SectionRoots(spec), k, r, dr[|dk|]);
    }
  }

  /** A root in normal form is seen from the child of a normal path that it lies at or below. */
  lemma NormalRootShows(roots: seq<string>, k: string, r: string, name: string)
    requires r in roots && NormalRoot(r) && NormalPath(k) && IsDirName(name)
    requires Segments(k) + [name] <= Segments(DropSlash(r))
    ensures Covered(k + "/" + name, roots)
  {
    var c := k + "/" + name;
    OneMoreStep(k, name);
    ChildIsNormal(k, name);
    DirectoryAboveIsPrefix(c, DropSlash(r));
    assert c[|c| - 1] == name[|name| - 1] != '/';
    CoveredExists(c, roots);
    assert CoveredBy(c, r);
  }

  lemma ChildIsNormal(k: string, name: string)
    requires NormalPath(k) && IsDirName(name)
    ensures NormalPath(k + "/" + name)
  {
    SplitConcat(k, '/', name);
    SplitNoSep(name, '/');
  }

  /** A normal text for a list of names. */
  function TextOf(names: seq<string>): string {
    if names == [] then "" else TextOf(names[..|names| - 1]) + "/" + Last(names)
  }

  lemma {:induction false} TextIsNormal(names: seq<string>)
    requires names != [] && forall i :: 0 <= i < |names| ==> IsDirName(names[i])
    ensures NormalPath(TextOf(names)) && Segments(TextOf(names)) == names
  {
    var init, name := names[..|names| - 1], Last(names);
    assert names == init + [name];
    OneMoreStep(TextOf(init), name);
    if init == [] {
      WalkOne([], "");
      OneStepIsNormal(name);
    } else {
      TextIsNormal(init);
      ChildIsNormal(TextOf(init), name);
    }
  }

  lemma OneStepIsNormal(name: string)
    requires IsDirName(name)
    ensures NormalPath("" + "/" + name)
  {
    SplitConcat("", '/', name);
    SplitNoSep(name, '/');
  }

  /** A text that starts a normal path up to a slash, or is one, is itself in normal form. */
  lemma AboveNormalIsNormal(p: string, k: string)
    requires p != "" && NormalPath(k) && Contains(p, k)
    ensures NormalPath(p)
  {
    if p != k {
      var rest := k[|p| + 1..];
      assert k == p + "/" + rest;
      SplitConcat(p, '/', rest);
      assert Split(k, '/') == Split(p, '/') + Split(rest, '/');
      assert forall i :: 0 <= i < |Split(p, '/')| ==> Split(k, '/')[i] == Split(p, '/')[i];
      assert k[0] == p[0];
    }
  }

  /** By its text alone the root of a section is protected against every cache root in normal form if
      and only if it is in normal form itself, but for one trailing slash. */
  lemma NormalRootsExactly(spec: ScanSpec, r: string, cwd: string)
    requires SectionRoots(spec) == [r]
    ensures NormalRoot(r) <==> forall k :: NormalPath(k) ==> Protected(spec, k, r, cwd)
  {
    if NormalRoot(r) {
      forall k | NormalPath(k)
        ensures Protected(spec, k, r, cwd)
      {
        NormalRootIsProtected(spec, k, r, cwd);
      }
    } else {
      var dr := Directory(r, cwd);
      DirectoryIsOfNames(r, cwd);
      var k := TextOf(dr + ["x"]);
      TextIsNormal(dr + ["x"]);
      var dk := Directory(k, cwd);
      assert dr <= dk && dk[|dr|..] == ["x"];
      assert r in SectionRoots(spec);
      assert Reaches(spec, r, ["x"]);
      if SweptAway([r], k) {
        AboveNormalIsNormal(DropSlash(r), k);
      }
      assert !Protected(spec, k, r, cwd);
    }
  }

  /** A configuration whose roots are all in normal form where the shell sees them has no double
      counting. */
  lemma NormalConfigurationIsClean(spec: ScanSpec, cwd: string)
    requires forall r :: r in SectionRoots(spec) ==> NormalRoot(r)
    requires forall k :: k in spec.cacheRoots ==> NormalPath(k)
    ensures !DoubleCounts(spec, cwd)
  {
    forall k, r | k in spec.cacheRoots && k != "" && r in SectionRoots(spec) && r != ""
      ensures Protected(spec, k, r, cwd)
    {
      NormalRootIsProtected(spec, k, r, cwd);
    }
    SweepIsDisjointExactly(spec, cwd);
  }

  /** Between paths in normal form the covering test is exact: a path is covered if and only if its directory
      is, contains or lies in that of some root. */
  lemma CoveredIsNestedExactly(c: string, roots: seq<string>)
    requires NormalPath(c) && forall r :: r in roots ==> NormalRoot(r)
    ensures Covered(c, roots) <==> exists r :: r in roots && Nested(Segments(c), Segments(DropSlash(r)))
  {
    CoveredExists(c, roots);
    CleanHasNoTrailingSlash(c);
    assert DropSlash(c) == c;
    forall r | r in roots
      ensures CoveredBy(c, r) <==> Nested(Segments(c), Segments(DropSlash(r)))
    {
      assert NormalRoot(r);
      PrefixIsDirectoryAbove(c, DropSlash(r));
      PrefixIsDirectoryAbove(DropSlash(r), c);
    }
  }

  // ----- Configurations that double-count -----

  lemma LoneRoot(dir: string)
    requires dir != "" && dir[|dir| - 1] != '/'
    ensures RootsFrom([dir]) == [dir]
  {
    assert [dir][..0] == [];
  }

  /** The roots of a configuration with one clone dir and no stacks. */
  lemma ExpandedLoneSpec(dir: string, home: string)
    requires RootsFrom([dir]) == [dir]
    ensures var spec := Expanded(SpecFor([dir], [], "hpc"), home);
            && SectionRoots(spec) == [Expand(dir, home), home + DEFAULT_LOG_ROOT[1..]]
            && spec.cacheRoots == [home + DEFAULT_CACHE_ROOT[1..]]
  {
  }

  /** Two texts that differ at some place cover each other in no way. */
  lemma DifferentTexts(c: string, r: string, i: nat)
    requires i < |c| && i < |r| && c[i] != r[i]
    requires c[|c| - 1] != '/' && r[|r| - 1] != '/'
    ensures !CoveredBy(c, r)
  {
  }

  /** The sweep prints the directory of the only clone root if neither its text nor the log root shows it. */
  lemma MissedRootIsDoubleCounted(spec: ScanSpec, k: string, r: string, name: string, log: string, i: nat, cwd: string)
    requires spec.cacheRoots == [k] && k != "" && SectionRoots(spec) == [r, k + "/" + log] && r != ""
    requires IsName(name) && log != "" && log[0] != name[0] && log[|log| - 1] != '/' && r[|r| - 1] != '/'
    requires i < |k + "/" + name| && i < |r| && (k + "/" + name)[i] != r[i]
    requires Directory(r, cwd) == Directory(k, cwd) + [name]
    ensures DoubleCounts(spec, cwd)
  {
    var c, other := k + "/" + name, k + "/" + log;
    assert c[|c| - 1] == name[|name| - 1] && other[|other| - 1] == log[|log| - 1];
    assert c[|k| + 1] == name[0] && other[|k| + 1] == log[0];
    DifferentTexts(c, r, i);
    DifferentTexts(c, other, |k| + 1);
    CoveredExists(c, [r, other]);
    RootBelowIsDoubleCounted(spec, k, r, name, cwd);
  }

  /** A clone dir with an empty segment or `.` inside, under any home directory: the sweep prints it,
      and the clones section what is in it. */
  lemma QuietSegmentIsDoubleCounted(home: string, s: string, cwd: string)
    requires "/" <= home && (s == "" || s == ".")
    ensures DoubleCounts(Expanded(SpecFor(["~/" + s + "/.cache/scripthut/clones"], [], "hpc"), home), cwd)
  {
    var spec := Expanded(SpecFor(["~/" + s + "/.cache/scripthut/clones"], [], "hpc"), home);
    QuietRoots(home, s);
    QuietRootIsMissed(spec, home, s, ".cache/scripthut", "clones", "logs", cwd);
  }

  lemma QuietRoots(home: string, s: string)
    requires s == "" || s == "."
    ensures var spec := Expanded(SpecFor(["~/" + s + "/.cache/scripthut/clones"], [], "hpc"), home);
            var k := home + "/" + ".cache/scripthut";
            && SectionRoots(spec) == [home + "/" + s + "/" + ".cache/scripthut" + "/" + "clones", k + "/" + "logs"]
            && spec.cacheRoots == [k]
  {
    var dir := "~/" + s + "/.cache/scripthut/clones";
    QuietTexts(home, s, dir);
    LoneRoot(dir);
    ExpandedLoneSpec(dir, home);
    DefaultTexts(home);
  }

  lemma QuietTexts(home: string, s: string, dir: string)
    requires dir == "~/" + s + "/.cache/scripthut/clones"
    ensures dir != "" && dir[|dir| - 1] == 's'
    ensures Expand(dir, home) == home + "/" + s + "/" + ".cache/scripthut" + "/" + "clones"
  {
    ClonesText();
    assert dir == "~" + ("/" + s + "/" + ".cache/scripthut" + "/" + "clones");
    assert dir[1..] == "/" + s + "/" + ".cache/scripthut" + "/" + "clones";
    assert home + ("/" + s + "/" + ".cache/scripthut" + "/" + "clones") == home + "/" + s + "/" + ".cache/scripthut" + "/" + "clones";
  }

  lemma ClonesText()
    ensures "/.cache/scripthut/clones" == "/" + ".cache/scripthut" + "/" + "clones"
  {
  }

  lemma DefaultTexts(home: string)
    ensures home + DEFAULT_CACHE_ROOT[1..] == home + "/" + ".cache/scripthut"
    ensures home + DEFAULT_LOG_ROOT[1..] == home + "/" + ".cache/scripthut" + "/" + "logs"
  {
    assert DEFAULT_CACHE_ROOT[1..] == "/" + ".cache/scripthut";
    assert DEFAULT_LOG_ROOT[1..] == "/" + ".cache/scripthut" + "/" + "logs";
  }

  lemma QuietRootIsMissed(
    spec: ScanSpec, home: string, s: string, sub: string, name: string, log: string, cwd: string)
    requires "/" <= home && (s == "" || s == ".") && IsName(name)
    requires |sub| >= 2 && sub[0] != '/' && sub[1] != '/'
    requires log != "" && log[0] != name[0] && log[|log| - 1] != '/'
    requires spec.cacheRoots == [home + "/" + sub]
    requires SectionRoots(spec) == [home + "/" + s + "/" + sub + "/" + name, home + "/" + sub + "/" + log]
    ensures DoubleCounts(spec, cwd)
  {
    var k, q := home + "/" + sub, home + "/" + s + "/" + sub;
    var r, c, n := q + "/" + name, k + "/" + name, |home|;
    QuietSegment(home, s, sub);
    assert k[0] == home[0] == q[0];
    DirectoryOfChild(q, name, cwd);
    assert r[|r| - 1] == name[|name| - 1];
    assert c[n + 1] == sub[0] && c[n + 2] == sub[1];
    assert s == "" ==> r[n + 1] == '/';
    assert s == "." ==> r[n + 2] == '/';
    MissedRootIsDoubleCounted(spec, k, r, name, log, if s == "" then n + 1 else n + 2, cwd);
  }

  /** Where the home directory is given with a trailing slash, as is "/" itself, a clone dir that is
      configured as an absolute path, with the same directory as the default one, is double-counted. */
  lemma SlashedHomeIsDoubleCounted(above: string, cwd: string)
    requires "/" <= above + "/"
    ensures DoubleCounts(Expanded(SpecFor([above + "/.cache/scripthut/clones"], [], "hpc"), above + "/"), cwd)
  {
    var spec := Expanded(SpecFor([above + "/.cache/scripthut/clones"], [], "hpc"), above + "/");
    SlashedRoots(above);
    SlashedRootIsMissed(spec, above, ".cache/scripthut", "clones", "logs", cwd);
  }

  lemma SlashedRoots(above: string)
    requires "/" <= above + "/"
    ensures var spec := Expanded(SpecFor([above + "/.cache/scripthut/clones"], [], "hpc"), above + "/");
            var k := above + "/" + "/" + ".cache/scripthut";
            && SectionRoots(spec) == [above + "/" + ".cache/scripthut" + "/" + "clones", k + "/" + "logs"]
            && spec.cacheRoots == [k]
  {
    var dir := above + "/.cache/scripthut/clones";
    SlashedTexts(above, dir);
    LoneRoot(dir);
    ExpandedLoneSpec(dir, above + "/");
    DefaultTexts(above + "/");
  }

  lemma SlashedTexts(above: string, dir: string)
    requires "/" <= above + "/" && dir == above + "/.cache/scripthut/clones"
    ensures dir != "" && dir[|dir| - 1] == 's'
    ensures forall home :: Expand(dir, home) == above + "/" + ".cache/scripthut" + "/" + "clones"
  {
    ClonesText();
    assert dir == above + "/" + ".cache/scripthut" + "/" + "clones";
    assert dir[0] == (above + "/")[0] == "/"[0];
  }

  lemma SlashedRootIsMissed(spec: ScanSpec, above: string, sub: string, name: string, log: string, cwd: string)
    requires "/" <= above + "/" && IsName(name) && sub != "" && sub[0] != '/'
    requires log != "" && log[0] != name[0] && log[|log| - 1] != '/'
    requires spec.cacheRoots == [above + "/" + "/" + sub]
    requires SectionRoots(spec) == [above + "/" + sub + "/" + name, above + "/" + "/" + sub + "/" + log]
    ensures DoubleCounts(spec, cwd)
  {
    var k, q := above + "/" + "/" + sub, above + "/" + sub;
    var r, n := q + "/" + name, |above|;
    QuietSegment(above, "", sub);
    assert above + "/" + "" + "/" + sub == k;
    assert k[0] == (above + "/")[0] == q[0];
    DirectoryOfChild(q, name, cwd);
    assert r[|r| - 1] == name[|name| - 1] && r[n + 1] == sub[0] && (k + "/" + name)[n + 1] == '/';
    MissedRootIsDoubleCounted(spec, k, r, name, log, n + 1, cwd);
  }
}
