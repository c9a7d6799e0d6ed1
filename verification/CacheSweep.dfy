/** The cache sweep reports what no other section reports. */
module CacheSweep {
  import opened Text
  import opened RemotePaths
  import opened DiskModel

  /** `${s%/}` */
  function DropSlash(s: string): string {
    if s != [] && s[|s| - 1] == '/' then s[..|s| - 1] else s
  }

  predicate CoveredBy(c: string, root: string) {
    var r := DropSlash(root);
    r != "" && (Contains(r, DropSlash(c)) || Below(DropSlash(c), r))
  }

  /** `_sh_covered`: the path is a root scanned elsewhere, inside one, or contains one. */
  predicate Covered(c: string, roots: seq<string>) {
    roots != [] && (CoveredBy(c, roots[0]) || Covered(c, roots[1..]))
  }

  lemma {:induction false} CoveredByOne(c: string, roots: seq<string>, root: string)
    requires root in roots && CoveredBy(c, root)
    ensures Covered(c, roots)
  {
    if roots[0] != root {
      CoveredByOne(c, roots[1..], root);
    }
  }

  function SectionRoots(spec: ScanSpec): seq<string> {
    spec.cloneDirs + spec.stackDirs + spec.logRoots
  }

  /** A name the shell's `*` can expand to; names that start with a dot are hidden from it. */
  predicate IsName(s: string) {
    s != "" && '/' !in s && s[0] != '.'
  }

  /** What a section prints for one of its roots: `d/name`, or `d/name/hash` in the stacks section. */
  predicate SectionEntry(spec: ScanSpec, root: string, q: string) {
    || (root in spec.cloneDirs + spec.logRoots && IsChild(root, q))
    || (root in spec.stackDirs && IsGrandchild(root, q))
  }

  predicate IsChild(root: string, q: string) {
    root != "" && Below(root, q) && IsName(q[|root| + 1..])
  }

  predicate IsGrandchild(root: string, q: string) {
    && root != "" && Below(root, q)
    && |Split(q[|root| + 1..], '/')| == 2
    && IsName(Split(q[|root| + 1..], '/')[0]) && IsName(Split(q[|root| + 1..], '/')[1])
  }

  /** What the cache sweep prints: a child of a cache root that is not covered. */
  predicate CacheEntry(spec: ScanSpec, c: string) {
    && (exists k :: k in spec.cacheRoots && IsChild(k, c))
    && !Covered(c, SectionRoots(spec))
  }

  /** Counting both would count some bytes twice. */
  predicate Overlap(a: string, b: string) {
    Contains(a, b) || Contains(b, a)
  }

  /** `scan_cache` on one root, given what its `*` expands to. */
  method ScanCache(root: string, names: seq<string>, roots: seq<string>) returns (emitted: seq<string>)
    ensures forall e :: e in emitted <==> exists i :: 0 <= i < |names| && e == root + "/" + names[i] && !Covered(e, roots)
    ensures |emitted| <= |names|
  {
    emitted := [];
    for i := 0 to |names|
      invariant |emitted| <= i
      invariant forall e :: e in emitted <==> exists j :: 0 <= j < i && e == root + "/" + names[j] && !Covered(e, roots)
    {
      var e := root + "/" + names[i];
      var covered := IsCovered(e, roots);
      if covered {
        continue;
      }
      emitted := emitted + [e];
    }
  }

  /** `_sh_covered` */
  method IsCovered(path: string, roots: seq<string>) returns (covered: bool)
    ensures covered == Covered(path, roots)
  {
    var c := DropSlash(path);
    for i := 0 to |roots|
      invariant Covered(path, roots) == Covered(path, roots[i..])
    {
      var r := DropSlash(roots[i]);
      if r == "" {
        continue;
      }
      if Contains(r, c) {
        return true;
      }
      if Below(c, r) {
        return true;
      }
    }
    return false;
  }

  /** A path not covered by a root overlaps nothing that is printed under that root. */
  lemma UncoveredIsDisjoint(c: string, root: string, q: string)
    requires DropSlash(c) == c && c != ""
    requires DropSlash(root) != ""
    requires Below(root, q)
    requires !CoveredBy(c, root)
    ensures !Overlap(c, q)
  {
    var r := DropSlash(root);
    assert Below(r, q) by {
      assert r + "/" <= root + "/";
    }
    if Contains(c, q) || Contains(q, c) {
      if Contains(c, q) {
        NestedOrEqual(r, c, q);
      } else if c != q {
        BelowTransitive(r, q, c);
      }
    }
  }

  lemma NestedOrEqual(r: string, c: string, q: string)
    requires Below(r, q) && Contains(c, q)
    ensures Contains(r, c) || Below(c, r)
  {
    AncestorsAreNested(r, c, q);
  }

  /** The covering test protects a section root, against every path, exactly when that root is
      not the file-system root. */
  lemma CoveringIsSoundExactly(root: string)
    requires root != ""
    ensures root != "/" <==>
      forall c, q :: DropSlash(c) == c && c != "" && Below(root, q) && !CoveredBy(c, root) ==> !Overlap(c, q)
  {
    if root == "/" {
      var c := "//x";
      assert DropSlash(c) == c && Below(root, c) && !CoveredBy(c, root) && Overlap(c, c);
    } else {
      assert DropSlash(root) != "" by {
        if |root| == 1 { assert root == [root[0]]; }
      }
      forall c, q | DropSlash(c) == c && c != "" && Below(root, q) && !CoveredBy(c, root)
        ensures !Overlap(c, q)
      {
        UncoveredIsDisjoint(c, root, q);
      }
    }
  }

  /** The cache sweep never double-counts: for every configuration whose clone, stack and log
      roots do not include "/", nothing it prints is equal to, above, or below anything those
      sections print. */
  lemma CacheNeverDoubleCounts(spec: ScanSpec, c: string, root: string, q: string)
    requires CacheEntry(spec, c)
    requires SectionEntry(spec, root, q)
    requires "/" !in SectionRoots(spec)
    ensures !Overlap(c, q)
  {
    assert root in SectionRoots(spec);
    var k :| k in spec.cacheRoots && IsChild(k, c);
    assert c[|c| - 1] == c[|k| + 1..][|c| - |k| - 2];
    assert DropSlash(root) != "" by {
      if |root| == 1 { assert root == [root[0]]; }
    }
    if CoveredBy(c, root) {
      CoveredByOne(c, SectionRoots(spec), root);
    }
    UncoveredIsDisjoint(c, root, q);
  }
}
