/** Paths read as the directories they name, rather than as text. */
module Directories {
  import opened Text
  import opened RemotePaths

  /** A segment that is a step down: not empty, and neither the directory itself nor its parent. */
  predicate IsStep(s: string) {
    s != "" && s != "." && s != ".."
  }

  /** Where one segment leads from a directory; the parent of the file-system root is that root. */
  function Step(at: seq<string>, s: string): seq<string> {
    if s == "" || s == "." then at
    else if s == ".." then if at == [] then at else at[..|at| - 1]
    else at + [s]
  }

  function Walk(at: seq<string>, parts: seq<string>): seq<string>
    decreases parts
  {
    if parts == [] then at else Walk(Step(at, parts[0]), parts[1..])
  }

  /** The directory an absolute path names: the steps that lead to it from the file-system root. */
  function Segments(p: string): seq<string> {
    Walk([], Split(p, '/'))
  }

  /** Absolute, and every segment is a step down. */
  predicate NormalPath(p: string) {
    "/" <= p && forall i :: 1 <= i < |Split(p, '/')| ==> IsStep(Split(p, '/')[i])
  }

  lemma {:induction false} WalkConcat(at: seq<string>, a: seq<string>, b: seq<string>)
    ensures Walk(at, a + b) == Walk(Walk(at, a), b)
    decreases a
  {
    if a == [] {
      assert a + b == b;
    } else {
      assert (a + b)[1..] == a[1..] + b;
      WalkConcat(Step(at, a[0]), a[1..], b);
    }
  }

  lemma WalkOne(at: seq<string>, s: string)
    ensures Walk(at, [s]) == Step(at, s)
  {
    assert [s][1..] == [];
  }

  lemma {:induction false} WalkDown(at: seq<string>, parts: seq<string>)
    requires forall i :: 0 <= i < |parts| ==> IsStep(parts[i])
    ensures Walk(at, parts) == at + parts
    decreases parts
  {
    if parts == [] {
      assert at + parts == at;
    } else {
      WalkDown(at + [parts[0]], parts[1..]);
      assert at + parts == at + [parts[0]] + parts[1..];
    }
  }

  lemma NormalSegments(p: string)
    requires NormalPath(p)
    ensures Split(p, '/') == [""] + Segments(p)
  {
    var tail := Split(p[1..], '/');
    assert Split(p, '/') == [""] + tail;
    forall i | 0 <= i < |tail|
      ensures IsStep(tail[i])
    {
      assert Split(p, '/')[i + 1] == tail[i];
    }
    WalkDown([], tail);
    assert ([""] + tail)[1..] == tail;
  }

  lemma TrailingSlashSplits(p: string)
    requires p != [] && p[|p| - 1] == '/'
    ensures |Split(p, '/')| >= 2 && Split(p, '/')[|Split(p, '/')| - 1] == ""
  {
    var init := p[..|p| - 1];
    assert p == init + ['/'] + [];
    SplitConcat(init, '/', []);
  }

  lemma CleanHasNoTrailingSlash(p: string)
    requires NormalPath(p)
    requires |Split(p, '/')| >= 2
    ensures p[|p| - 1] != '/'
  {
    assert Split(p, '/')[|Split(p, '/')| - 1] != "";
    if p[|p| - 1] == '/' {
      TrailingSlashSplits(p);
    }
  }

  lemma {:induction false} JoinSplit(s: string)
    ensures Join(Split(s, '/'), '/') == s
  {
    if s != [] {
      JoinSplit(s[1..]);
      var rest := Split(s[1..], '/');
      if s[0] == '/' {
        assert ([[]] + rest)[1..] == rest;
      } else {
        assert ([[s[0]] + rest[0]] + rest[1..])[1..] == rest[1..];
      }
    }
  }

  lemma {:induction false} JoinConcat(a: seq<string>, b: seq<string>)
    requires a != [] && b != []
    ensures Join(a + b, '/') == Join(a, '/') + "/" + Join(b, '/')
  {
    assert (a + b)[1..] == a[1..] + b;
    if |a| > 1 {
      JoinConcat(a[1..], b);
    } else {
      assert a[1..] + b == b;
    }
  }

  /** Between normal paths, being a directory above and being a textual prefix are the same. */
  lemma DirectoryAboveIsPrefix(p: string, d: string)
    requires NormalPath(p) && NormalPath(d)
    requires Segments(p) <= Segments(d)
    ensures Contains(p, d)
  {
    NormalSegments(p);
    NormalSegments(d);
    JoinSplit(p);
    JoinSplit(d);
    var rest := Split(d, '/')[|Split(p, '/')|..];
    assert Split(d, '/') == Split(p, '/') + rest;
    if rest == [] {
      assert Split(d, '/') == Split(p, '/');
    } else {
      JoinConcat(Split(p, '/'), rest);
      assert d == p + "/" + Join(rest, '/');
    }
  }

  /** Between normal paths the text shows which directory lies above which. */
  lemma PrefixIsDirectoryAbove(p: string, d: string)
    requires NormalPath(p) && NormalPath(d)
    ensures Contains(p, d) <==> Segments(p) <= Segments(d)
  {
    if Contains(p, d) {
      if p != d {
        var rest := d[|p| + 1..];
        assert d == p + "/" + rest;
        NormalSegments(p);
        NormalSegments(d);
        SplitConcat(p, '/', rest);
        assert [""] + Segments(d) == [""] + (Segments(p) + Split(rest, '/'));
      }
    } else if Segments(p) <= Segments(d) {
      DirectoryAboveIsPrefix(p, d);
    }
  }

  /** Paths are walked part by part. */
  lemma SegmentsConcat(a: string, b: string)
    ensures Segments(a + "/" + b) == Walk(Segments(a), Split(b, '/'))
  {
    SplitConcat(a, '/', b);
    WalkConcat([], Split(a, '/'), Split(b, '/'));
  }

  /** An empty segment and the segment `.` lead nowhere. */
  lemma QuietSegment(a: string, s: string, b: string)
    requires s == "" || s == "."
    ensures Segments(a + "/" + s + "/" + b) == Segments(a + "/" + b)
  {
    SegmentsConcat(a + "/" + s, b);
    SegmentsConcat(a, s);
    SegmentsConcat(a, b);
    SplitNoSep(s, '/');
    WalkOne(Segments(a), s);
  }

  lemma {:induction false} WalkIsOfSteps(at: seq<string>, parts: seq<string>)
    requires forall i :: 0 <= i < |parts| ==> '/' !in parts[i]
    requires forall i :: 0 <= i < |at| ==> IsStep(at[i]) && '/' !in at[i]
    ensures forall i :: 0 <= i < |Walk(at, parts)| ==> IsStep(Walk(at, parts)[i]) && '/' !in Walk(at, parts)[i]
    decreases parts
  {
    if parts != [] {
      WalkIsOfSteps(Step(at, parts[0]), parts[1..]);
    }
  }

  /** A step below a path. */
  lemma OneMoreStep(p: string, name: string)
    requires IsStep(name) && '/' !in name
    ensures Segments(p + "/" + name) == Segments(p) + [name]
  {
    SegmentsConcat(p, name);
    SplitNoSep(name, '/');
    WalkOne(Segments(p), name);
  }
}
