/** Remote paths: normalization, textual containment, and the naming patterns of clone
    directories and agent workspaces. */
module RemotePaths {
  import opened Wrappers
  import opened Lists
  import opened Text

  /** A leading `~` replaced by a known home. */
  function AtHome(path: string, home: Option<string>): string {
    if home.Some? && home.value != [] then
      var h := RStripSlash(home.value);
      if path == "~" then h
      else if "~/" <= path then h + path[1..]
      else path
    else path
  }

  /** `normalize_remote_path`: resolve a leading `~` against a known home and drop trailing slashes. */
  function Normalize(path: string, home: Option<string>): (r: string)
    ensures r != []
  {
    var r := RStripSlash(AtHome(Strip(path), home));
    if r == [] then "/" else r
  }

  function NormalizeAll(paths: seq<string>, home: Option<string>): (r: seq<string>)
    ensures |r| == |paths|
    ensures forall i :: 0 <= i < |r| ==> r[i] == Normalize(paths[i], home)
  {
    seq(|paths|, i requires 0 <= i < |paths| => Normalize(paths[i], home))
  }

  /** `d` lies strictly below directory `p`. */
  predicate Below(p: string, d: string) {
    p + "/" <= d
  }

  /** Removing `p` recursively removes `d`. */
  predicate Contains(p: string, d: string) {
    d == p || Below(p, d)
  }

  predicate IsHex(c: char) {
    '0' <= c <= '9' || 'a' <= c <= 'f'
  }

  predicate HexRun(s: string, from: nat, n: nat) {
    from + n <= |s| && forall i :: from <= i < from + n ==> IsHex(s[i])
  }

  /** The end anchor of the two patterns also matches just before one final newline. */
  predicate EndsAt(s: string, n: nat) {
    |s| == n || (|s| == n + 1 && s[n] == '\n')
  }

  /** `CLONE_HASH_RE`: twelve lower-case hex digits. */
  predicate IsCloneName(s: string) {
    EndsAt(s, 12) && HexRun(s, 0, 12)
  }

  /** `AGENT_DIR_RE`: `agent-` and eight lower-case hex digits. */
  predicate IsAgentName(s: string) {
    EndsAt(s, 14) && "agent-" <= s && HexRun(s, 6, 8)
  }

  lemma NamesAreExclusive(s: string)
    requires IsAgentName(s)
    ensures !IsCloneName(s)
  {
    assert s[1] == "agent-"[1];
  }

  /** `_first_component_under`: the first segment of `path` below `parent`. */
  function FirstComponentUnder(path: string, parent: string): Option<string> {
    if path == parent || !Below(parent, path) then None
    else Some(Split(path[|parent| + 1..], '/')[0])
  }

  /** `path.rsplit("/", 1)[-1]` */
  function BaseName(path: string): string {
    Last(Split(path, '/'))
  }

  lemma BaseNameOfChild(root: string, name: string)
    requires '/' !in name
    ensures BaseName(root + "/" + name) == name
  {
    SplitConcat(root, '/', name);
    SplitNoSep(name, '/');
  }

  lemma BelowTransitive(a: string, b: string, c: string)
    requires Below(a, b) && Below(b, c)
    ensures Below(a, c)
  {
    assert b <= c;
  }

  /** Two directories above the same path are nested one way or the other. */
  lemma AncestorsAreNested(a: string, b: string, d: string)
    requires Below(a, d) && Contains(b, d)
    ensures Below(a, b) || Contains(b, a)
  {
    if |a| + 1 <= |b| {
      assert b <= d;
      assert a + "/" <= b;
    } else {
      assert |b| <= |a|;
      assert b <= d && a <= d;
      assert b == d[..|b|] && a == d[..|a|];
      if |a| == |b| {
        assert a == b;
      } else {
        assert b != d;
        assert Below(b, d);
        assert d[|b|] == (b + "/")[|b|];
        assert a[..|b| + 1] == b + "/";
      }
    }
  }

  /** Whatever lies inside `root/name` has `name` as its first component under `root`. */
  lemma FirstComponentInside(root: string, name: string, d: string)
    requires '/' !in name
    requires Contains(root + "/" + name, d)
    ensures FirstComponentUnder(d, root) == Some(name)
  {
    var p := root + "/" + name;
    assert p <= d;
    assert p[..|root| + 1] == root + "/";
    assert d[..|root| + 1] == p[..|root| + 1];
    var tail := d[|root| + 1..];
    SplitNoSep(name, '/');
    if d == p {
      assert tail == name;
    } else {
      assert d == p + "/" + d[|p| + 1..];
      assert tail == name + ['/'] + d[|p| + 1..];
      SplitConcat(name, '/', d[|p| + 1..]);
    }
  }
}
