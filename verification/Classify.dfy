/** Which remote directories the known runs point at, and how a scanned entry relates to them. */
module Classify {
  import opened Wrappers
  import opened Text
  import opened RemotePaths
  import opened DiskModel

  // ----- What one run refers to -----

  /** What a path below a clone root stands for; the first root above the path decides. */
  datatype Child = NoChild | CloneChild(hash: string) | AgentChild(dir: string) | OtherChild

  function ChildOf(path: string, roots: seq<string>): Child {
    if roots == [] then NoChild
    else
      match FirstComponentUnder(path, roots[0])
      case None => ChildOf(path, roots[1..])
      case Some(first) =>
        if IsCloneName(first) then CloneChild(first)
        else if IsAgentName(first) then AgentChild(roots[0] + "/" + first)
        else OtherChild
  }

  /** The three kinds of thing a run can refer to. */
  datatype Ref = CloneRef(hash: string) | AgentRef(dir: string) | LogRef(dir: string)

  predicate PathRefers(path: string, ref: Ref, roots: seq<string>) {
    match ref
    case CloneRef(h) => ChildOf(path, roots) == CloneChild(h)
    case AgentRef(d) => ChildOf(path, roots) == AgentChild(d)
    case LogRef(_) => false
  }

  predicate CommitRefers(run: Run, ref: Ref) {
    && ref.CloneRef?
    && run.commitHash.Some? && run.commitHash.value != []
    && ref.hash == Prefix(run.commitHash.value, 12)
  }

  predicate LogRefers(run: Run, ref: Ref, home: Option<string>) {
    ref.LogRef? && run.HasLogDir() && ref.dir == Normalize(run.logDir, home)
  }

  /** The references of a run: its commit hash, its log dir, and the clone-root child each of
      its paths lies in. */
  predicate Refers(run: Run, ref: Ref, roots: seq<string>, home: Option<string>) {
    || CommitRefers(run, ref)
    || LogRefers(run, ref, home)
    || PathsRefer(RunPaths(run, home), ref, roots)
  }

  predicate PathsRefer(paths: seq<string>, ref: Ref, roots: seq<string>) {
    exists i :: 0 <= i < |paths| && PathRefers(paths[i], ref, roots)
  }

  lemma PathsReferSnoc(paths: seq<string>, path: string, ref: Ref, roots: seq<string>)
    ensures PathsRefer(paths + [path], ref, roots) <==> PathsRefer(paths, ref, roots) || PathRefers(path, ref, roots)
  {
    assert (paths + [path])[|paths|] == path;
    if PathsRefer(paths, ref, roots) {
      var i :| 0 <= i < |paths| && PathRefers(paths[i], ref, roots);
      assert (paths + [path])[i] == paths[i];
    }
  }

  lemma PathsReferOneMore(paths: seq<string>, i: nat, roots: seq<string>)
    requires i < |paths|
    ensures forall ref :: PathsRefer(paths[..i + 1], ref, roots) <==>
              PathsRefer(paths[..i], ref, roots) || PathRefers(paths[i], ref, roots)
  {
    assert paths[..i + 1] == paths[..i] + [paths[i]];
    forall ref { PathsReferSnoc(paths[..i], paths[i], ref, roots); }
  }

  lemma RunPathsRefer(run: Run, roots: seq<string>, home: Option<string>)
    ensures forall ref :: PathsRefer(RunPaths(run, home), ref, roots) <==>
              || PathsRefer(NormalizeAll(run.workingDirs, home), ref, roots)
              || (run.HasLogDir() && PathRefers(Normalize(run.logDir, home), ref, roots))
  {
    var dirs := NormalizeAll(run.workingDirs, home);
    if run.HasLogDir() {
      forall ref { PathsReferSnoc(dirs, Normalize(run.logDir, home), ref, roots); }
    } else {
      assert RunPaths(run, home) == dirs;
    }
  }

  function Prefix(s: string, n: nat): string {
    if |s| <= n then s else s[..n]
  }

  // ----- The reference tables of all runs -----

  datatype Refs = Refs(
    clones: map<string, set<string>>,
    agents: map<string, set<string>>,
    logs: map<string, set<string>>,
    active: set<string>)

  const NO_REFS := Refs(map[], map[], map[], {})

  function Lookup(t: map<string, set<string>>, key: string): set<string> {
    if key in t then t[key] else {}
  }

  /** The ids of the runs recorded for one reference. */
  function Ids(refs: Refs, ref: Ref): set<string> {
    match ref
    case CloneRef(h) => Lookup(refs.clones, h)
    case AgentRef(d) => Lookup(refs.agents, d)
    case LogRef(d) => Lookup(refs.logs, d)
  }

  /** `table.setdefault(key, set()).add(id)` on the table the reference belongs to. */
  function Note(refs: Refs, ref: Ref, id: string): (r: Refs)
    ensures r.active == refs.active
    ensures forall other :: Ids(r, other) == Ids(refs, other) + if other == ref then {id} else {}
  {
    match ref
    case CloneRef(h) => refs.(clones := refs.clones[h := Lookup(refs.clones, h) + {id}])
    case AgentRef(d) => refs.(agents := refs.agents[d := Lookup(refs.agents, d) + {id}])
    case LogRef(d) => refs.(logs := refs.logs[d := Lookup(refs.logs, d) + {id}])
  }

  /** Some known run of the backend with this id makes the reference. */
  ghost predicate Referrer(runs: seq<Run>, backend: string, id: string, ref: Ref, roots: seq<string>, home: Option<string>) {
    exists r :: r in runs && r.backend == backend && r.id == id && Refers(r, ref, roots, home)
  }

  ghost predicate ActiveId(runs: seq<Run>, backend: string, id: string) {
    exists r :: r in runs && r.backend == backend && r.id == id && r.IsActive()
  }

  /** The tables hold exactly the references of the backend's runs, in whatever order those came. */
  ghost predicate ExactRefs(refs: Refs, runs: seq<Run>, backend: string, roots: seq<string>, home: Option<string>) {
    && (forall ref, id :: id in Ids(refs, ref) <==> Referrer(runs, backend, id, ref, roots, home))
    && (forall id :: id in refs.active <==> ActiveId(runs, backend, id))
  }

  /** `note_clone_child`: the first clone root above the path decides, whatever it finds there. */
  method NoteCloneChild(refs: Refs, path: string, runId: string, roots: seq<string>) returns (r: Refs)
    ensures r.active == refs.active
    ensures forall ref, id :: id in Ids(r, ref) <==>
              id in Ids(refs, ref) || (id == runId && PathRefers(path, ref, roots))
  {
    for i := 0 to |roots|
      invariant ChildOf(path, roots) == ChildOf(path, roots[i..])
    {
      var first := FirstComponentUnder(path, roots[i]);
      if first.Some? {
        if IsCloneName(first.value) {
          return Note(refs, CloneRef(first.value), runId);
        } else if IsAgentName(first.value) {
          return Note(refs, AgentRef(roots[i] + "/" + first.value), runId);
        }
        return refs;
      }
    }
    return refs;
  }

  /** The inner loop, over the working dirs of a run. */
  method NoteWorkingDirs(refs: Refs, run: Run, roots: seq<string>, home: Option<string>) returns (r: Refs)
    ensures r.active == refs.active
    ensures forall ref, id :: id in Ids(r, ref) <==>
              id in Ids(refs, ref) || (id == run.id && PathsRefer(NormalizeAll(run.workingDirs, home), ref, roots))
  {
    r := refs;
    ghost var dirs := NormalizeAll(run.workingDirs, home);
    for i := 0 to |run.workingDirs|
      invariant r.active == refs.active
      invariant forall ref, id :: id in Ids(r, ref) <==>
                  id in Ids(refs, ref) || (id == run.id && PathsRefer(dirs[..i], ref, roots))
    {
      r := NoteCloneChild(r, Normalize(run.workingDirs[i], home), run.id, roots);
      PathsReferOneMore(dirs, i, roots);
    }
    assert dirs[..|run.workingDirs|] == dirs;
  }

  /** The body of the loop over runs, for one run of the backend. */
  method NoteRun(refs: Refs, run: Run, roots: seq<string>, home: Option<string>) returns (r: Refs)
    ensures r.active == refs.active + if run.IsActive() then {run.id} else {}
    ensures forall ref, id :: id in Ids(r, ref) <==>
              id in Ids(refs, ref) || (id == run.id && Refers(run, ref, roots, home))
  {
    r := refs;
    if run.IsActive() {
      r := r.(active := r.active + {run.id});
    }
    assert forall ref :: Ids(r, ref) == Ids(refs, ref);
    if run.commitHash.Some? && run.commitHash.value != [] {
      r := Note(r, CloneRef(Prefix(run.commitHash.value, 12)), run.id);
    }
    r := NoteWorkingDirs(r, run, roots, home);
    RunPathsRefer(run, roots, home);
    if run.HasLogDir() {
      var ld := Normalize(run.logDir, home);
      r := Note(r, LogRef(ld), run.id);
      r := NoteCloneChild(r, ld, run.id, roots);
    }
  }

  /** `build_run_references` */
  method BuildRunReferences(runs: seq<Run>, backend: string, cloneDirs: seq<string>, home: Option<string>)
    returns (refs: Refs)
    ensures ExactRefs(refs, runs, backend, NormalizeAll(cloneDirs, home), home)
  {
    refs := NO_REFS;
    var roots := NormalizeAll(cloneDirs, home);
    for i := 0 to |runs|
      invariant ExactRefs(refs, runs[..i], backend, roots, home)
    {
      ghost var before := refs;
      if runs[i].backend == backend {
        refs := NoteRun(refs, runs[i], roots, home);
      }
      ExactRefsStep(before, refs, runs, i, backend, roots, home);
    }
    assert runs[..|runs|] == runs;
  }

  lemma ExactRefsStep(
    before: Refs, after: Refs, runs: seq<Run>, i: nat, backend: string, roots: seq<string>, home: Option<string>)
    requires i < |runs|
    requires ExactRefs(before, runs[..i], backend, roots, home)
    requires runs[i].backend != backend ==> after == before
    requires runs[i].backend == backend ==>
               && after.active == before.active + (if runs[i].IsActive() then {runs[i].id} else {})
               && forall ref, id :: id in Ids(after, ref) <==>
                    id in Ids(before, ref) || (id == runs[i].id && Refers(runs[i], ref, roots, home))
    ensures ExactRefs(after, runs[..i + 1], backend, roots, home)
  {
    assert runs[..i + 1] == runs[..i] + [runs[i]];
    forall ref, id
      ensures id in Ids(after, ref) <==> Referrer(runs[..i + 1], backend, id, ref, roots, home)
    {
      assert Referrer(runs[..i + 1], backend, id, ref, roots, home) <==>
        || Referrer(runs[..i], backend, id, ref, roots, home)
        || (runs[i].backend == backend && runs[i].id == id && Refers(runs[i], ref, roots, home));
    }
    forall id
      ensures id in after.active <==> ActiveId(runs[..i + 1], backend, id)
    {
      assert ActiveId(runs[..i + 1], backend, id) <==>
        || ActiveId(runs[..i], backend, id)
        || (runs[i].backend == backend && runs[i].id == id && runs[i].IsActive());
    }
  }

  // ----- Classifying an entry -----

  /** Valid content hashes by declared stack name; None when they are not known. */
  type StackHashes = Option<map<string, set<string>>>

  /** The runs that hold an entry: by clone hash, by workspace path, or by a log dir inside it. */
  function Holders(e: Entry, refs: Refs): set<string> {
    match e.kind
    case Clone => Ids(refs, CloneRef(BaseName(e.path)))
    case Agent => Ids(refs, AgentRef(e.path))
    case Log => set dir, id | dir in refs.logs && Contains(e.path, dir) && id in refs.logs[dir] :: id
    case _ => {}
  }

  /** `_apply_refs`; an orphaned entry keeps whatever run ids it had. */
  function WithRefs(e: Entry, refs: Refs, ids: set<string>): Entry {
    if ids != {} then e.(runIds := ids, class_ := if ids * refs.active != {} then Active else Referenced)
    else e.(class_ := Orphaned)
  }

  /** `_classify_stack` */
  function WithStackState(e: Entry, hashes: StackHashes): Entry {
    if e.ready == Some(false) then e.(class_ := Orphaned)
    else
      var parts := Split(e.path, '/');
      var name := if |parts| >= 2 then parts[|parts| - 2] else "";
      var hash := if |parts| >= 2 then parts[|parts| - 1] else "";
      if hashes.None? then e.(class_ := Referenced)
      else if name !in hashes.value then
        e.(class_ := Orphaned, detail := Some(e.detail.GetOr("") + " (unconfigured)"))
      else if hash !in hashes.value[name] then
        e.(class_ := Referenced, detail := Some(e.detail.GetOr("") + " (superseded)"))
      else e.(class_ := Referenced)
  }

  /** What `classify_entries` makes of one entry. */
  function Classified(e: Entry, refs: Refs, hashes: StackHashes): Entry {
    match e.kind
    case Stack => WithStackState(e, hashes)
    case Other => e.(class_ := Unknown)
    case _ => WithRefs(e, refs, Holders(e, refs))
  }
}
