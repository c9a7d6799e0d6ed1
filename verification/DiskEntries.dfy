/** The mutable scan entries, and their classification in place. */
module DiskEntries {
  import opened Wrappers
  import opened RemotePaths
  import opened DiskModel
  import opened Classify
  import opened Text

  class DiskEntry {
    const path: string
    const kind: Kind
    const size: Option<int>
    const mtime: Option<int>
    const ready: Option<bool>
    var classification: Class
    var runIds: set<string>
    var detail: Option<string>

    function View(): Entry
      reads this
    {
      Entry(path, kind, size, mtime, classification, runIds, detail, ready)
    }

    constructor (e: Entry)
      ensures View() == e
    {
      path, kind, size, mtime, ready := e.path, e.kind, e.size, e.mtime, e.ready;
      classification, runIds, detail := e.class_, e.runIds, e.detail;
    }

    /** `_apply_refs` */
    method ApplyRefs(refs: Refs, ids: set<string>)
      modifies this
      ensures View() == WithRefs(old(View()), refs, ids)
    {
      if ids != {} {
        runIds := ids;
        classification := if ids * refs.active != {} then Active else Referenced;
      } else {
        classification := Orphaned;
      }
    }

    /** `_classify_stack` */
    method ClassifyStack(hashes: StackHashes)
      modifies this
      ensures View() == WithStackState(old(View()), hashes)
    {
      if ready == Some(false) {
        classification := Orphaned;
        return;
      }
      var parts := Split(path, '/');
      var name, hash := "", "";
      if |parts| >= 2 {
        name, hash := parts[|parts| - 2], parts[|parts| - 1];
      }
      if hashes.None? {
        classification := Referenced;
      } else if name !in hashes.value {
        classification := Orphaned;
        detail := Some(detail.GetOr("") + " (unconfigured)");
      } else if hash !in hashes.value[name] {
        classification := Referenced;
        detail := Some(detail.GetOr("") + " (superseded)");
      } else {
        classification := Referenced;
      }
    }

    method ClassifyOne(refs: Refs, hashes: StackHashes)
      modifies this
      ensures View() == Classified(old(View()), refs, hashes)
    {
      match kind
      case Clone => ApplyRefs(refs, Ids(refs, CloneRef(BaseName(path))));
      case Agent => ApplyRefs(refs, Ids(refs, AgentRef(path)));
      case Log =>
        var ids := LogHolders(path, refs);
        assert ids == Holders(View(), refs);
        ApplyRefs(refs, ids);
      case Stack => ClassifyStack(hashes);
      case Other => classification := Unknown;
    }
  }

  /** The runs whose log dir is the given path or lies below it. */
  method LogHolders(path: string, refs: Refs) returns (ids: set<string>)
    ensures ids == set dir, id | dir in refs.logs && Contains(path, dir) && id in refs.logs[dir] :: id
  {
    ids := {};
    var todo := refs.logs.Keys;
    while todo != {}
      invariant todo <= refs.logs.Keys
      invariant ids == set dir, id | dir in refs.logs && dir !in todo && Contains(path, dir) && id in refs.logs[dir] :: id
      decreases todo
    {
      var dir :| dir in todo;
      todo := todo - {dir};
      if Contains(path, dir) {
        ids := ids + refs.logs[dir];
      }
    }
  }

  function Views(entries: seq<DiskEntry>): (r: seq<Entry>)
    reads entries
    ensures |r| == |entries| && forall i :: 0 <= i < |r| ==> r[i] == entries[i].View()
  {
    seq(|entries|, i requires 0 <= i < |entries| reads entries => entries[i].View())
  }

  ghost predicate Distinct(entries: seq<DiskEntry>) {
    forall i, j :: 0 <= i < j < |entries| ==> entries[i] != entries[j]
  }

  /** `classify_entries`: every entry is classified in place, independently of the others. */
  method ClassifyEntries(entries: seq<DiskEntry>, refs: Refs, hashes: StackHashes)
    requires Distinct(entries)
    modifies entries
    ensures forall i :: 0 <= i < |entries| ==> entries[i].View() == Classified(old(entries[i].View()), refs, hashes)
  {
    for k := 0 to |entries|
      invariant forall i :: 0 <= i < k ==> entries[i].View() == Classified(old(entries[i].View()), refs, hashes)
      invariant forall i :: k <= i < |entries| ==> entries[i].View() == old(entries[i].View())
    {
      entries[k].ClassifyOne(refs, hashes);
    }
  }
}
