/** A scan of a backend as a whole, from what the remote script printed to classified entries. */
module ScanService {
  import opened Wrappers
  import opened RemotePaths
  import opened DiskModel
  import opened Classify
  import opened DiskEntries
  import opened Cleanup
  import opened Scan

  datatype ScanResult = ScanResult(
    home: Option<string>, df: Option<(int, int)>, entries: seq<DiskEntry>, errors: seq<string>)

  /** The references a scan classifies under: those of the runs known then, at the home it found. */
  ghost predicate ScanRefs(refs: Refs, runs: seq<Run>, backend: string, cloneDirs: seq<string>, home: Option<string>) {
    ExactRefs(refs, runs, backend, NormalizeAll(cloneDirs, home), home)
  }

  lemma ClassificationAnnotates(e: Entry, refs: Refs, hashes: StackHashes)
    ensures SameScannedEntry(Classified(e, refs, hashes), e)
  {
  }

  lemma FreshAgrees(r: RawEntry, refs: Refs, hashes: StackHashes)
    ensures var e := Classified(RawToEntry(r), refs, hashes);
            DeletableKind(e.kind) ==> FreshClassified(e, refs, hashes) == e
  {
    var e := Classified(RawToEntry(r), refs, hashes);
    ClassificationAnnotates(RawToEntry(r), refs, hashes);
    ReclassificationIsIdempotent(r, e, refs, hashes);
  }

  /** `scan_backend` once the script has printed its output: an entry for every raw one, classified
      under the runs known now, and just as a plan made right away would classify it. */
  method ScanBackend(stdout: string, runs: seq<Run>, backend: string, cloneDirs: seq<string>, hashes: StackHashes)
    returns (result: Option<ScanResult>, ghost refs: Refs)
    ensures result.None? <==> Outcome(SplitLines(stdout)).None?
    ensures result.Some? ==>
              var parsed := Outcome(SplitLines(stdout)).value;
              && result.value.home == parsed.home && result.value.df == parsed.df && result.value.errors == parsed.errors
              && ScanRefs(refs, runs, backend, cloneDirs, parsed.home)
              && |result.value.entries| == |parsed.raw| && fresh(result.value.entries) && Distinct(result.value.entries)
              && (forall i :: 0 <= i < |parsed.raw| ==>
                    result.value.entries[i].View() == Classified(RawToEntry(parsed.raw[i]), refs, hashes))
              && (forall i :: 0 <= i < |parsed.raw| && DeletableKind(result.value.entries[i].kind) ==>
                    FreshClassified(result.value.entries[i].View(), refs, hashes) == result.value.entries[i].View())
  {
    refs := NO_REFS;
    var outcome := ParseScanOutput(stdout);
    if outcome.None? {
      return None, refs;
    }
    var parsed := outcome.value;
    var objects := RawToEntries(parsed.raw);
    var known := BuildRunReferences(runs, backend, cloneDirs, parsed.home);
    refs := known;
    ClassifyEntries(objects, known, hashes);
    forall i | 0 <= i < |parsed.raw| && DeletableKind(objects[i].kind)
      ensures FreshClassified(objects[i].View(), refs, hashes) == objects[i].View()
    {
      FreshAgrees(parsed.raw[i], refs, hashes);
    }
    return Some(ScanResult(parsed.home, parsed.df, objects, parsed.errors)), refs;
  }
}
