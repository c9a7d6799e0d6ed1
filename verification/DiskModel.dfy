/** The values the disk planner works on: scanned entries, runs, references and scan roots. */
module DiskModel {
  import opened Wrappers
  import opened RemotePaths
  import opened Runs

  datatype Kind = Clone | Agent | Stack | Log | Other

  datatype Class = Active | Referenced | Orphaned | Unknown

  /** One scanned entry. `runIds` is a set: the original's list is this set, sorted for display. */
  datatype Entry = Entry(
    path: string,
    kind: Kind,
    size: Option<int>,
    mtime: Option<int>,
    class_: Class,
    runIds: set<string>,
    detail: Option<string>,
    ready: Option<bool>)

  predicate DeletableKind(k: Kind) {
    k != Other
  }

  datatype ScanSpec = ScanSpec(
    cloneDirs: seq<string>, stackDirs: seq<string>, logRoots: seq<string>, cacheRoots: seq<string>)

  /** What the planner reads of a run. */
  datatype Run = Run(
    id: string,
    backend: string,
    status: RunStatus,
    commitHash: Option<string>,
    workingDirs: seq<string>,
    logDir: string)
  {
    predicate IsActive() {
      status.IsActive()
    }

    predicate HasLogDir() {
      logDir != [] && !("backend://" <= logDir)
    }
  }

  /** The directories a run points at: the working dir of each of its items, and its log dir. */
  function RunPaths(r: Run, home: Option<string>): seq<string> {
    NormalizeAll(r.workingDirs, home) + if r.HasLogDir() then [Normalize(r.logDir, home)] else []
  }
}
