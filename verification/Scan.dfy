/** The parser of the scan's output, and the kinds of what it found. */
module Scan {
  import opened Wrappers
  import opened Lists
  import opened Text
  import opened RemotePaths
  import opened DiskModel
  import opened Classify
  import opened DiskEntries
  import opened Cleanup

  // ----- Lines -----

  /** The characters at which `splitlines()` ends a line. */
  predicate IsLineBreak(c: char) {
    || '\n' <= c <= '\r'
    || '\U{1c}' <= c <= '\U{1e}'
    || c == '\U{85}' || c == '\U{2028}' || c == '\U{2029}'
  }

  function LineLength(s: string): (n: nat)
    ensures n <= |s| && (n < |s| ==> IsLineBreak(s[n]))
    ensures forall i :: 0 <= i < n ==> !IsLineBreak(s[i])
  {
    if s == [] || IsLineBreak(s[0]) then 0 else 1 + LineLength(s[1..])
  }

  /** `text.splitlines()` */
  function SplitLines(s: string): seq<string> {
    if s == [] then []
    else
      var n := LineLength(s);
      if n == |s| then [s]
      else
        var skip := if s[n] == '\r' && n + 1 < |s| && s[n + 1] == '\n' then 2 else 1;
        [s[..n]] + SplitLines(s[n + skip..])
  }

  predicate OneLine(s: string) {
    forall i :: 0 <= i < |s| ==> !IsLineBreak(s[i])
  }

  /** The script's output: every line ended by a newline. */
  function Unlines(lines: seq<string>): string {
    if lines == [] then [] else lines[0] + "\n" + Unlines(lines[1..])
  }

  lemma LineLengthIs(line: string, rest: string)
    requires OneLine(line)
    ensures LineLength(line + "\n" + rest) == |line|
  {
    var s := line + "\n" + rest;
    assert s[|line|] == '\n';
    assert forall i :: 0 <= i < |line| ==> s[i] == line[i];
  }

  lemma FirstLineSplitsOff(line: string, rest: string)
    requires OneLine(line)
    ensures SplitLines(line + "\n" + rest) == [line] + SplitLines(rest)
  {
    var s := line + "\n" + rest;
    LineLengthIs(line, rest);
    assert s[..|line|] == line;
    assert s[|line| + 1..] == rest;
  }

  lemma {:induction false} SplitLinesUnlines(lines: seq<string>)
    requires forall i :: 0 <= i < |lines| ==> OneLine(lines[i])
    ensures SplitLines(Unlines(lines)) == lines
  {
    if lines != [] {
      FirstLineSplitsOff(lines[0], Unlines(lines[1..]));
      SplitLinesUnlines(lines[1..]);
    }
  }

  // ----- The parser -----

  datatype RawEntry = RawEntry(section: string, path: string, mtime: Option<int>, size: Option<int>, ready: Option<bool>)

  /** `errors` holds the offending lines. */
  datatype Parsed = Parsed(home: Option<string>, raw: seq<RawEntry>, df: Option<(int, int)>, errors: seq<string>)

  const NOTHING_PARSED := Parsed(None, [], None, [])

  /** The last second of the year 9999, past which no timestamp can be represented. */
  const MAX_TIMESTAMP := 253402300799

  function ParseTime(text: string): Option<int> {
    var ts := ParseInt(text);
    if ts.Some? && 0 < ts.value <= MAX_TIMESTAMP then ts else None
  }

  /** From 2^63 seconds on the conversion raises an OverflowError, which the parser does not catch. */
  const TIME_LIMIT := 0x8000_0000_0000_0000

  function ParseSize(text: string): Option<int> {
    if text == "-" then None
    else
      match ParseInt(text)
      case Some(kib) => Some(kib * 1024)
      case None => None
  }

  function StripPath(path: string): string {
    if RStripSlash(path) == [] then "/" else RStripSlash(path)
  }

  /** `_parse_entry` on the tab-separated fields of an ENTRY line. */
  function ParseEntry(fields: seq<string>): Option<RawEntry> {
    var section := if |fields| > 1 then fields[1] else "";
    if section == "stacks" && |fields| == 6 then
      Some(RawEntry(section, StripPath(fields[2]), ParseTime(fields[3]), ParseSize(fields[4]), Some(fields[5] == "1")))
    else if section in ["clones", "logs", "cache"] && |fields| == 5 then
      Some(RawEntry(section, StripPath(fields[2]), ParseTime(fields[3]), ParseSize(fields[4]), None))
    else
      None
  }

  function ParseLine(acc: Parsed, line: string): Parsed {
    if Strip(line) == "" then acc
    else
      var fields := Split(line, '\t');
      var tag := fields[0];
      if tag == "HOME" && |fields| == 2 then
        acc.(home := if fields[1] == "" then None else Some(fields[1]))
      else if tag == "DF" && |fields| == 3 then
        var total, avail := ParseInt(fields[1]), ParseInt(fields[2]);
        if total.Some? && avail.Some? then acc.(df := Some((total.value * 1024, avail.value * 1024)))
        else acc.(errors := acc.errors + [line])
      else if (tag == "SECTION" || tag == "MISSING") && |fields| == 3 then acc
      else if tag == "ENTRY" then
        match ParseEntry(fields)
        case Some(e) => acc.(raw := acc.raw + [e])
        case None => acc.(errors := acc.errors + [line])
      else acc.(errors := acc.errors + [line])
  }

  function ParseLines(lines: seq<string>): Parsed {
    Fold(NOTHING_PARSED, lines, ParseLine)
  }

  /** An ENTRY line of the right shape whose time is out of range. */
  predicate RaisingLine(line: string) {
    var fields := Split(line, '\t');
    && Strip(line) != "" && fields[0] == "ENTRY" && ParseEntry(fields).Some?
    && ParseInt(fields[3]).Some? && ParseInt(fields[3]).value >= TIME_LIMIT
  }

  predicate AnyRaising(lines: seq<string>) {
    Any(lines, RaisingLine)
  }

  /** The outcome for the lines of an output; None stands for the OverflowError. */
  function Outcome(lines: seq<string>): Option<Parsed> {
    if AnyRaising(lines) then None else Some(ParseLines(lines))
  }

  /** `parse_scan_output` */
  method ParseScanOutput(stdout: string) returns (outcome: Option<Parsed>)
    ensures outcome == Outcome(SplitLines(stdout))
  {
    var lines := SplitLines(stdout);
    var raised, acc := ReadLines(lines);
    outcome := if raised then None else Some(acc);
  }

  /** The loop over the lines, left at the first one that raises. */
  method ReadLines(lines: seq<string>) returns (raised: bool, acc: Parsed)
    ensures raised <==> AnyRaising(lines)
    ensures !raised ==> acc == ParseLines(lines)
  {
    acc := NOTHING_PARSED;
    for i := 0 to |lines|
      invariant acc == ParseLines(lines[..i])
      invariant !AnyRaising(lines[..i])
    {
      assert lines[..i + 1][..i] == lines[..i];
      AnySoFar(lines, i, RaisingLine);
      raised := RaisingLine(lines[i]);
      if raised {
        return;
      }
      acc := ReadLine(acc, lines[i]);
    }
    assert lines[..|lines|] == lines;
    raised := false;
  }

  /** The loop body, for a line that does not raise. */
  method ReadLine(acc: Parsed, line: string) returns (after: Parsed)
    ensures after == ParseLine(acc, line)
  {
    after := acc;
    if Strip(line) == "" {
      return;
    }
    var fields := Split(line, '\t');
    var tag := fields[0];
    if tag == "HOME" && |fields| == 2 {
      after := after.(home := if fields[1] == "" then None else Some(fields[1]));
    } else if tag == "DF" && |fields| == 3 {
      var total, avail := ParseInt(fields[1]), ParseInt(fields[2]);
      if total.Some? && avail.Some? {
        after := after.(df := Some((total.value * 1024, avail.value * 1024)));
      } else {
        after := after.(errors := after.errors + [line]);
      }
    } else if (tag == "SECTION" || tag == "MISSING") && |fields| == 3 {
    } else if tag == "ENTRY" {
      var entry := ParseEntry(fields);
      if entry.None? {
        after := after.(errors := after.errors + [line]);
      } else {
        after := after.(raw := after.raw + [entry.value]);
      }
    } else {
      after := after.(errors := after.errors + [line]);
    }
  }

  // ----- Kinds by naming pattern -----

  function RawToEntry(r: RawEntry): Entry {
    var parts := Split(r.path, '/');
    var basename := Last(parts);
    var kind :=
      if r.section == "stacks" then Stack
      else if r.section == "logs" then Log
      else if r.section == "cache" then Other
      else if IsCloneName(basename) then Clone
      else if IsAgentName(basename) then Agent
      else Other;
    var detail :=
      if r.section == "stacks" then Some(StackDetail(parts) + if r.ready == Some(false) then " (half-built)" else "")
      else if r.section == "logs" || r.section == "cache" then Some(basename)
      else None;
    Entry(r.path, kind, r.size, r.mtime, Unknown, {}, detail, r.ready)
  }

  /** `raw_to_entries`: a new entry object for each raw entry. */
  method RawToEntries(raw: seq<RawEntry>) returns (entries: seq<DiskEntry>)
    ensures |entries| == |raw| && fresh(entries) && Distinct(entries)
    ensures forall i :: 0 <= i < |raw| ==> entries[i].View() == RawToEntry(raw[i])
  {
    entries := [];
    for i := 0 to |raw|
      invariant |entries| == i && fresh(entries) && Distinct(entries)
      invariant forall j :: 0 <= j < i ==> entries[j].View() == RawToEntry(raw[j])
    {
      var entry := new DiskEntry(RawToEntry(raw[i]));
      entries := entries + [entry];
    }
  }

  /** The scanner and the planner agree on what has a kind: a child of a root gets the kind that its
      section and name call for, and the last check on a deletion accepts its name for that kind;
      what it accepts as a clone or workspace in a clone section is never left without a kind. */
  lemma ScannedKindsFitTheLastCheck(r: RawEntry, root: string, name: string)
    requires '/' !in name && r.path == root + "/" + name
    requires r.section in ["clones", "stacks", "logs", "cache"]
    ensures var kind := RawToEntry(r).kind;
            && (kind == Stack <==> r.section == "stacks")
            && (kind == Log <==> r.section == "logs")
            && (kind == Clone || kind == Agent || kind == Log ==> ChildIssue(kind, [name]).None?)
            && (r.section == "clones" ==>
                  && (kind == Clone <==> ChildIssue(Clone, [name]).None?)
                  && (kind == Agent <==> ChildIssue(Agent, [name]).None?))
            && (r.section == "cache" ==> !DeletableKind(kind))
  {
    BaseNameOfChild(root, name);
    if IsAgentName(name) {
      NamesAreExclusive(name);
    }
  }

  /** A scanned entry as the classifier may have left it: annotated, with classes and run ids. */
  predicate SameScannedEntry(e: Entry, scanned: Entry) {
    e == scanned.(class_ := e.class_, runIds := e.runIds, detail := e.detail)
  }

  /** Planning on a cached entry classifies it just as a first classification of the raw entry
      would, whatever annotations it carries, exactly when it is not a cache-sweep entry; those
      lose their name, and no other entry does. */
  lemma ReclassificationIsIdempotent(r: RawEntry, e: Entry, refs: Refs, hashes: StackHashes)
    requires SameScannedEntry(e, RawToEntry(r))
    ensures FreshClassified(e, refs, hashes) == Classified(RawToEntry(r), refs, hashes) <==> r.section != "cache"
    ensures DeletableKind(e.kind) ==> r.section != "cache"
  {
    var copy := Fresh(e);
    if r.section != "cache" {
      assert copy == RawToEntry(r);
    } else {
      assert Classified(RawToEntry(r), refs, hashes).detail.Some?;
    }
  }
}
