/** The line protocol read back: what the script prints is what the parser returns, in any order. */
module ScanProtocol {
  import opened Wrappers
  import opened Lists
  import opened Text
  import opened Scan

  datatype Section = Clones | Stacks | Logs | Cache {
    function Name(): string {
      match this
      case Clones => "clones"
      case Stacks => "stacks"
      case Logs => "logs"
      case Cache => "cache"
    }
  }

  /** One line of script output. `mtime == 0` and `kib == None` mean the script could not tell. */
  datatype Line =
    | Home(dir: string)
    | Df(total: nat, avail: nat)
    | Found(section: Section, root: string)
    | Missing(section: Section, root: string)
    | Item(section: Section, path: string, mtime: nat, kib: Option<nat>, ready: bool)

  function SizeField(kib: Option<nat>): string {
    if kib.None? then "-" else Dec(kib.value)
  }

  function Fields(l: Line): seq<string> {
    match l
    case Home(dir) => ["HOME", dir]
    case Df(total, avail) => ["DF", Dec(total), Dec(avail)]
    case Found(section, root) => ["SECTION", section.Name(), root]
    case Missing(section, root) => ["MISSING", section.Name(), root]
    case Item(section, path, mtime, kib, ready) =>
      ["ENTRY", section.Name(), path, Dec(mtime), SizeField(kib)]
      + if section.Stacks? then [if ready then "1" else "0"] else []
  }

  /** The line as the script prints it. */
  function Render(l: Line): string {
    Join(Fields(l), '\t')
  }

  /** Text that can be a field: no tab, and nothing that ends a line. */
  predicate FieldText(s: string) {
    '\t' !in s && OneLine(s)
  }

  predicate Printable(l: Line) {
    match l
    case Home(dir) => FieldText(dir)
    case Df(_, _) => true
    case Found(_, root) => FieldText(root)
    case Missing(_, root) => FieldText(root)
    case Item(_, path, _, _, _) => FieldText(path)
  }

  /** What a line means to the reader of the scan. */
  function Meaning(l: Line): Option<RawEntry> {
    match l
    case Item(section, path, mtime, kib, ready) =>
      Some(RawEntry(
        section.Name(),
        if RStripSlash(path) == "" then "/" else RStripSlash(path),
        if 0 < mtime <= MAX_TIMESTAMP then Some(mtime) else None,
        if kib.Some? then Some(kib.value * 1024) else None,
        if section.Stacks? then Some(ready) else None))
    case _ => None
  }

  function Apply(acc: Parsed, l: Line): Parsed {
    match l
    case Home(dir) => acc.(home := if dir == "" then None else Some(dir))
    case Df(total, avail) => acc.(df := Some((total * 1024, avail * 1024)))
    case Item(_, _, _, _, _) => acc.(raw := acc.raw + [Meaning(l).value])
    case _ => acc
  }

  function ApplyAll(lines: seq<Line>): Parsed {
    Fold(NOTHING_PARSED, lines, Apply)
  }

  function RenderAll(lines: seq<Line>): (r: seq<string>)
    ensures |r| == |lines| && forall i :: 0 <= i < |r| ==> r[i] == Render(lines[i])
  {
    seq(|lines|, i requires 0 <= i < |lines| => Render(lines[i]))
  }

  lemma DecIsFieldText(n: nat)
    ensures FieldText(Dec(n)) && Dec(n) != "-"
  {
    assert forall i :: 0 <= i < |Dec(n)| ==> IsDigit(Dec(n)[i]);
    assert Dec(n)[0] != '-';
  }

  lemma NameIsText(section: Section)
    ensures FieldText(section.Name())
  {
  }

  lemma TagsAreText()
    ensures FieldText("HOME") && FieldText("DF") && FieldText("SECTION") && FieldText("MISSING") && FieldText("ENTRY")
    ensures FieldText("-") && FieldText("0") && FieldText("1")
  {
  }

  lemma FieldsAreText(l: Line)
    requires Printable(l)
    ensures forall i :: 0 <= i < |Fields(l)| ==> FieldText(Fields(l)[i])
  {
    TagsAreText();
    match l
    case Home(_) =>
    case Df(total, avail) =>
      DecIsFieldText(total);
      DecIsFieldText(avail);
    case Found(section, _) => NameIsText(section);
    case Missing(section, _) => NameIsText(section);
    case Item(section, path, mtime, kib, ready) => ItemFieldsAreText(l);
  }

  lemma ItemFieldsAreText(l: Line)
    requires Printable(l) && l.Item?
    ensures forall i :: 0 <= i < |Fields(l)| ==> FieldText(Fields(l)[i])
  {
    TagsAreText();
    NameIsText(l.section);
    DecIsFieldText(l.mtime);
    SizeIsText(l.kib);
    var flag := if l.ready then "1" else "0";
    var shared := ["ENTRY", l.section.Name(), l.path, Dec(l.mtime), SizeField(l.kib)];
    assert forall i :: 0 <= i < |shared| ==> FieldText(shared[i]);
    assert Fields(l) == shared + if l.section.Stacks? then [flag] else [];
  }

  lemma SizeIsText(kib: Option<nat>)
    ensures FieldText(SizeField(kib))
  {
    TagsAreText();
    if kib.Some? { DecIsFieldText(kib.value); }
  }

  lemma {:induction false} JoinIsOneLine(parts: seq<string>)
    requires forall i :: 0 <= i < |parts| ==> OneLine(parts[i])
    ensures OneLine(Join(parts, '\t'))
  {
    if |parts| > 1 {
      JoinIsOneLine(parts[1..]);
    }
  }

  lemma TaggedIsNotBlank(line: string)
    requires line != [] && !IsSpace(line[0])
    ensures Strip(line) != ""
  {
    StripFixesTrimmed(line);
    LStripShape(line);
    assert LStrip(line) == line;
    KeepsHead(line);
  }

  lemma {:induction false} KeepsHead(s: string)
    requires s != [] && !IsSpace(s[0])
    ensures RStrip(s) != []
  {
    if IsSpace(s[|s| - 1]) {
      KeepsHead(s[..|s| - 1]);
    }
  }

  /** Splitting a printed line gives its fields back. */
  lemma RenderedFields(l: Line)
    requires Printable(l)
    ensures Split(Render(l), '\t') == Fields(l)
    ensures OneLine(Render(l)) && Strip(Render(l)) != ""
  {
    FieldsAreText(l);
    SplitJoin(Fields(l), '\t');
    JoinIsOneLine(Fields(l));
    assert Render(l)[0] == Fields(l)[0][0];
    TaggedIsNotBlank(Render(l));
  }

  lemma ParsedSize(kib: Option<nat>)
    ensures ParseSize(SizeField(kib)) == if kib.Some? then Some(kib.value * 1024) else None
  {
    if kib.Some? {
      ParseIntDec(kib.value);
      DecIsFieldText(kib.value);
    }
  }

  lemma ParsedTime(mtime: nat)
    ensures ParseTime(Dec(mtime)) == if 0 < mtime <= MAX_TIMESTAMP then Some(mtime) else None
  {
    ParseIntDec(mtime);
  }

  lemma ParsedItem(l: Line)
    requires l.Item?
    ensures ParseEntry(Fields(l)) == Meaning(l)
  {
    ParsedTime(l.mtime);
    ParsedSize(l.kib);
    if l.section.Stacks? {
      assert |Fields(l)| == 6;
    } else {
      assert |Fields(l)| == 5;
    }
  }

  /** A time too large to be represented. */
  predicate BeyondTime(l: Line) {
    l.Item? && l.mtime >= TIME_LIMIT
  }

  /** Parsing one printed line raises just on a time beyond representation, else does what the line
      says and reports no error. */
  lemma ParseRendered(acc: Parsed, l: Line)
    requires Printable(l)
    ensures RaisingLine(Render(l)) <==> BeyondTime(l)
    ensures ParseLine(acc, Render(l)) == Apply(acc, l)
  {
    RenderedFields(l);
    if l.Item? {
      ParseIntDec(l.mtime);
    }
    match l
    case Df(total, avail) =>
      ParseIntDec(total);
      ParseIntDec(avail);
    case Item(_, _, _, _, _) => ParsedItem(l);
    case _ =>
  }

  lemma ParseAllRendered(lines: seq<Line>)
    requires forall i :: 0 <= i < |lines| ==> Printable(lines[i])
    ensures ParseLines(RenderAll(lines)) == ApplyAll(lines)
  {
    forall acc, i | 0 <= i < |lines|
      ensures ParseLine(acc, RenderAll(lines)[i]) == Apply(acc, lines[i])
    {
      ParseRendered(acc, lines[i]);
    }
    FoldTogether(NOTHING_PARSED, RenderAll(lines), ParseLine, lines, Apply);
  }

  function Meanings(lines: seq<Line>): seq<RawEntry> {
    if lines == [] then []
    else Meanings(lines[..|lines| - 1]) + if Last(lines).Item? then [Meaning(Last(lines)).value] else []
  }

  lemma {:induction false} ApplyAllRaw(lines: seq<Line>)
    ensures ApplyAll(lines).raw == Meanings(lines) && ApplyAll(lines).errors == []
  {
    if lines != [] {
      ApplyAllRaw(lines[..|lines| - 1]);
    }
  }

  /** The round trip: parsing everything the script prints succeeds exactly when all times can be
      represented, and then returns its entries, in order, with sizes in bytes and unknown values
      absent, and finds nothing to complain about. */
  lemma ScanRoundTrip(lines: seq<Line>)
    requires forall i :: 0 <= i < |lines| ==> Printable(lines[i])
    ensures var outcome := Outcome(SplitLines(Unlines(RenderAll(lines))));
            && (outcome.Some? <==> forall i :: 0 <= i < |lines| ==> !BeyondTime(lines[i]))
            && (outcome.Some? ==> outcome.value.raw == Meanings(lines) && outcome.value.errors == [])
  {
    var rendered := RenderAll(lines);
    RenderedLines(lines);
    SplitLinesUnlines(rendered);
    assert AnyRaising(rendered) <==> exists i :: 0 <= i < |lines| && BeyondTime(lines[i]);
    ParseAllRendered(lines);
    ApplyAllRaw(lines);
  }

  lemma RenderedLines(lines: seq<Line>)
    requires forall i :: 0 <= i < |lines| ==> Printable(lines[i])
    ensures var rendered := RenderAll(lines);
            forall i :: 0 <= i < |lines| ==> OneLine(rendered[i]) && (RaisingLine(rendered[i]) <==> BeyondTime(lines[i]))
  {
    forall i | 0 <= i < |lines|
      ensures OneLine(RenderAll(lines)[i]) && (RaisingLine(RenderAll(lines)[i]) <==> BeyondTime(lines[i]))
    {
      RenderedFields(lines[i]);
      ParseRendered(NOTHING_PARSED, lines[i]);
    }
  }

  // ----- Order of the lines -----

  /** What one line adds to the entries and to the errors, whatever came before. */
  function EntryOf(line: string): seq<RawEntry> {
    ParseLine(NOTHING_PARSED, line).raw
  }

  function ErrorOf(line: string): seq<string> {
    ParseLine(NOTHING_PARSED, line).errors
  }

  lemma ParseLineIsLocal(acc: Parsed, line: string)
    ensures ParseLine(acc, line).raw == acc.raw + EntryOf(line)
    ensures ParseLine(acc, line).errors == acc.errors + ErrorOf(line)
  {
  }

  lemma {:induction false} ParseLinesCollects(lines: seq<string>)
    ensures ParseLines(lines).raw == Collect(lines, EntryOf)
    ensures ParseLines(lines).errors == Collect(lines, ErrorOf)
  {
    if lines != [] {
      ParseLinesCollects(lines[..|lines| - 1]);
      ParseLineIsLocal(ParseLines(lines[..|lines| - 1]), Last(lines));
    }
  }

  /** The shapes of lines that the parser knows, by their fields. */
  predicate Understood(fields: seq<string>) {
    || (|fields| == 2 && fields[0] == "HOME")
    || (|fields| == 3 && fields[0] == "DF" && ParseInt(fields[1]).Some? && ParseInt(fields[2]).Some?)
    || (|fields| == 3 && (fields[0] == "SECTION" || fields[0] == "MISSING"))
    || (|fields| == 5 && fields[0] == "ENTRY" && (fields[1] == "clones" || fields[1] == "logs" || fields[1] == "cache"))
    || (|fields| == 6 && fields[0] == "ENTRY" && fields[1] == "stacks")
  }

  /** No line gets lost: one that is not blank is understood, or is itself reported as an error; it yields an
      entry exactly if it is an ENTRY line that is understood. */
  lemma EveryLineIsAccounted(line: string)
    ensures var fields := Split(line, '\t');
            && ErrorOf(line) == (if Strip(line) == "" || Understood(fields) then [] else [line])
            && |EntryOf(line)| == (if Strip(line) != "" && Understood(fields) && fields[0] == "ENTRY" then 1 else 0)
  {
    if Strip(line) != "" {
      if Split(line, '\t')[0] == "ENTRY" {
        EntryIsAccounted(line, Split(line, '\t'));
      } else {
        OtherIsAccounted(line, Split(line, '\t'));
      }
    }
  }

  lemma EntryIsAccounted(line: string, fields: seq<string>)
    requires Strip(line) != "" && fields == Split(line, '\t') && fields[0] == "ENTRY"
    ensures ErrorOf(line) == (if Understood(fields) then [] else [line])
    ensures |EntryOf(line)| == (if Understood(fields) then 1 else 0)
  {
    EntryIsUnderstood(fields);
  }

  lemma EntryIsUnderstood(fields: seq<string>)
    requires fields != [] && fields[0] == "ENTRY"
    ensures ParseEntry(fields).Some? <==> Understood(fields)
  {
  }

  lemma OtherIsAccounted(line: string, fields: seq<string>)
    requires Strip(line) != "" && fields == Split(line, '\t') && fields[0] != "ENTRY"
    ensures ErrorOf(line) == (if Understood(fields) then [] else [line])
    ensures EntryOf(line) == []
  {
  }

  /** What an understood ENTRY line yields, whatever its texts: its section and path as they stand, trailing
      slashes aside, and for a stack dir whether it is ready, which only "1" says. */
  lemma EntryFieldsExactly(line: string)
    requires Strip(line) != "" && Understood(Split(line, '\t')) && Split(line, '\t')[0] == "ENTRY"
    ensures |EntryOf(line)| == 1
    ensures var fields, e := Split(line, '\t'), EntryOf(line)[0];
            && e.section == fields[1]
            && e.path == (if RStripSlash(fields[2]) == "" then "/" else RStripSlash(fields[2]))
            && e.ready == if fields[1] == "stacks" then Some(fields[5] == "1") else None
  {
    EntryIsUnderstood(Split(line, '\t'));
  }

  /** A size or time that cannot be read leaves the entry without it. */
  lemma UnreadableIsUnknown(text: string)
    requires ParseInt(text).None?
    ensures ParseSize(text).None? && ParseTime(text).None?
  {
  }

  /** Any two orders of the same lines, well formed or not, raise alike and else give the same
      entries and errors. */
  lemma LineOrderIsIrrelevant(lines: seq<string>, shuffled: seq<string>)
    requires multiset(lines) == multiset(shuffled)
    ensures Outcome(lines).Some? <==> Outcome(shuffled).Some?
    ensures Outcome(lines).Some? ==>
              && multiset(Outcome(lines).value.raw) == multiset(Outcome(shuffled).value.raw)
              && multiset(Outcome(lines).value.errors) == multiset(Outcome(shuffled).value.errors)
  {
    AnyIgnoresOrder(lines, shuffled, RaisingLine);
    ParseLinesCollects(lines);
    ParseLinesCollects(shuffled);
    OrderIsIrrelevant(lines, shuffled, EntryOf);
    OrderIsIrrelevant(lines, shuffled, ErrorOf);
  }

  predicate IsEntryLine(line: string) {
    Split(line, '\t')[0] == "ENTRY"
  }

  function WithoutEntries(lines: seq<string>): seq<string> {
    if lines == [] then []
    else WithoutEntries(lines[..|lines| - 1]) + if IsEntryLine(Last(lines)) then [] else [Last(lines)]
  }

  lemma HomeAndDfStep(acc: Parsed, other: Parsed, line: string)
    requires acc.home == other.home && acc.df == other.df
    ensures ParseLine(acc, line).home == if IsEntryLine(line) then other.home else ParseLine(other, line).home
    ensures ParseLine(acc, line).df == if IsEntryLine(line) then other.df else ParseLine(other, line).df
  {
  }

  /** Home and disk figures depend only on the lines that are not entries. */
  lemma {:induction false} EntriesDoNotTouchTheRest(lines: seq<string>)
    ensures ParseLines(lines).home == ParseLines(WithoutEntries(lines)).home
    ensures ParseLines(lines).df == ParseLines(WithoutEntries(lines)).df
  {
    if lines != [] {
      var init, last := lines[..|lines| - 1], Last(lines);
      EntriesDoNotTouchTheRest(init);
      HomeAndDfStep(ParseLines(init), ParseLines(WithoutEntries(init)), last);
      var kept := WithoutEntries(lines);
      if !IsEntryLine(last) {
        assert kept == WithoutEntries(init) + [last];
        assert kept[..|kept| - 1] == WithoutEntries(init);
      } else {
        assert kept == WithoutEntries(init);
      }
    }
  }
}
