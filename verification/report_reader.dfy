/**
 A reader for the report file: it splits the file into lines, skips the
 provenance block and reads both lookup sections back. The round-trip lemmas say
 what a consumer of the report recovers from it.
 */
module ReportReader {
  import opened Text
  import opened Lookups
  import opened Report

  /** Splits a line at its first tab. */
  function SplitAtTab(line: string): (r: Option<(string, string)>)
    ensures r.None? <==> Tab !in line
    ensures r.Some? ==> Tab !in r.value.0 && line == r.value.0 + [Tab] + r.value.1
  {
    match IndexOf(line, Tab)
    case None => None
    case Some(k) =>
      assert line == line[..k] + [Tab] + line[k + 1..];
      Some((line[..k], line[k + 1..]))
  }

  /** Splits a line at its last tab. */
  function SplitAtLastTab(line: string): (r: Option<(string, string)>)
    ensures r.None? <==> Tab !in line
    ensures r.Some? ==> Tab !in r.value.1 && line == r.value.0 + [Tab] + r.value.1
  {
    match LastIndexOf(line, Tab)
    case None => None
    case Some(k) =>
      assert line == line[..k] + [Tab] + line[k + 1..];
      Some((line[..k], line[k + 1..]))
  }

  /**
   Reads a Section 1 line as a (name, index) pair. The index is the text after
   the last tab, since the name before it may itself hold tabs.
   */
  function ParseNameIndexLine(line: string): Option<(string, nat)>
  {
    match SplitAtLastTab(line)
    case None => None
    case Some((name, digits)) =>
      match ParseNat(digits)
      case None => None
      case Some(i) => Some((name, i))
  }

  /** Reads a Section 2 line as an (index, name) pair. */
  function ParseIndexNameLine(line: string): Option<(nat, string)>
  {
    match SplitAtTab(line)
    case None => None
    case Some((digits, name)) =>
      match ParseNat(digits)
      case None => None
      case Some(i) => Some((i, name))
  }

  /** Section 1 lines always read back, whatever the name holds: the index after the last tab is all digits. */
  lemma NameIndexLineRoundTrip(name: string, i: nat)
    ensures ParseNameIndexLine(LineText(NameIndex(name, i))) == Some((name, i))
  {
    NatToStringHasNo(i, Tab);
    LastIndexOfJoined(name, Tab, NatToString(i));
    NatToStringRoundTrip(i);
  }

  /** Section 2 lines always read back, whatever the name holds: the index before the tab is all digits. */
  lemma IndexNameLineRoundTrip(i: nat, name: string)
    ensures ParseIndexNameLine(LineText(IndexName(i, name))) == Some((i, name))
  {
    NatToStringHasNo(i, Tab);
    IndexOfJoined(NatToString(i), Tab, name);
    NatToStringRoundTrip(i);
  }

  /**
   Reads Section 1 from line `at` up to the blank separator, returning the
   pairs and the position just after the separator.
   */
  function ReadSection1Body(lines: seq<string>, at: nat): Option<(seq<(string, nat)>, nat)>
    decreases |lines| - at
  {
    if at >= |lines| then
      None
    else if lines[at] == [] then
      Some(([], at + 1))
    else
      match ParseNameIndexLine(lines[at])
      case None => None
      case Some(pair) =>
        match ReadSection1Body(lines, at + 1)
        case None => None
        case Some((pairs, next)) => Some(([pair] + pairs, next))
  }

  /** Reads the Section 2 lines from line `at` to the end of the report. */
  function ReadSection2Body(lines: seq<string>, at: nat): Option<seq<(nat, string)>>
    decreases |lines| - at
  {
    if at >= |lines| then
      Some([])
    else
      match ParseIndexNameLine(lines[at])
      case None => None
      case Some(pair) =>
        match ReadSection2Body(lines, at + 1)
        case None => None
        case Some(pairs) => Some([pair] + pairs)
  }

  /** Reads both sections, each after its heading, from line `at` on, back into a lookup value. */
  function ReadSections(lines: seq<string>, at: nat): Option<HeaderLookups>
  {
    if at >= |lines| || lines[at] != LineText(Heading(Section1Title)) then
      None
    else
      match ReadSection1Body(lines, at + 1)
      case None => None
      case Some((byName, next)) =>
        if next >= |lines| || lines[next] != LineText(Heading(Section2Title)) then
          None
        else
          match ReadSection2Body(lines, next + 1)
          case None => None
          case Some(byIndex) => Some(HeaderLookups(byName, byIndex))
  }

  /** Reads a `## key: value` line: the key runs from after `## ` to the first colon, which a space must follow. */
  function ParseMetaLine(line: string): Option<(string, string)>
  {
    if |line| < 3 || line[..3] != "## " then
      None
    else
      var rest := line[3..];
      match IndexOf(rest, ':')
      case None => None
      case Some(k) =>
        if k + 1 < |rest| && rest[k + 1] == ' ' then Some((rest[..k], rest[k + 2..])) else None
  }

  /** The value of a provenance line, provided the line carries the expected key. */
  function MetaValue(line: string, key: string): Option<string>
  {
    match ParseMetaLine(line)
    case None => None
    case Some((k, v)) => if k == key then Some(v) else None
  }

  /** Reads the provenance block: the six keyed lines in their fixed order, then a blank line. */
  function ReadProvenance(lines: seq<string>): Option<Provenance>
  {
    if |lines| < ProvenanceLines || lines[ProvenanceLines - 1] != [] then
      None
    else
      match (MetaValue(lines[0], ProvenanceKeys[0]), MetaValue(lines[1], ProvenanceKeys[1]),
             MetaValue(lines[2], ProvenanceKeys[2]), MetaValue(lines[3], ProvenanceKeys[3]),
             MetaValue(lines[4], ProvenanceKeys[4]), MetaValue(lines[5], ProvenanceKeys[5]))
      case (Some(a), Some(b), Some(c), Some(d), Some(e), Some(f)) => Some(Provenance(a, b, c, d, e, f))
      case _ => None
  }

  /** What a reader recovers from a report file. */
  datatype ReportContent = ReportContent(provenance: Provenance, lookups: HeaderLookups)

  /** Reads the file content of a report: the provenance block, then the two sections. */
  function ReadReport(text: string): Option<ReportContent>
  {
    var lines := SplitLines(text);
    match (ReadProvenance(lines), ReadSections(lines, ProvenanceLines))
    case (Some(p), Some(l)) => Some(ReportContent(p, l))
    case _ => None
  }

  /** The line is a Section 1 line for `name` at position `i`. */
  predicate ReadsAsNameIndex(line: string, name: string, i: nat)
  {
    line != [] && ParseNameIndexLine(line) == Some((name, i))
  }

  /** The line is a Section 2 line for `name` at position `i`. */
  predicate ReadsAsIndexName(line: string, i: nat, name: string)
  {
    ParseIndexNameLine(line) == Some((i, name))
  }

  /** From line `start` on, one Section 1 line per header in header order, then a blank line. */
  ghost predicate Section1At(lines: seq<string>, start: nat, headers: seq<string>)
  {
    && start + |headers| < |lines|
    && (forall k :: 0 <= k < |headers| ==> ReadsAsNameIndex(lines[start + k], headers[k], k))
    && lines[start + |headers|] == []
  }

  /** From line `start` to the last line, one Section 2 line per header in header order. */
  ghost predicate Section2At(lines: seq<string>, start: nat, headers: seq<string>)
  {
    && start + |headers| == |lines|
    && (forall k :: 0 <= k < |headers| ==> ReadsAsIndexName(lines[start + k], k, headers[k]))
  }

  /**
   The (name, index) pairs of the headers from position `j` on: the entries
   `j..` of `BuildLookups(headers).columnNameLookup`, built one step at a time
   as the reader consumes them. `ReadSection1All` ties the two at `j == 0`.
   */
  function NameIndexPairsFrom(headers: seq<string>, j: nat): seq<(string, nat)>
    requires j <= |headers|
    decreases |headers| - j
  {
    if j == |headers| then [] else [(headers[j], j)] + NameIndexPairsFrom(headers, j + 1)
  }

  /** From position `j` on, the pairs are the headers' (name, index) pairs. */
  lemma {:induction false} NameIndexPairsFromIndex(headers: seq<string>, j: nat)
    requires j <= |headers|
    ensures |NameIndexPairsFrom(headers, j)| == |headers| - j
    ensures forall k :: 0 <= k < |headers| - j ==> NameIndexPairsFrom(headers, j)[k] == (headers[j + k], j + k)
    decreases |headers| - j
  {
    if j < |headers| {
      var rest := NameIndexPairsFrom(headers, j + 1);
      NameIndexPairsFromIndex(headers, j + 1);
      forall k | 1 <= k < |headers| - j ensures NameIndexPairsFrom(headers, j)[k] == (headers[j + k], j + k) {
        assert NameIndexPairsFrom(headers, j)[k] == rest[k - 1];
      }
    }
  }

  /**
   The (index, name) pairs of the headers from position `j` on: the entries
   `j..` of `BuildLookups(headers).indexPositionLookup`, built one step at a
   time as the reader consumes them. `ReadSection2All` ties the two at `j == 0`.
   */
  function IndexNamePairsFrom(headers: seq<string>, j: nat): seq<(nat, string)>
    requires j <= |headers|
    decreases |headers| - j
  {
    if j == |headers| then [] else [(j, headers[j])] + IndexNamePairsFrom(headers, j + 1)
  }

  /** From position `j` on, the pairs are the headers' (index, name) pairs. */
  lemma {:induction false} IndexNamePairsFromIndex(headers: seq<string>, j: nat)
    requires j <= |headers|
    ensures |IndexNamePairsFrom(headers, j)| == |headers| - j
    ensures forall k :: 0 <= k < |headers| - j ==> IndexNamePairsFrom(headers, j)[k] == (j + k, headers[j + k])
    decreases |headers| - j
  {
    if j < |headers| {
      var rest := IndexNamePairsFrom(headers, j + 1);
      IndexNamePairsFromIndex(headers, j + 1);
      forall k | 1 <= k < |headers| - j ensures IndexNamePairsFrom(headers, j)[k] == (j + k, headers[j + k]) {
        assert IndexNamePairsFrom(headers, j)[k] == rest[k - 1];
      }
    }
  }

  /** One step of reading Section 1: a non-blank line that parses, followed by the rest of the section. */
  lemma ReadSection1Step(lines: seq<string>, at: nat, pair: (string, nat), rest: seq<(string, nat)>, next: nat)
    requires at < |lines| && lines[at] != [] && ParseNameIndexLine(lines[at]) == Some(pair)
    requires ReadSection1Body(lines, at + 1) == Some((rest, next))
    ensures ReadSection1Body(lines, at) == Some(([pair] + rest, next))
  {
  }

  /** One step of reading Section 2: a line that parses, followed by the rest of the section. */
  lemma ReadSection2Step(lines: seq<string>, at: nat, pair: (nat, string), rest: seq<(nat, string)>)
    requires at < |lines| && ParseIndexNameLine(lines[at]) == Some(pair)
    requires ReadSection2Body(lines, at + 1) == Some(rest)
    ensures ReadSection2Body(lines, at) == Some([pair] + rest)
  {
  }

  /** Reading Section 1 from its `j`-th line on yields the pairs from position `j` on and stops after the blank line. */
  lemma {:induction false} ReadSection1From(lines: seq<string>, start: nat, headers: seq<string>, j: nat)
    requires Section1At(lines, start, headers) && j <= |headers|
    ensures ReadSection1Body(lines, start + j) == Some((NameIndexPairsFrom(headers, j), start + |headers| + 1))
    decreases |headers| - j
  {
    if j < |headers| {
      assert ReadsAsNameIndex(lines[start + j], headers[j], j);
      ReadSection1From(lines, start, headers, j + 1);
      ReadSection1Step(lines, start + j, (headers[j], j), NameIndexPairsFrom(headers, j + 1), start + |headers| + 1);
    } else {
      assert lines[start + j] == [];
    }
  }

  /** Reading Section 2 from its `j`-th line on yields the pairs from position `j` on. */
  lemma {:induction false} ReadSection2From(lines: seq<string>, start: nat, headers: seq<string>, j: nat)
    requires Section2At(lines, start, headers) && j <= |headers|
    ensures ReadSection2Body(lines, start + j) == Some(IndexNamePairsFrom(headers, j))
    decreases |headers| - j
  {
    if j < |headers| {
      assert ReadsAsIndexName(lines[start + j], j, headers[j]);
      ReadSection2From(lines, start, headers, j + 1);
      ReadSection2Step(lines, start + j, (j, headers[j]), IndexNamePairsFrom(headers, j + 1));
    }
  }

  /** Section 1, read from its first line, yields the (name, index) list of the lookups. */
  lemma ReadSection1All(lines: seq<string>, start: nat, headers: seq<string>)
    requires Section1At(lines, start, headers)
    ensures ReadSection1Body(lines, start) == Some((BuildLookups(headers).columnNameLookup, start + |headers| + 1))
  {
    ReadSection1From(lines, start, headers, 0);
    NameIndexPairsFromIndex(headers, 0);
    assert NameIndexPairsFrom(headers, 0) == BuildLookups(headers).columnNameLookup;
  }

  /** Section 2, read from its first line, yields the (index, name) list of the lookups. */
  lemma ReadSection2All(lines: seq<string>, start: nat, headers: seq<string>)
    requires Section2At(lines, start, headers)
    ensures ReadSection2Body(lines, start) == Some(BuildLookups(headers).indexPositionLookup)
  {
    ReadSection2From(lines, start, headers, 0);
    IndexNamePairsFromIndex(headers, 0);
    assert IndexNamePairsFrom(headers, 0) == BuildLookups(headers).indexPositionLookup;
  }

  /** The text line of header `k` in Section 1 reads back as its name and index. */
  lemma RenderedSection1Line(p: Provenance, headers: seq<string>, k: nat)
    requires k < |headers|
    ensures ProvenanceLines + 1 + k < |Render(ReportLines(p, headers))|
    ensures ReadsAsNameIndex(Render(ReportLines(p, headers))[ProvenanceLines + 1 + k], headers[k], k)
  {
    Section1Lines(headers);
    ReportLineAt(p, headers, 1 + k);
    NameIndexLineRoundTrip(headers[k], k);
  }

  /** The text line of header `k` in Section 2 reads back as its index and name. */
  lemma RenderedSection2Line(p: Provenance, headers: seq<string>, k: nat)
    requires k < |headers|
    ensures ProvenanceLines + |headers| + 3 + k < |Render(ReportLines(p, headers))|
    ensures ReadsAsIndexName(Render(ReportLines(p, headers))[ProvenanceLines + |headers| + 3 + k], k, headers[k])
  {
    Section2Lines(headers);
    ReportLineAt(p, headers, |headers| + 3 + k);
    IndexNameLineRoundTrip(k, headers[k]);
  }

  /** In the report's text, Section 1 follows its heading and ends with the blank line. */
  lemma RenderedSection1(p: Provenance, headers: seq<string>)
    ensures Section1At(Render(ReportLines(p, headers)), ProvenanceLines + 1, headers)
  {
    var n := |headers|;
    var texts := Render(ReportLines(p, headers));
    FixedLines(headers);
    ReportLineAt(p, headers, n + 1);
    forall k | 0 <= k < n ensures ReadsAsNameIndex(texts[ProvenanceLines + 1 + k], headers[k], k) {
      RenderedSection1Line(p, headers, k);
    }
  }

  /** In the report's text, Section 2 follows its heading and runs to the last line. */
  lemma RenderedSection2(p: Provenance, headers: seq<string>)
    ensures Section2At(Render(ReportLines(p, headers)), ProvenanceLines + |headers| + 3, headers)
  {
    var n := |headers|;
    var texts := Render(ReportLines(p, headers));
    FixedLines(headers);
    forall k | 0 <= k < n ensures ReadsAsIndexName(texts[ProvenanceLines + n + 3 + k], k, headers[k]) {
      RenderedSection2Line(p, headers, k);
    }
  }

  /** Section 1 of the report's text reads back as the (name, index) list, tabs in names included. */
  lemma Section1RoundTrip(p: Provenance, headers: seq<string>)
    ensures ReadSection1Body(Render(ReportLines(p, headers)), ProvenanceLines + 1)
         == Some((BuildLookups(headers).columnNameLookup, ProvenanceLines + 1 + |headers| + 1))
  {
    RenderedSection1(p, headers);
    ReadSection1All(Render(ReportLines(p, headers)), ProvenanceLines + 1, headers);
  }

  /** Section 2 of the report's text reads back as the (index, name) list, tabs in names included. */
  lemma Section2RoundTrip(p: Provenance, headers: seq<string>)
    ensures ReadSection2Body(Render(ReportLines(p, headers)), ProvenanceLines + |headers| + 3)
         == Some(BuildLookups(headers).indexPositionLookup)
  {
    RenderedSection2(p, headers);
    ReadSection2All(Render(ReportLines(p, headers)), ProvenanceLines + |headers| + 3, headers);
  }

  /** What `ReadSections` makes of the lines once both section bodies have been read. */
  lemma ReadSectionsOf(lines: seq<string>, at: nat, byName: seq<(string, nat)>, next: nat, byIndex: seq<(nat, string)>)
    requires at < |lines| && lines[at] == LineText(Heading(Section1Title))
    requires ReadSection1Body(lines, at + 1) == Some((byName, next))
    requires next < |lines| && lines[next] == LineText(Heading(Section2Title))
    requires ReadSection2Body(lines, next + 1) == Some(byIndex)
    ensures ReadSections(lines, at) == Some(HeaderLookups(byName, byIndex))
  {
  }

  /** The lines of the report's text, past the provenance block, read back as the lookups. */
  lemma SectionsRoundTrip(p: Provenance, headers: seq<string>)
    ensures ReadSections(Render(ReportLines(p, headers)), ProvenanceLines) == Some(BuildLookups(headers))
  {
    var texts := Render(ReportLines(p, headers));
    var l := BuildLookups(headers);
    var next := ProvenanceLines + |headers| + 2;
    ReportHeadings(p, headers);
    Section1RoundTrip(p, headers);
    Section2RoundTrip(p, headers);
    assert next + 1 == ProvenanceLines + |headers| + 3;
    ReadSectionsOf(texts, ProvenanceLines, l.columnNameLookup, next, l.indexPositionLookup);
  }

  /** No provenance value and no header contains a newline. */
  predicate NoNewlineInputs(p: Provenance, headers: seq<string>)
  {
    && Newline !in p.methodCreated && Newline !in p.dateCreated && Newline !in p.createdBy
    && Newline !in p.infile && Newline !in p.reportFile && Newline !in p.logfile
    && NoNewlines(headers)
  }

  /** No field of the line contains a newline. */
  predicate NewlineFree(l: Line)
  {
    match l
    case Meta(key, value) => Newline !in key && Newline !in value
    case Blank => true
    case Heading(title) => Newline !in title
    case NameIndex(name, _) => Newline !in name
    case IndexName(_, name) => Newline !in name
  }

  /** The text of a line has a newline only if one of its fields does. */
  lemma LineTextHasNoNewline(l: Line)
    requires NewlineFree(l)
    ensures Newline !in LineText(l)
  {
    match l
    case NameIndex(name, i) => NatToStringHasNo(i, Newline);
    case IndexName(i, name) => NatToStringHasNo(i, Newline);
    case _ =>
  }

  /** The provenance keys have no newline, so the provenance lines have none when the values have none. */
  lemma ProvenanceNewlineFree(p: Provenance, m: nat)
    requires NoNewlineInputs(p, []) && m < ProvenanceLines
    ensures NewlineFree(ProvenanceBlock(p)[m])
  {
  }

  /** The section titles have no newline. */
  lemma TitlesNewlineFree()
    ensures Newline !in Section1Title && Newline !in Section2Title
  {
  }

  /** Every section line is newline-free when no header contains a newline. */
  lemma SectionLineNewlineFree(headers: seq<string>, m: nat)
    requires NoNewlines(headers)
    requires m < |SectionLines(headers)|
    ensures NewlineFree(SectionLines(headers)[m])
  {
    var n := |headers|;
    SectionLayout(headers);
    if 1 <= m <= n {
      var k := m - 1;
      assert SectionLines(headers)[1 + k] == NameIndex(headers[k], k);
    } else if n + 3 <= m {
      var k := m - n - 3;
      assert SectionLines(headers)[n + 3 + k] == IndexName(k, headers[k]);
    } else {
      TitlesNewlineFree();
    }
  }

  /** A provenance line of the report's text has no newline when no provenance value does. */
  lemma ProvenanceTextHasNoNewline(p: Provenance, headers: seq<string>, k: nat)
    requires NoNewlineInputs(p, []) && k < ProvenanceLines
    ensures k < |Render(ReportLines(p, headers))|
    ensures Newline !in Render(ReportLines(p, headers))[k]
  {
    ProvenanceLineAt(p, headers, k);
    ProvenanceNewlineFree(p, k);
    LineTextHasNoNewline(ProvenanceBlock(p)[k]);
  }

  /** A section line of the report's text has no newline when no header does. */
  lemma SectionTextHasNoNewline(p: Provenance, headers: seq<string>, m: nat)
    requires NoNewlines(headers)
    requires m < |SectionLines(headers)|
    ensures ProvenanceLines + m < |Render(ReportLines(p, headers))|
    ensures Newline !in Render(ReportLines(p, headers))[ProvenanceLines + m]
  {
    ReportLineAt(p, headers, m);
    SectionLineNewlineFree(headers, m);
    LineTextHasNoNewline(SectionLines(headers)[m]);
  }

  /** A line of the report's text has no newline when no input does. */
  lemma ReportLineHasNoNewline(p: Provenance, headers: seq<string>, k: nat)
    requires NoNewlineInputs(p, headers)
    requires k < |Render(ReportLines(p, headers))|
    ensures Newline !in Render(ReportLines(p, headers))[k]
  {
    if k < ProvenanceLines {
      assert NoNewlineInputs(p, []);
      ProvenanceTextHasNoNewline(p, headers, k);
    } else {
      SectionTextHasNoNewline(p, headers, k - ProvenanceLines);
    }
  }

  /** No line of the report's text contains a newline when no input does. */
  lemma ReportHasNoNewlines(p: Provenance, headers: seq<string>)
    requires NoNewlineInputs(p, headers)
    ensures NoNewlines(Render(ReportLines(p, headers)))
  {
    forall k | 0 <= k < |Render(ReportLines(p, headers))| ensures Newline !in Render(ReportLines(p, headers))[k] {
      ReportLineHasNoNewline(p, headers, k);
    }
  }

  /** A provenance line splits back into its key and value when the key has no colon; the value may hold anything. */
  lemma MetaLineRoundTrip(key: string, value: string)
    requires ':' !in key
    ensures ParseMetaLine(LineText(Meta(key, value))) == Some((key, value))
  {
    var line := LineText(Meta(key, value));
    var rest := key + [':'] + ([' '] + value);
    assert line == "## " + rest;
    assert line[..3] == "## " && line[3..] == rest;
    IndexOfJoined(key, ':', [' '] + value);
  }

  /** No provenance key contains a colon. */
  lemma KeysHaveNoColon(m: nat)
    requires m < |ProvenanceKeys|
    ensures ':' !in ProvenanceKeys[m]
  {
  }

  /** Each keyed line of the report's text yields its provenance value under its own key. */
  lemma ProvenanceLineReads(p: Provenance, headers: seq<string>, m: nat)
    requires m < |ProvenanceKeys|
    ensures m < |Render(ReportLines(p, headers))|
    ensures MetaValue(Render(ReportLines(p, headers))[m], ProvenanceKeys[m]) == Some(ProvenanceValues(p)[m])
  {
    ProvenanceLineAt(p, headers, m);
    KeysHaveNoColon(m);
    MetaLineRoundTrip(ProvenanceKeys[m], ProvenanceValues(p)[m]);
  }

  /** What `ReadProvenance` makes of lines whose keyed lines carry the given values. */
  lemma ReadProvenanceOf(lines: seq<string>, values: seq<string>)
    requires |lines| >= ProvenanceLines && lines[ProvenanceLines - 1] == []
    requires |values| == |ProvenanceKeys|
    requires forall m :: 0 <= m < |ProvenanceKeys| ==> MetaValue(lines[m], ProvenanceKeys[m]) == Some(values[m])
    ensures ReadProvenance(lines) == Some(Provenance(values[0], values[1], values[2], values[3], values[4], values[5]))
  {
  }

  /** The provenance block of the report's text reads back as the provenance it was written from. */
  lemma ProvenanceRoundTrip(p: Provenance, headers: seq<string>)
    ensures ReadProvenance(Render(ReportLines(p, headers))) == Some(p)
  {
    var texts := Render(ReportLines(p, headers));
    var values := ProvenanceValues(p);
    forall m | 0 <= m < |ProvenanceKeys| ensures MetaValue(texts[m], ProvenanceKeys[m]) == Some(values[m]) {
      ProvenanceLineReads(p, headers, m);
    }
    ProvenanceLineAt(p, headers, ProvenanceLines - 1);
    ReadProvenanceOf(texts, values);
  }

  /**
   The report file round trip: reading the written report back recovers the
   provenance and the lookups of the header row, when no header and no
   provenance value contains a newline.
   */
  lemma ReportRoundTrip(p: Provenance, headers: seq<string>)
    requires NoNewlineInputs(p, headers)
    ensures ReadReport(ReportText(p, headers)) == Some(ReportContent(p, BuildLookups(headers)))
  {
    var texts := Render(ReportLines(p, headers));
    ReportHasNoNewlines(p, headers);
    SplitJoinLines(texts);
    ProvenanceRoundTrip(p, headers);
    SectionsRoundTrip(p, headers);
  }
}
