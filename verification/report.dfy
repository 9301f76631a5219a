/**
 The text report `write_report` produces: a provenance block, then Section 1
 (`name<TAB>index` lines) and Section 2 (`index<TAB>name` lines). The report is
 first laid out as a sequence of structured lines, each of which is then turned
 into text; the file content is those texts, each followed by a newline.
 */
module Report {
  import opened Text
  import opened Lookups

  const Tab: char := '\t'
  const Section1Title: string := "Section 1: Column Name -> Index"
  const Section2Title: string := "Section 2: Index -> Column Name"

  /**
   The run's provenance, each value already formatted by the caller: the tool's
   path, the local creation time, the invoking user, and the three file paths.
   */
  datatype Provenance = Provenance(
    methodCreated: string,
    dateCreated: string,
    createdBy: string,
    infile: string,
    reportFile: string,
    logfile: string)

  /** One line of the report, before it becomes text. */
  datatype Line =
    | Meta(key: string, value: string)
    | Blank
    | Heading(title: string)
    | NameIndex(name: string, index: nat)
    | IndexName(index: nat, name: string)

  /** The text `writeln!` writes for a line, without its newline. */
  function LineText(l: Line): (t: string)
    ensures |t| == 0 <==> l.Blank?
  {
    match l
    case Meta(key, value) => "## " + key + ": " + value
    case Blank => ""
    case Heading(title) => "# " + title
    case NameIndex(name, i) => name + [Tab] + NatToString(i)
    case IndexName(i, name) => NatToString(i) + [Tab] + name
  }

  /** The number of lines of the provenance block, its closing blank line included. */
  const ProvenanceLines: nat := 7

  /** The keys of the provenance lines, in the order they are written. */
  const ProvenanceKeys: seq<string> :=
    ["method-created", "date-created", "created-by", "infile", "report-file", "logfile"]

  /** The provenance values, in the order of their keys. */
  function ProvenanceValues(p: Provenance): (values: seq<string>)
    ensures |values| == |ProvenanceKeys|
  {
    [p.methodCreated, p.dateCreated, p.createdBy, p.infile, p.reportFile, p.logfile]
  }

  /** One `## key: value` line per provenance value, in the order of the keys, then a blank line. */
  function ProvenanceBlock(p: Provenance): (lines: seq<Line>)
    ensures |lines| == ProvenanceLines == |ProvenanceKeys| + 1
    ensures forall k :: 0 <= k < |ProvenanceKeys| ==> lines[k] == Meta(ProvenanceKeys[k], ProvenanceValues(p)[k])
    ensures lines[ProvenanceLines - 1] == Blank
  {
    var keys := ProvenanceKeys;
    var values := ProvenanceValues(p);
    [ Meta(keys[0], values[0]),
      Meta(keys[1], values[1]),
      Meta(keys[2], values[2]),
      Meta(keys[3], values[3]),
      Meta(keys[4], values[4]),
      Meta(keys[5], values[5]),
      Blank ]
  }

  /** One `name<TAB>index` line per enumerated header, in order. */
  function Section1(e: seq<(nat, string)>): (lines: seq<Line>)
    ensures |lines| == |e|
    ensures forall k :: 0 <= k < |e| ==> lines[k] == NameIndex(e[k].1, e[k].0)
  {
    if |e| == 0 then [] else [NameIndex(e[0].1, e[0].0)] + Section1(e[1..])
  }

  /** One `index<TAB>name` line per enumerated header, in order. */
  function Section2(e: seq<(nat, string)>): (lines: seq<Line>)
    ensures |lines| == |e|
    ensures forall k :: 0 <= k < |e| ==> lines[k] == IndexName(e[k].0, e[k].1)
  {
    if |e| == 0 then [] else [IndexName(e[0].0, e[0].1)] + Section2(e[1..])
  }

  /** The two lookup sections of the report, separated by a blank line. */
  function SectionLines(headers: seq<string>): (lines: seq<Line>)
    ensures |lines| == 2 * |headers| + 3
  {
    var e := Enumerate(headers);
    [Heading(Section1Title)] + Section1(e) + [Blank, Heading(Section2Title)] + Section2(e)
  }

  /** Index `k` of `a + b` is index `k` of `a` when `k` is within `a`. */
  lemma PrefixIndex(a: seq<Line>, b: seq<Line>, k: nat)
    requires k < |a|
    ensures (a + b)[k] == a[k]
  {
  }

  /** Index `|a| + k` of `a + b` is index `k` of `b`. */
  lemma AppendIndex(a: seq<Line>, b: seq<Line>, k: nat)
    requires k < |b|
    ensures (a + b)[|a| + k] == b[k]
  {
  }

  /** Where the headings and the blank separator sit in the sections. */
  lemma FixedLines(headers: seq<string>)
    ensures |SectionLines(headers)| == 2 * |headers| + 3
    ensures SectionLines(headers)[0] == Heading(Section1Title)
    ensures SectionLines(headers)[|headers| + 1] == Blank
    ensures SectionLines(headers)[|headers| + 2] == Heading(Section2Title)
  {
    var e := Enumerate(headers);
    var head := [Heading(Section1Title)] + Section1(e);
    var middle := head + [Blank, Heading(Section2Title)];
    PrefixIndex([Heading(Section1Title)], Section1(e), 0);
    PrefixIndex(head, [Blank, Heading(Section2Title)], 0);
    AppendIndex(head, [Blank, Heading(Section2Title)], 0);
    AppendIndex(head, [Blank, Heading(Section2Title)], 1);
    PrefixIndex(middle, Section2(e), 0);
    PrefixIndex(middle, Section2(e), |headers| + 1);
    PrefixIndex(middle, Section2(e), |headers| + 2);
  }

  /** Line `1 + k` of the sections is the Section 1 line of header `k`. */
  lemma Section1LineAt(headers: seq<string>, k: nat)
    requires k < |headers|
    ensures 1 + k < |SectionLines(headers)|
    ensures SectionLines(headers)[1 + k] == NameIndex(headers[k], k)
  {
    var e := Enumerate(headers);
    var head := [Heading(Section1Title)] + Section1(e);
    AppendIndex([Heading(Section1Title)], Section1(e), k);
    PrefixIndex(head, [Blank, Heading(Section2Title)], 1 + k);
    PrefixIndex(head + [Blank, Heading(Section2Title)], Section2(e), 1 + k);
  }

  /** Line `|headers| + 3 + k` of the sections is the Section 2 line of header `k`. */
  lemma Section2LineAt(headers: seq<string>, k: nat)
    requires k < |headers|
    ensures |headers| + 3 + k < |SectionLines(headers)|
    ensures SectionLines(headers)[|headers| + 3 + k] == IndexName(k, headers[k])
  {
    var e := Enumerate(headers);
    var middle := [Heading(Section1Title)] + Section1(e) + [Blank, Heading(Section2Title)];
    assert |middle| == |headers| + 3;
    AppendIndex(middle, Section2(e), k);
  }

  /** Every Section 1 line of the sections, by header position. */
  lemma Section1Lines(headers: seq<string>)
    ensures |SectionLines(headers)| == 2 * |headers| + 3
    ensures forall k :: 0 <= k < |headers| ==> SectionLines(headers)[1 + k] == NameIndex(headers[k], k)
  {
    forall k | 0 <= k < |headers| ensures SectionLines(headers)[1 + k] == NameIndex(headers[k], k) {
      Section1LineAt(headers, k);
    }
  }

  /** Every Section 2 line of the sections, by header position. */
  lemma Section2Lines(headers: seq<string>)
    ensures |SectionLines(headers)| == 2 * |headers| + 3
    ensures forall k :: 0 <= k < |headers| ==> SectionLines(headers)[|headers| + 3 + k] == IndexName(k, headers[k])
  {
    forall k | 0 <= k < |headers| ensures SectionLines(headers)[|headers| + 3 + k] == IndexName(k, headers[k]) {
      Section2LineAt(headers, k);
    }
  }

  /**
   The sections hold `2 * |headers| + 3` lines: the Section 1 heading, one
   `name<TAB>index` line per header, a blank line, the Section 2 heading and one
   `index<TAB>name` line per header, all in header order.
   */
  lemma SectionLayout(headers: seq<string>)
    ensures |SectionLines(headers)| == 2 * |headers| + 3
    ensures SectionLines(headers)[0] == Heading(Section1Title)
    ensures forall k :: 0 <= k < |headers| ==> SectionLines(headers)[1 + k] == NameIndex(headers[k], k)
    ensures SectionLines(headers)[|headers| + 1] == Blank
    ensures SectionLines(headers)[|headers| + 2] == Heading(Section2Title)
    ensures forall k :: 0 <= k < |headers| ==> SectionLines(headers)[|headers| + 3 + k] == IndexName(k, headers[k])
  {
    FixedLines(headers);
    Section1Lines(headers);
    Section2Lines(headers);
  }

  /** The whole report: the provenance block followed by the two sections. */
  function ReportLines(p: Provenance, headers: seq<string>): (lines: seq<Line>)
    ensures |lines| == ProvenanceLines + 2 * |headers| + 3
  {
    ProvenanceBlock(p) + SectionLines(headers)
  }

  /** The texts of a sequence of lines. */
  function Render(lines: seq<Line>): (texts: seq<string>)
    ensures |texts| == |lines|
    ensures forall k :: 0 <= k < |lines| ==> texts[k] == LineText(lines[k])
  {
    if |lines| == 0 then [] else [LineText(lines[0])] + Render(lines[1..])
  }

  /** Past the provenance block, the report's text lines are the texts of the section lines. */
  lemma ReportLineAt(p: Provenance, headers: seq<string>, m: nat)
    requires m < |SectionLines(headers)|
    ensures ProvenanceLines + m < |Render(ReportLines(p, headers))|
    ensures Render(ReportLines(p, headers))[ProvenanceLines + m] == LineText(SectionLines(headers)[m])
  {
    AppendIndex(ProvenanceBlock(p), SectionLines(headers), m);
  }

  /** Where the two headings sit in the report's text, and how many lines it has. */
  lemma ReportHeadings(p: Provenance, headers: seq<string>)
    ensures |Render(ReportLines(p, headers))| == ProvenanceLines + 2 * |headers| + 3
    ensures Render(ReportLines(p, headers))[ProvenanceLines] == LineText(Heading(Section1Title))
    ensures Render(ReportLines(p, headers))[ProvenanceLines + |headers| + 2] == LineText(Heading(Section2Title))
  {
    SectionLayout(headers);
    ReportLineAt(p, headers, 0);
    ReportLineAt(p, headers, |headers| + 2);
  }

  /** The first lines of the report's text are the texts of the provenance lines. */
  lemma ProvenanceLineAt(p: Provenance, headers: seq<string>, m: nat)
    requires m < ProvenanceLines
    ensures m < |Render(ReportLines(p, headers))|
    ensures Render(ReportLines(p, headers))[m] == LineText(ProvenanceBlock(p)[m])
  {
    PrefixIndex(ProvenanceBlock(p), SectionLines(headers), m);
  }

  /** The file content of the report. */
  function ReportText(p: Provenance, headers: seq<string>): (text: string)
    ensures |text| > 0 && text[|text| - 1] == Newline
  {
    JoinLines(Render(ReportLines(p, headers)))
  }

  lemma Heading1Text()
    ensures "# " + Section1Title == "# Section 1: Column Name -> Index"
  {
  }

  lemma Heading2Text()
    ensures "# " + Section2Title == "# Section 2: Index -> Column Name"
  {
  }

  /** The two headings and the blank separator as written to the file. */
  lemma HeadingTexts()
    ensures LineText(Heading(Section1Title)) == "# Section 1: Column Name -> Index"
    ensures LineText(Heading(Section2Title)) == "# Section 2: Index -> Column Name"
    ensures LineText(Blank) == ""
  {
    assert LineText(Heading(Section1Title)) == "# " + Section1Title;
    assert LineText(Heading(Section2Title)) == "# " + Section2Title;
    Heading1Text();
    Heading2Text();
  }

  /** The `## key: ` prefix of each provenance line, spelled out. */
  lemma KeyPrefixes()
    ensures "## " + ProvenanceKeys[0] + ": " == "## method-created: "
    ensures "## " + ProvenanceKeys[1] + ": " == "## date-created: "
    ensures "## " + ProvenanceKeys[2] + ": " == "## created-by: "
    ensures "## " + ProvenanceKeys[3] + ": " == "## infile: "
    ensures "## " + ProvenanceKeys[4] + ": " == "## report-file: "
    ensures "## " + ProvenanceKeys[5] + ": " == "## logfile: "
  {
  }

  /** The texts of the provenance lines, each its literal `## key: ` prefix followed by the value. */
  lemma ProvenanceTexts(p: Provenance)
    ensures LineText(ProvenanceBlock(p)[0]) == "## method-created: " + p.methodCreated
    ensures LineText(ProvenanceBlock(p)[1]) == "## date-created: " + p.dateCreated
    ensures LineText(ProvenanceBlock(p)[2]) == "## created-by: " + p.createdBy
    ensures LineText(ProvenanceBlock(p)[3]) == "## infile: " + p.infile
    ensures LineText(ProvenanceBlock(p)[4]) == "## report-file: " + p.reportFile
    ensures LineText(ProvenanceBlock(p)[5]) == "## logfile: " + p.logfile
    ensures LineText(ProvenanceBlock(p)[6]) == ""
  {
    KeyPrefixes();
  }

  /**
   Two reports for the same header row whose provenance differs only in the
   creation time differ only in the date line, the second line of the file.
   */
  lemma ReportStableExceptDate(p: Provenance, date: string, headers: seq<string>)
    ensures |ReportLines(p, headers)| == |ReportLines(p.(dateCreated := date), headers)|
    ensures forall k :: 0 <= k < |ReportLines(p, headers)| && k != 1 ==>
              ReportLines(p, headers)[k] == ReportLines(p.(dateCreated := date), headers)[k]
    ensures ReportLines(p, headers)[1] == Meta("date-created", p.dateCreated)
  {
  }

  /** The sections for the headers Labnumber, SampleID, Result. */
  lemma ExampleSections()
    ensures SectionLines(["Labnumber", "SampleID", "Result"]) ==
      [ Heading(Section1Title),
        NameIndex("Labnumber", 0), NameIndex("SampleID", 1), NameIndex("Result", 2),
        Blank,
        Heading(Section2Title),
        IndexName(0, "Labnumber"), IndexName(1, "SampleID"), IndexName(2, "Result") ]
    ensures LineText(NameIndex("Labnumber", 0)) == "Labnumber\t0"
    ensures LineText(IndexName(2, "Result")) == "2\tResult"
  {
    var headers := ["Labnumber", "SampleID", "Result"];
    var want :=
      [ Heading(Section1Title),
        NameIndex("Labnumber", 0), NameIndex("SampleID", 1), NameIndex("Result", 2),
        Blank,
        Heading(Section2Title),
        IndexName(0, "Labnumber"), IndexName(1, "SampleID"), IndexName(2, "Result") ];
    SectionLayout(headers);
    forall k | 0 <= k < 9 ensures SectionLines(headers)[k] == want[k] {
    }
  }

  /** The decimal texts of the indices 0, 1 and 2. */
  lemma SmallIndexTexts()
    ensures NatToString(0) == "0" && NatToString(1) == "1" && NatToString(2) == "2"
  {
  }

  /** The texts of the Section 1 lines for the headers Labnumber, SampleID, Result. */
  lemma ExampleSection1Texts()
    ensures LineText(NameIndex("Labnumber", 0)) == "Labnumber\t0"
    ensures LineText(NameIndex("SampleID", 1)) == "SampleID\t1"
    ensures LineText(NameIndex("Result", 2)) == "Result\t2"
  {
    SmallIndexTexts();
    assert "Labnumber" + "\t" + "0" == "Labnumber\t0";
    assert "SampleID" + "\t" + "1" == "SampleID\t1";
    assert "Result" + "\t" + "2" == "Result\t2";
  }

  /** The texts of the Section 2 lines for the headers Labnumber, SampleID, Result. */
  lemma ExampleSection2Texts()
    ensures LineText(IndexName(0, "Labnumber")) == "0\tLabnumber"
    ensures LineText(IndexName(1, "SampleID")) == "1\tSampleID"
    ensures LineText(IndexName(2, "Result")) == "2\tResult"
  {
    SmallIndexTexts();
    assert "0" + "\t" + "Labnumber" == "0\tLabnumber";
    assert "1" + "\t" + "SampleID" == "1\tSampleID";
    assert "2" + "\t" + "Result" == "2\tResult";
  }

  /** The text lines of the sections for the headers Labnumber, SampleID, Result. */
  lemma ExampleSectionTexts()
    ensures Render(SectionLines(["Labnumber", "SampleID", "Result"])) ==
      [ "# Section 1: Column Name -> Index",
        "Labnumber\t0", "SampleID\t1", "Result\t2",
        "",
        "# Section 2: Index -> Column Name",
        "0\tLabnumber", "1\tSampleID", "2\tResult" ]
  {
    var want :=
      [ "# Section 1: Column Name -> Index",
        "Labnumber\t0", "SampleID\t1", "Result\t2",
        "",
        "# Section 2: Index -> Column Name",
        "0\tLabnumber", "1\tSampleID", "2\tResult" ];
    var headers := ["Labnumber", "SampleID", "Result"];
    var r := Render(SectionLines(headers));
    SectionLayout(headers);
    HeadingTexts();
    ExampleSection1Texts();
    ExampleSection2Texts();
    assert |r| == 9;
    forall k | 0 <= k < 9 ensures r[k] == want[k] {
    }
  }

  /** An empty header row leaves only the two headings and the blank separator. */
  lemma EmptyHeaders()
    ensures SectionLines([]) == [Heading(Section1Title), Blank, Heading(Section2Title)]
    ensures BuildLookups([]) == HeaderLookups([], [])
  {
  }
}
