# Curated-review header utilities, modelled in Dafny

This project models the pure core of `curated-review-file-utils/src/lib.rs`, the
library behind the `get-curated-review-xlsx-headers` tool. The tool finds the
header row of a curated-review spreadsheet and writes two files from it. One is a
YAML lookup file mapping column names to positions and back. The other is a text
report: a provenance block followed by two tab-separated lookup sections.

The model has five modules:

- `Text`: the string primitives the core relies on.
  - Rust's `str::contains`.
  - The first and the last occurrence of a character.
  - The decimal rendering of a `usize` index, with a reader for it.
  - The line structure of a file written with `writeln!`.
- `Headers`: the header-row selection of `parse_headers` on already-decoded
  worksheet rows. Cells are of any type `C`; the cell-to-text conversion is a
  parameter `toText`.
  - If the first cell of row 0 contains `Labnumber`, row 0 is the header row.
  - Otherwise row 1 is, or no cells when there is no row 1.
  - A worksheet without rows, or whose first row has no cells, is an error
    result. `parse_headers` indexes `first_row[0]` unguarded and panics in both
    cases.
- `Lookups`: the `HeaderLookups` value `write_yaml` serialises. It holds two
  parallel lists of (name, index) and (index, name) pairs, with no
  deduplication.
- `Report`: `write_report`'s output, as a sequence of structured lines.
  - The provenance block comes first. Its six values are caller-supplied,
    already-formatted strings.
  - Then the Section 1 heading, the `name<TAB>index` lines and a blank line.
  - Then the Section 2 heading and the `index<TAB>name` lines.
  - Each line becomes text, and the file content is every text followed by a
    newline.
- `ReportReader`: a reader for the report file, the inverse that the report's
  properties are stated against. It splits the file at newlines, reads the
  provenance block back into a provenance record, and reads both sections back
  into a lookup value. `ReportReader.ReportRoundTrip` proves what reading the
  report of a header row gives back: exactly the provenance it was written with,
  and exactly the lookups `write_yaml` builds for that row. This holds when no
  header and no provenance value contains a newline, because the file is split
  into lines at newlines. Tabs in header names do no harm. A Section 1 line is
  split at its last tab and a Section 2 line at its first, and the index text
  on the other side of that tab never holds one. Provenance values may contain
  colons, because no key does.

`parse_headers` reads `first_row[0]` (lib.rs:27) before any check. It therefore
panics both when the worksheet has no rows and when its first row has no cells.
The model returns `NoRows` and `EmptyFirstRow` for these two cases.

## Model

| member | source | states |
|---|---|---|
| `Text.Contains` | curated-review-file-utils/src/lib.rs:27 | The substring test is true exactly when the pattern occurs at some position of the text, as `str::contains` promises. |
| `Text.NatToString` | curated-review-file-utils/src/lib.rs:58 | A `usize` index written with `{}` is a non-empty run of decimal digits. |
| `Text.NatToStringDigits` | curated-review-file-utils/src/lib.rs:58 | The decimal rendering of an index is a non-empty run of digits, with a leading `0` only for the index 0. |
| `Text.NatToStringRoundTrip` | curated-review-file-utils/src/lib.rs:58 | Reading back the decimal rendering of an index gives that index. |
| `Text.NatToStringInjective` | curated-review-file-utils/src/lib.rs:64 | Distinct indices render to distinct texts, so no two lines of one section share an index text. |
| `Text.JoinLines` | curated-review-file-utils/src/lib.rs:47-65 | Content written one `writeln!` per line is empty exactly when no line is written; otherwise it ends with the newline of the last `writeln!`. |
| `Text.SplitJoinLines` | curated-review-file-utils/src/lib.rs:47-65 | Lines written one `writeln!` each are split back into exactly those lines when none of them contains a newline. |
| `Headers.SelectHeaderRow` | curated-review-file-utils/src/lib.rs:25-31 | No rows or an empty first row is an error, the only two. Otherwise the result is row 0 when its first cell contains `Labnumber`. Without the marker it is row 1 when there is one, else the empty row. |
| `Headers.ParseHeaders` | curated-review-file-utils/src/lib.rs:25-33 | The headers are the selected row's cell texts: same length, `headers[i]` the text of cell `i`, in column order; the errors are the selection's. |
| `Headers.OnlyFirstTwoRowsMatter` | curated-review-file-utils/src/lib.rs:25-31 | Dropping any rows after row 1 never changes the selection. |
| `Headers.MarkedIgnoresLaterRows` | curated-review-file-utils/src/lib.rs:26-28 | When row 0 is marked, row 1 is never consulted: replacing every row after row 0 gives the same headers, which are a success. |
| `Headers.SingleRow` | curated-review-file-utils/src/lib.rs:26-31 | A one-row worksheet yields that row's texts when its first cell has the marker and an empty header row when it does not. |
| `Headers.ExactMarkerSelectsFirstRow` | curated-review-file-utils/src/lib.rs:27-28 | A first cell reading exactly `Labnumber` selects row 0. |
| `Lookups.Enumerate` | curated-review-file-utils/src/lib.rs:73 | `iter().enumerate()` pairs every header with its position, in order. |
| `Lookups.BuildLookups` | curated-review-file-utils/src/lib.rs:72-75 | Both lists have one entry per header, with `column_name_lookup[i] == (headers[i], i)` and `index_position_lookup[i] == (i, headers[i])`. |
| `Lookups.BuildLookupsRecoversHeaders` | curated-review-file-utils/src/lib.rs:73-74 | Built lookups are well formed: equal lengths, positions counting from 0, each entry the swap of the other list's. They list exactly the header row they came from. |
| `Lookups.WellFormedIsBuilt` | curated-review-file-utils/src/lib.rs:73-74 | Every well-formed lookup value is the one built from the names it lists, so the two lists are always element-wise swaps of each other. |
| `Lookups.BuildLookupsInjective` | curated-review-file-utils/src/lib.rs:73-74 | Different header rows give different lookups; nothing is merged. |
| `Lookups.DuplicatesKept` | curated-review-file-utils/src/lib.rs:73-74 | A name at two positions keeps one distinct entry per position in both lists. |
| `Report.ProvenanceBlock` | curated-review-file-utils/src/lib.rs:47-53 | The provenance block is seven lines. The first six pair the keys method-created, date-created, created-by, infile, report-file and logfile, in that order, with the tool path, creation time, user, input path, report path and log path. The last line is blank. |
| `Report.LineText` | curated-review-file-utils/src/lib.rs:47-64 | Only the bare `writeln!(file)` lines are empty; every provenance, heading and data line has text. |
| `Report.ProvenanceTexts` | curated-review-file-utils/src/lib.rs:47-53 | The provenance lines read `## method-created: `, `## date-created: `, `## created-by: `, `## infile: `, `## report-file: ` and `## logfile: ` followed by their values, then an empty line. |
| `Report.HeadingTexts` | curated-review-file-utils/src/lib.rs:56-62 | The headings read `# Section 1: Column Name -> Index` and `# Section 2: Index -> Column Name`, and the separator is an empty line. |
| `Report.Section1` | curated-review-file-utils/src/lib.rs:57-59 | Section 1 has one `name<TAB>index` line per enumerated header, in order. |
| `Report.Section2` | curated-review-file-utils/src/lib.rs:63-65 | Section 2 has one `index<TAB>name` line per enumerated header, in order. |
| `Report.SectionLines` | curated-review-file-utils/src/lib.rs:55-65 | The two sections take `2 * n + 3` lines for `n` headers: two headings, one separator and two lines per header. |
| `Report.SectionLayout` | curated-review-file-utils/src/lib.rs:55-65 | The sections have `2 * n + 3` lines, in this order: heading 1, the line `headers[i]<TAB>i` for each `i`, a blank line, heading 2, then the line `i<TAB>headers[i]` for each `i`. |
| `Report.ReportLines` | curated-review-file-utils/src/lib.rs:44-65 | The report has `7 + 2 * n + 3` lines: the provenance block and the sections. |
| `Report.Render` | curated-review-file-utils/src/lib.rs:47-65 | Each line of the report becomes exactly one text, in order. |
| `Report.ReportText` | curated-review-file-utils/src/lib.rs:44-65 | The report file is never empty and ends with a newline, since every line is written with `writeln!`. |
| `Report.ReportHeadings` | curated-review-file-utils/src/lib.rs:53-62 | In the report's text the Section 1 heading follows the provenance block and the Section 2 heading follows the blank separator; the report has `7 + 2 * n + 3` lines. |
| `Report.ReportStableExceptDate` | curated-review-file-utils/src/lib.rs:45-53 | Reports differing only in their creation time differ only in the date line. |
| `Report.ExampleSections` | curated-review-file-utils/src/lib.rs:56-65 | For the headers Labnumber, SampleID, Result the sections are exactly the Section 1 heading, the lines (Labnumber, 0), (SampleID, 1), (Result, 2), the blank line, the Section 2 heading, and the lines (0, Labnumber), (1, SampleID), (2, Result). |
| `Report.ExampleSectionTexts` | curated-review-file-utils/src/lib.rs:56-65 | For the same headers the section texts are exactly `# Section 1: Column Name -> Index`, `Labnumber\t0`, `SampleID\t1`, `Result\t2`, the empty line, `# Section 2: Index -> Column Name`, `0\tLabnumber`, `1\tSampleID`, `2\tResult`. |
| `Report.EmptyHeaders` | curated-review-file-utils/src/lib.rs:55-65 | An empty header row leaves only the two headings and the blank line, and its lookups are two empty lists. |
| `ReportReader.SplitAtTab` | curated-review-file-utils/src/lib.rs:64 | Splitting at the first tab fails exactly when there is no tab. The first part is tab-free, and the line is the two parts joined by a tab. |
| `ReportReader.SplitAtLastTab` | curated-review-file-utils/src/lib.rs:58 | Splitting at the last tab fails exactly when there is no tab. The second part is tab-free, and the line is the two parts joined by a tab. |
| `ReportReader.NameIndexLineRoundTrip` | curated-review-file-utils/src/lib.rs:58 | A Section 1 line always splits back into its name and index, tabs in the name included, since the index text after the last tab has no tab. |
| `ReportReader.IndexNameLineRoundTrip` | curated-review-file-utils/src/lib.rs:64 | A Section 2 line always splits back into its index and name, since the index text has no tab. |
| `ReportReader.Section1RoundTrip` | curated-review-file-utils/src/lib.rs:56-61 | Reading Section 1 of the report's text, up to the blank line, recovers `column_name_lookup` for every header row. |
| `ReportReader.Section2RoundTrip` | curated-review-file-utils/src/lib.rs:62-65 | Reading Section 2 of the report's text to the end recovers `index_position_lookup` for every header row. |
| `ReportReader.SectionsRoundTrip` | curated-review-file-utils/src/lib.rs:55-65 | The report's lines after the provenance block read back as exactly the lookups of every header row. |
| `ReportReader.MetaLineRoundTrip` | curated-review-file-utils/src/lib.rs:47-52 | A `## key: value` line splits back into its key and value when the key has no colon, whatever the value holds. |
| `ReportReader.ProvenanceRoundTrip` | curated-review-file-utils/src/lib.rs:47-53 | The first seven lines of the report's text read back as exactly the provenance the report was written with. |
| `ReportReader.ReportHasNoNewlines` | curated-review-file-utils/src/lib.rs:47-65 | No text line of the report contains a newline when no header and no provenance value does. |
| `ReportReader.ReportRoundTrip` | curated-review-file-utils/src/lib.rs:44-65 | Reading the report file back yields exactly its provenance and the lookups `write_yaml` builds from the same headers. This holds when no header and no provenance value has a newline. |

## Left out

- Opening and decoding the workbook (`open_workbook`, `worksheet_range_at(0)` and its two `unwrap`s, lib.rs:21-22). These are calls into the spreadsheet library; the model starts from the decoded rows of the first worksheet.
- Cell-to-text conversion (`to_string` on a cell, lib.rs:27 and 33). This is the spreadsheet library's formatting, so it is the parameter `toText`.
- The provenance values: the executable path, the local time formatted as `%Y-%m-%d %H:%M:%S`, the user name and the three paths (lib.rs:45-52). They depend on the environment and are taken as opaque strings in `Report.Provenance`.
- YAML serialisation with serde_yaml and all file creation and writing (lib.rs:44, 76-77). The model builds the `HeaderLookups` value and the report's lines and text, not the files.
- I/O errors: every `?` on a write (lib.rs:44-67) and the `io::Result` of `parse_headers`, `write_report` and `write_yaml`. The model assumes every write succeeds.
- The command-line program `get-curated-review-xlsx-headers/src/main.rs`. It only parses arguments, picks default paths, creates directories, logs and prints.
- `usize` width: indices are `nat`. A header row long enough to overflow `usize` cannot be held in memory, so nothing wraps.
