/**
 Header-row selection of `parse_headers`, applied to the rows of the first
 worksheet once the workbook has been opened and decoded. Cells are of any type
 `C`; `toText` is the cell-to-string conversion the workbook library provides.
 */
module Headers {
  import opened Text

  /** The cell whose text marks row 0 as the header row. */
  const Marker: string := "Labnumber"

  /**
   The two ways the first cell can be missing. `parse_headers` indexes the first
   cell of the first row unguarded and panics in both cases.
   */
  datatype ParseError = NoRows | EmptyFirstRow

  datatype Result<+T> = Ok(value: T) | Err(error: ParseError)

  /** Row 0 carries the marker in its first cell. */
  ghost predicate MarkedFirstRow<C>(rows: seq<seq<C>>, toText: C -> string)
    requires |rows| >= 1 && |rows[0]| >= 1
  {
    exists i: nat :: OccursAt(toText(rows[0][0]), Marker, i)
  }

  /**
   Chooses the header row: row 0 when its first cell contains the marker,
   otherwise row 1, or no cells at all when there is no row 1.
   */
  function SelectHeaderRow<C>(rows: seq<seq<C>>, toText: C -> string): (r: Result<seq<C>>)
    ensures |rows| == 0 ==> r == Err(NoRows)
    ensures |rows| >= 1 && |rows[0]| == 0 ==> r == Err(EmptyFirstRow)
    ensures r.Ok? <==> |rows| >= 1 && |rows[0]| >= 1
    ensures r.Ok? && MarkedFirstRow(rows, toText) ==> r.value == rows[0]
    ensures r.Ok? && !MarkedFirstRow(rows, toText) && |rows| >= 2 ==> r.value == rows[1]
    ensures r.Ok? && !MarkedFirstRow(rows, toText) && |rows| == 1 ==> r.value == []
  {
    var firstRow := if |rows| >= 1 then rows[0] else [];
    if |firstRow| == 0 then
      Err(if |rows| == 0 then NoRows else EmptyFirstRow)
    else if Contains(toText(firstRow[0]), Marker) then
      Ok(firstRow)
    else
      Ok(if |rows| >= 2 then rows[1] else [])
  }

  /** `parse_headers`: the text of every cell of the selected header row, in column order. */
  function ParseHeaders<C>(rows: seq<seq<C>>, toText: C -> string): (r: Result<seq<string>>)
    ensures r.Err? <==> SelectHeaderRow(rows, toText).Err?
    ensures r.Err? ==> r.error == SelectHeaderRow(rows, toText).error
    ensures r.Ok? ==> |r.value| == |SelectHeaderRow(rows, toText).value|
    ensures r.Ok? ==> forall i :: 0 <= i < |r.value| ==>
              r.value[i] == toText(SelectHeaderRow(rows, toText).value[i])
  {
    match SelectHeaderRow(rows, toText)
    case Err(e) => Err(e)
    case Ok(row) => Ok(seq(|row|, i requires 0 <= i < |row| => toText(row[i])))
  }

  /** Rows after row 1 never influence the selection. */
  lemma OnlyFirstTwoRowsMatter<C>(rows: seq<seq<C>>, toText: C -> string, k: nat)
    requires 2 <= k <= |rows|
    ensures SelectHeaderRow(rows, toText) == SelectHeaderRow(rows[..k], toText)
  {
  }

  /** When row 0 is marked, row 1 is never consulted: any rows after row 0 give the same headers. */
  lemma MarkedIgnoresLaterRows<C>(rows: seq<seq<C>>, later: seq<seq<C>>, toText: C -> string)
    requires |rows| >= 1 && |rows[0]| >= 1 && MarkedFirstRow(rows, toText)
    ensures ParseHeaders(rows[..1] + later, toText) == ParseHeaders(rows, toText)
    ensures ParseHeaders(rows, toText).Ok?
  {
  }

  /**
   A worksheet of a single row whose first cell contains the marker yields that
   row; without the marker it yields an empty header row.
   */
  lemma SingleRow<C>(row: seq<C>, toText: C -> string)
    requires |row| >= 1
    ensures Contains(toText(row[0]), Marker) ==> ParseHeaders([row], toText) == Ok(seq(|row|, i requires 0 <= i < |row| => toText(row[i])))
    ensures !Contains(toText(row[0]), Marker) ==> ParseHeaders([row], toText) == Ok([])
  {
  }

  /** A first cell reading exactly "Labnumber" marks row 0. */
  lemma ExactMarkerSelectsFirstRow<C>(rows: seq<seq<C>>, toText: C -> string)
    requires |rows| >= 1 && |rows[0]| >= 1 && toText(rows[0][0]) == Marker
    ensures SelectHeaderRow(rows, toText) == Ok(rows[0])
  {
    assert OccursAt(toText(rows[0][0]), Marker, 0);
  }
}
