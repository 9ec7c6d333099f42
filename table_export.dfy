/**
 * The tab-separated export `formatDataForTable` in App.tsx and the result
 * cell of the on-screen table beside it. The export is meant to be pasted
 * into a word-processor table with the columns Lp, Charakterystyka and
 * Wynik, so its partner here is that reading: split on newlines, then on
 * tabs.
 */
module TableExport {
  import opened Wrappers
  import opened Js
  import opened Types

  /**
   * `d.results?.[0] || 'O.K.'`, used both by the export and by the on-screen
   * table: the first sample's result, or "O.K." when it is missing or empty.
   */
  function DisplayedResult(d: Dimension): (result: string)
    ensures |d.results| > 0 && d.results[0] != "" ==> result == d.results[0]
    ensures !(|d.results| > 0 && d.results[0] != "") ==> result == "O.K."
  {
    ResultOr(d.results, 0, "O.K.")
  }

  /** `${d.balloonId}\t${d.characteristic}\t${result}` */
  function FormatLine(d: Dimension): string {
    d.balloonId + "\t" + d.characteristic + "\t" + DisplayedResult(d)
  }

  function FormatLines(dims: seq<Dimension>): (lines: seq<string>)
    ensures |lines| == |dims|
  {
    seq(|dims|, i requires 0 <= i < |dims| => FormatLine(dims[i]))
  }

  /**
   * `formatDataForTable`: nothing when no drawing is loaded, else one line
   * per dimension joined by newlines.
   */
  function FormatDataForTable(drawingData: Option<DrawingData>): (text: string)
    ensures drawingData.None? ==> text == ""
    ensures drawingData.Some? && drawingData.value.dimensions == [] ==> text == ""
  {
    match drawingData
    case None => ""
    case Some(data) => Join(FormatLines(data.dimensions), '\n')
  }

  /** The cells of the on-screen table (Lp, Charakterystyka, Wynik), one row per dimension. */
  function ScreenRows(data: DrawingData): (rows: seq<seq<string>>)
    ensures |rows| == |data.dimensions|
  {
    seq(|data.dimensions|, i requires 0 <= i < |data.dimensions| =>
      [data.dimensions[i].balloonId, data.dimensions[i].characteristic, DisplayedResult(data.dimensions[i])])
  }

  /** How the pasted text is read back: lines on newlines, cells on tabs. */
  function ReadBack(text: string): (rows: seq<seq<string>>) {
    var lines := Split(text, '\n');
    seq(|lines|, i requires 0 <= i < |lines| => Split(lines[i], '\t'))
  }

  /** No field of a dimension as shown holds a tab or a newline. */
  predicate PlainFields(d: Dimension) {
    var result := DisplayedResult(d);
    '\t' !in d.balloonId && '\n' !in d.balloonId &&
    '\t' !in d.characteristic && '\n' !in d.characteristic &&
    '\t' !in result && '\n' !in result
  }

  /** A line of plain fields splits on tabs into exactly its three cells. */
  lemma LineReadsBack(d: Dimension)
    requires PlainFields(d)
    ensures '\n' !in FormatLine(d)
    ensures Split(FormatLine(d), '\t') == [d.balloonId, d.characteristic, DisplayedResult(d)]
  {
    var a, b, c := d.balloonId, d.characteristic, DisplayedResult(d);
    assert FormatLine(d) == a + ['\t'] + (b + ['\t'] + c);
    SplitAtFirstSeparator(a, b + ['\t'] + c, '\t');
    SplitAtFirstSeparator(b, c, '\t');
    SplitWithoutSeparator(c, '\t');
  }

  /**
   * With at least one dimension and plain fields, the export splits on
   * newlines into one line per dimension, in order (so there is no
   * trailing newline).
   */
  lemma ExportLines(data: DrawingData)
    requires |data.dimensions| >= 1
    requires forall i :: 0 <= i < |data.dimensions| ==> PlainFields(data.dimensions[i])
    ensures Split(FormatDataForTable(Some(data)), '\n') == FormatLines(data.dimensions)
  {
    var lines := FormatLines(data.dimensions);
    forall i | 0 <= i < |lines|
      ensures '\n' !in lines[i]
    {
      LineReadsBack(data.dimensions[i]);
    }
    SplitJoin(lines, '\n');
  }

  /**
   * The export and the on-screen table agree: reading the export back gives
   * exactly the on-screen rows, in dimension order.
   */
  lemma ExportMatchesScreen(data: DrawingData)
    requires |data.dimensions| >= 1
    requires forall i :: 0 <= i < |data.dimensions| ==> PlainFields(data.dimensions[i])
    ensures ReadBack(FormatDataForTable(Some(data))) == ScreenRows(data)
  {
    ExportLines(data);
    var lines := FormatLines(data.dimensions);
    forall i | 0 <= i < |lines|
      ensures Split(lines[i], '\t') == ScreenRows(data)[i]
    {
      LineReadsBack(data.dimensions[i]);
    }
  }

  /**
   * Only the balloon id, the characteristic and the first result reach the
   * export: the weld and GD&T flags and the later samples' results never do.
   */
  lemma ExportIgnoresOtherFields(d: Dimension, e: Dimension)
    requires d.balloonId == e.balloonId && d.characteristic == e.characteristic
    requires (|d.results| > 0) == (|e.results| > 0)
    requires |d.results| > 0 ==> d.results[0] == e.results[0]
    ensures FormatLine(d) == FormatLine(e)
  {
  }
}
