/**
 * What one generated report is made of, once the document library's
 * tables, paragraphs, fonts and borders are stripped away: per page a
 * header with the "Rap. Nr", "Data" and "Strona" label/value pairs, the
 * drawing-number and part-name lines, and the data table as rows of four
 * cells; per report a file name and its pages in order.
 */
module Layout {
  import opened Js
  import opened Pagination

  /** Both generators produce one report per sample. */
  const SampleCount: nat := 3

  /** Lp, Charakterystyka, supplier result, CBM quality-control result. */
  datatype Row = Row(lp: string, characteristic: string, supplierResult: string, cbmResult: string)

  /**
   * `createLabelValue(label, value)`: `name` is the label argument, rendered
   * as a run reading the label followed by ": ", then the value as a bold
   * run. The model keeps the two arguments and leaves out the ": " separator.
   */
  datatype LabelValue = LabelValue(name: string, value: string)

  datatype Section = Section(
    reportNumber: LabelValue,
    date: LabelValue,
    page: LabelValue,
    drawingLine: string,
    partLine: string,
    table: seq<Row>)

  datatype ReportFile = ReportFile(fileName: string, sections: seq<Section>)

  const BlankRow := Row("", "", "", "")

  /**
   * The padding loop runs `while (dataRows.length <= ROWS_PER_PAGE + 1)`, so
   * it stops at ROWS_PER_PAGE + 2 rows: the header and 24 data rows.
   */
  const TableHeight: nat := RowsPerPage + 2

  function Blanks(k: nat): (rows: seq<Row>)
    ensures |rows| == k && forall j :: 0 <= j < k ==> rows[j] == BlankRow
  {
    seq(k, _ => BlankRow)
  }

  /** The table after the padding loop: blank rows appended up to TableHeight. */
  function Padded(rows: seq<Row>): (table: seq<Row>)
    ensures |rows| < TableHeight ==> |table| == TableHeight
    ensures TableHeight <= |rows| ==> table == rows
    ensures |rows| <= |table| && table[..|rows|] == rows
    ensures forall j :: |rows| <= j < |table| ==> table[j] == BlankRow
  {
    if |rows| < TableHeight then rows + Blanks(TableHeight - |rows|) else rows
  }

  /** The padding loop shared by both generators. */
  method PadTable(rows: seq<Row>) returns (table: seq<Row>)
    ensures table == Padded(rows)
  {
    table := rows;
    while |table| <= RowsPerPage + 1
      invariant |rows| <= |table|
      invariant |rows| < TableHeight ==> |table| <= TableHeight
      invariant TableHeight <= |rows| ==> table == rows
      invariant table == rows + Blanks(|table| - |rows|)
      decreases TableHeight - |table|
    {
      table := table + [BlankRow];
    }
  }

  /** `${pageIdx + 1} / ${totalPages}` */
  function PageLabel(pageIdx: nat, totalPages: nat): string {
    NatToString(pageIdx + 1) + " / " + NatToString(totalPages)
  }

  /** The three label/value pairs are the same in both generators. */
  function PageHeader(reportIdx: nat, currentDate: string, pageIdx: nat, totalPages: nat)
    : (header: (LabelValue, LabelValue, LabelValue))
  {
    (LabelValue("Rap. Nr", NatToString(reportIdx + 1)),
     LabelValue("Data", currentDate),
     LabelValue("Strona", PageLabel(pageIdx, totalPages)))
  }

  /** Two pages of one report never carry the same "Strona" label. */
  lemma PageLabelsDistinct(p1: nat, p2: nat, totalPages: nat)
    requires PageLabel(p1, totalPages) == PageLabel(p2, totalPages)
    ensures p1 == p2
  {
    var a1, a2, tail := NatToString(p1 + 1), NatToString(p2 + 1), " / " + NatToString(totalPages);
    assert PageLabel(p1, totalPages) == "" + a1 + tail;
    assert PageLabel(p2, totalPages) == "" + a2 + tail;
    MiddleCancel("", a1, a2, tail);
    NatToStringInjective(p1 + 1, p2 + 1);
  }

  /** Page labels read back as the page number and the page count. */
  lemma PageLabelReadsBack(pageIdx: nat, totalPages: nat)
    ensures Split(PageLabel(pageIdx, totalPages), ' ') == [NatToString(pageIdx + 1), "/", NatToString(totalPages)]
  {
    var a, b := NatToString(pageIdx + 1), NatToString(totalPages);
    assert forall i :: 0 <= i < |a| ==> a[i] != ' ';
    assert forall i :: 0 <= i < |b| ==> b[i] != ' ';
    assert PageLabel(pageIdx, totalPages) == a + [' '] + ("/" + [' '] + b);
    SplitAtFirstSeparator(a, "/" + [' '] + b, ' ');
    SplitAtFirstSeparator("/", b, ' ');
    SplitWithoutSeparator(b, ' ');
  }
}
