/**
 * `generateCBMReports` in services/services/reportGenerator.ts, the second
 * copy of the generator. It pages and pads exactly like the first, but a
 * GD&T row with no result for the sample shows "ACCEPTED", the drawing
 * number and part name are printed as they are (no fallback), the header's
 * last cell reads "Wynik KJ CBM Polska" instead of "Wynik KJ CBM", and the
 * file is named `<drawingNumber>_RAPORT_PRÓBKA_<n>.docx`.
 */
module NestedReportGenerator {
  import opened Js
  import opened Types
  import opened Pagination
  import opened Layout
  import ReportGenerator

  const HeaderRow := Row("Lp", "Charakterystyka", "Wynik dostawcy", "Wynik KJ CBM Polska")

  /**
   * The supplier result shown for a row in report `reportIdx`. Weld wins;
   * then a GD&T row with a missing or empty result shows "ACCEPTED";
   * otherwise the sample's result, or nothing.
   */
  function SupplierResult(dim: Dimension, reportIdx: nat): (result: string)
    ensures dim.isWeld ==> result == "O.K."
    ensures !dim.isWeld && reportIdx < |dim.results| && dim.results[reportIdx] != "" ==> result == dim.results[reportIdx]
    ensures !dim.isWeld && !(reportIdx < |dim.results| && dim.results[reportIdx] != "") ==>
              result == (if dim.isGDT then "ACCEPTED" else "")
  {
    var result := ResultOr(dim.results, reportIdx, "");
    var afterWeld := if dim.isWeld then "O.K." else result;
    if dim.isGDT && afterWeld == "" then "ACCEPTED" else afterWeld
  }

  /**
   * The two copies disagree on a row's result exactly when it is a GD&T row,
   * not a weld, whose sample result is missing or empty.
   */
  lemma SupplierResultVersusFirstCopy(dim: Dimension, reportIdx: nat)
    ensures SupplierResult(dim, reportIdx) != ReportGenerator.SupplierResult(dim, reportIdx)
            <==> !dim.isWeld && dim.isGDT && !(reportIdx < |dim.results| && dim.results[reportIdx] != "")
    ensures SupplierResult(dim, reportIdx) != ReportGenerator.SupplierResult(dim, reportIdx)
            ==> SupplierResult(dim, reportIdx) == "ACCEPTED" && ReportGenerator.SupplierResult(dim, reportIdx) == ""
  {
  }

  function DataRow(dim: Dimension, reportIdx: nat): Row {
    Row(dim.balloonId, dim.characteristic, SupplierResult(dim, reportIdx), "")
  }

  function DataRows(dims: seq<Dimension>, reportIdx: nat): (rows: seq<Row>)
    ensures |rows| == |dims|
  {
    seq(|dims|, i requires 0 <= i < |dims| => DataRow(dims[i], reportIdx))
  }

  function Table(dims: seq<Dimension>, reportIdx: nat): seq<Row> {
    Padded([HeaderRow] + DataRows(dims, reportIdx))
  }

  /** `Nr rys.  ${data.drawingNumber}` */
  function DrawingLine(drawingNumber: string): (line: string)
    ensures |line| == |"Nr rys.  "| + |drawingNumber|
    ensures line[..|"Nr rys.  "|] == "Nr rys.  " && line[|"Nr rys.  "|..] == drawingNumber
    ensures drawingNumber == "" ==> line == "Nr rys.  "
  {
    "Nr rys.  " + drawingNumber
  }

  /** `Nazwa części  ${data.partName}` */
  function PartLine(partName: string): (line: string)
    ensures |line| == |"Nazwa części  "| + |partName|
    ensures line[..|"Nazwa części  "|] == "Nazwa części  " && line[|"Nazwa części  "|..] == partName
    ensures partName == "" ==> line == "Nazwa części  "
  {
    "Nazwa części  " + partName
  }

  /** `${data.drawingNumber}_RAPORT_PRÓBKA_${reportIdx + 1}.docx` */
  function FileName(data: DrawingData, reportIdx: nat): (name: string)
    ensures |data.drawingNumber| <= |name| && name[..|data.drawingNumber|] == data.drawingNumber
    ensures name[|data.drawingNumber|..] == "_RAPORT_PRÓBKA_" + NatToString(reportIdx + 1) + ".docx"
  {
    data.drawingNumber + "_RAPORT_PRÓBKA_" + NatToString(reportIdx + 1) + ".docx"
  }

  function SectionFor(data: DrawingData, currentDate: string, reportIdx: nat, pageIdx: nat): Section {
    var header := PageHeader(reportIdx, currentDate, pageIdx, PageCount(|data.dimensions|));
    Section(header.0, header.1, header.2,
      DrawingLine(data.drawingNumber), PartLine(data.partName),
      Table(Page(data.dimensions, pageIdx), reportIdx))
  }

  function ReportFor(data: DrawingData, currentDate: string, reportIdx: nat): ReportFile {
    var totalPages := PageCount(|data.dimensions|);
    ReportFile(FileName(data, reportIdx),
      seq(totalPages, p requires 0 <= p => SectionFor(data, currentDate, reportIdx, p)))
  }

  function Reports(data: DrawingData, currentDate: string): seq<ReportFile> {
    seq(SampleCount, r requires 0 <= r => ReportFor(data, currentDate, r))
  }

  /**
   * The table of one page: the header row, one row per dimension pushed by
   * the `forEach`, then the padding loop.
   */
  method BuildTable(pageDimensions: seq<Dimension>, reportIdx: nat) returns (dataRows: seq<Row>)
    ensures dataRows == Table(pageDimensions, reportIdx)
  {
    dataRows := [HeaderRow];
    var i := 0;
    while i < |pageDimensions|
      invariant i <= |pageDimensions|
      invariant |dataRows| == i + 1 && dataRows[0] == HeaderRow
      invariant forall j :: 0 <= j < i ==> dataRows[j + 1] == DataRow(pageDimensions[j], reportIdx)
    {
      dataRows := dataRows + [DataRow(pageDimensions[i], reportIdx)];
      i := i + 1;
    }
    assert dataRows == [HeaderRow] + DataRows(pageDimensions, reportIdx);
    dataRows := PadTable(dataRows);
  }

  /**
   * The nested report and page loops, the row-building `forEach` and the
   * padding loop of this copy. `currentDate` stands for the locale-formatted
   * current date.
   */
  method GenerateCBMReports(data: DrawingData, currentDate: string) returns (files: seq<ReportFile>)
    ensures files == Reports(data, currentDate)
  {
    var totalDimensions := |data.dimensions|;
    var totalPages := PageCount(totalDimensions);
    files := [];
    var reportIdx := 0;
    while reportIdx < SampleCount
      invariant reportIdx <= SampleCount
      invariant |files| == reportIdx
      invariant forall r :: 0 <= r < reportIdx ==> files[r] == ReportFor(data, currentDate, r)
    {
      var sections := [];
      var pageIdx := 0;
      while pageIdx < totalPages
        invariant pageIdx <= totalPages
        invariant |sections| == pageIdx
        invariant forall p :: 0 <= p < pageIdx ==> sections[p] == SectionFor(data, currentDate, reportIdx, p)
      {
        var pageDimensions := Slice(data.dimensions, pageIdx * RowsPerPage, (pageIdx + 1) * RowsPerPage);
        var dataRows := BuildTable(pageDimensions, reportIdx);
        var header := PageHeader(reportIdx, currentDate, pageIdx, totalPages);
        var section := Section(header.0, header.1, header.2,
          DrawingLine(data.drawingNumber), PartLine(data.partName), dataRows);
        assert section == SectionFor(data, currentDate, reportIdx, pageIdx);
        sections := sections + [section];
        pageIdx := pageIdx + 1;
      }
      assert sections == ReportFor(data, currentDate, reportIdx).sections;
      files := files + [ReportFile(FileName(data, reportIdx), sections)];
      reportIdx := reportIdx + 1;
    }
    assert files == Reports(data, currentDate);
  }

  /**
   * Exactly SampleCount reports, report `r` under its own file name, each
   * with the same PageCount(n) pages in page order.
   */
  lemma ReportsShape(data: DrawingData, currentDate: string)
    ensures var files := Reports(data, currentDate);
            && |files| == SampleCount
            && forall r :: 0 <= r < SampleCount ==>
                 files[r].fileName == FileName(data, r) &&
                 |files[r].sections| == PageCount(|data.dimensions|) &&
                 forall p :: 0 <= p < |files[r].sections| ==> files[r].sections[p] == SectionFor(data, currentDate, r, p)
  {
  }

  /**
   * Every page's table has TableHeight rows: the header, the page's
   * dimensions in order, then at least one blank row.
   */
  lemma TableLayout(data: DrawingData, currentDate: string, reportIdx: nat, pageIdx: nat)
    requires pageIdx < PageCount(|data.dimensions|)
    ensures var table := SectionFor(data, currentDate, reportIdx, pageIdx).table;
            var filled := |Page(data.dimensions, pageIdx)|;
            && |table| == TableHeight
            && table[0] == HeaderRow
            && filled <= RowsPerPage
            && (forall j :: 1 <= j <= filled ==>
                  pageIdx * RowsPerPage + j - 1 < |data.dimensions| &&
                  table[j] == DataRow(data.dimensions[pageIdx * RowsPerPage + j - 1], reportIdx))
            && (forall j :: 1 + filled <= j < TableHeight ==> table[j] == BlankRow)
            && TableHeight - 1 - filled >= 1
  {
    var dims := data.dimensions;
    var page := Page(dims, pageIdx);
    PageSizes(dims, pageIdx);
    var rows := [HeaderRow] + DataRows(page, reportIdx);
    var table := Padded(rows);
    assert table[..|rows|] == rows;
    forall j | 1 <= j <= |page|
      ensures pageIdx * RowsPerPage + j - 1 < |dims|
      ensures table[j] == DataRow(dims[pageIdx * RowsPerPage + j - 1], reportIdx)
    {
      IndexOfPageEntry(dims, pageIdx, j - 1);
      assert table[j] == rows[j];
    }
  }

  /** Dimension `i` appears in every report on page `i / RowsPerPage`, table row `1 + i % RowsPerPage`. */
  lemma DimensionPlacement(data: DrawingData, currentDate: string, reportIdx: nat, i: nat)
    requires i < |data.dimensions|
    ensures i / RowsPerPage < PageCount(|data.dimensions|)
    ensures SectionFor(data, currentDate, reportIdx, i / RowsPerPage).table[1 + i % RowsPerPage]
            == DataRow(data.dimensions[i], reportIdx)
  {
    PageOfIndex(data.dimensions, i);
    TableLayout(data, currentDate, reportIdx, i / RowsPerPage);
    IndexOfPageEntry(data.dimensions, i / RowsPerPage, i % RowsPerPage);
  }

  /**
   * Both copies lay out the same pages. Each table starts with its copy's
   * header row (the two differ in the CBM cell); in every row below it the
   * two tables agree on balloon id, characteristic and CBM cell, and the
   * supplier results differ only where the "ACCEPTED" rule applies.
   */
  lemma SameLayoutAsFirstCopy(data: DrawingData, currentDate: string, reportIdx: nat, pageIdx: nat)
    requires pageIdx < PageCount(|data.dimensions|)
    ensures var t1 := ReportGenerator.SectionFor(data, currentDate, reportIdx, pageIdx).table;
            var t2 := SectionFor(data, currentDate, reportIdx, pageIdx).table;
            && |t1| == |t2| == TableHeight
            && t1[0] == ReportGenerator.HeaderRow && t2[0] == HeaderRow
            && t1[0].cbmResult != t2[0].cbmResult
            && forall j :: 1 <= j < TableHeight ==>
                 t1[j].lp == t2[j].lp && t1[j].characteristic == t2[j].characteristic &&
                 t1[j].cbmResult == t2[j].cbmResult &&
                 (t1[j].supplierResult != t2[j].supplierResult ==>
                    t1[j].supplierResult == "" && t2[j].supplierResult == "ACCEPTED")
  {
    ReportGenerator.TableLayout(data, currentDate, reportIdx, pageIdx);
    TableLayout(data, currentDate, reportIdx, pageIdx);
    var filled := |Page(data.dimensions, pageIdx)|;
    forall i | pageIdx * RowsPerPage <= i < pageIdx * RowsPerPage + filled && i < |data.dimensions|
      ensures var d := data.dimensions[i];
              SupplierResult(d, reportIdx) != ReportGenerator.SupplierResult(d, reportIdx) ==>
                ReportGenerator.SupplierResult(d, reportIdx) == "" && SupplierResult(d, reportIdx) == "ACCEPTED"
    {
      SupplierResultVersusFirstCopy(data.dimensions[i], reportIdx);
    }
  }

  /** A weld dimension reads "O.K." in every report, whatever results it carries, GD&T or not. */
  lemma WeldRowsAccepted(data: DrawingData, currentDate: string, reportIdx: nat, i: nat)
    requires i < |data.dimensions| && data.dimensions[i].isWeld
    ensures SectionFor(data, currentDate, reportIdx, i / RowsPerPage).table[1 + i % RowsPerPage].supplierResult == "O.K."
  {
    DimensionPlacement(data, currentDate, reportIdx, i);
  }

  /** The three reports are written under three different file names. */
  lemma FileNamesDistinct(data: DrawingData, r1: nat, r2: nat)
    requires FileName(data, r1) == FileName(data, r2)
    ensures r1 == r2
  {
    MiddleCancel(data.drawingNumber + "_RAPORT_PRÓBKA_", NatToString(r1 + 1), NatToString(r2 + 1), ".docx");
    NatToStringInjective(r1 + 1, r2 + 1);
  }

  /**
   * The three reports share one page layout: every table row agrees across
   * samples except in the supplier-result column, and the CBM cell is empty
   * in every row below the header.
   */
  lemma SamplesShareLayout(data: DrawingData, currentDate: string, r1: nat, r2: nat, pageIdx: nat)
    requires pageIdx < PageCount(|data.dimensions|)
    ensures var t1 := SectionFor(data, currentDate, r1, pageIdx).table;
            var t2 := SectionFor(data, currentDate, r2, pageIdx).table;
            && |t1| == |t2| == TableHeight
            && forall j :: 0 <= j < TableHeight ==>
                 t1[j].lp == t2[j].lp && t1[j].characteristic == t2[j].characteristic &&
                 (j > 0 ==> t1[j].cbmResult == "")
  {
    TableLayout(data, currentDate, r1, pageIdx);
    TableLayout(data, currentDate, r2, pageIdx);
  }

  /** Report `r` is numbered `r + 1` and its page `p` is labelled `p + 1 / totalPages`. */
  lemma ReportLabels(data: DrawingData, currentDate: string, reportIdx: nat, pageIdx: nat)
    requires reportIdx < SampleCount && pageIdx < PageCount(|data.dimensions|)
    ensures var s := Reports(data, currentDate)[reportIdx].sections[pageIdx];
            && s.reportNumber == LabelValue("Rap. Nr", NatToString(reportIdx + 1))
            && s.date == LabelValue("Data", currentDate)
            && s.page == LabelValue("Strona", NatToString(pageIdx + 1) + " / " + NatToString(PageCount(|data.dimensions|)))
            && ParseNat(s.reportNumber.value) == reportIdx + 1
  {
    ParseNatToString(reportIdx + 1);
  }
}
