/**
 * `generateCBMReports` in services/reportGenerator.ts: three sample reports,
 * each cut into pages of RowsPerPage dimensions, each page's table padded
 * to TableHeight rows. In this copy a weld row always shows "O.K.", and the
 * drawing number and part name fall back to "N/A", "Część" and (in the file
 * name) "PROJEKT" when empty.
 */
module ReportGenerator {
  import opened Wrappers
  import opened Js
  import opened Types
  import opened Pagination
  import opened Layout

  const HeaderRow := Row("Lp", "Charakterystyka", "Wynik dostawcy", "Wynik KJ CBM")

  /**
   * The supplier result shown for a row in report `reportIdx`: a weld row
   * shows "O.K." whatever its results; otherwise the sample's result when
   * there is a non-empty one, else nothing.
   */
  function SupplierResult(dim: Dimension, reportIdx: nat): (result: string)
    ensures dim.isWeld ==> result == "O.K."
    ensures !dim.isWeld && reportIdx < |dim.results| && dim.results[reportIdx] != "" ==> result == dim.results[reportIdx]
    ensures !dim.isWeld && !(reportIdx < |dim.results| && dim.results[reportIdx] != "") ==> result == ""
  {
    var result := ResultOr(dim.results, reportIdx, "");
    if dim.isWeld then "O.K." else result
  }

  /** One data row: balloon id, characteristic, supplier result, and an empty CBM column. */
  function DataRow(dim: Dimension, reportIdx: nat): Row {
    Row(dim.balloonId, dim.characteristic, SupplierResult(dim, reportIdx), "")
  }

  function DataRows(dims: seq<Dimension>, reportIdx: nat): (rows: seq<Row>)
    ensures |rows| == |dims|
  {
    seq(|dims|, i requires 0 <= i < |dims| => DataRow(dims[i], reportIdx))
  }

  /** The header row, the page's rows in order, then blank rows. */
  function Table(dims: seq<Dimension>, reportIdx: nat): seq<Row> {
    Padded([HeaderRow] + DataRows(dims, reportIdx))
  }

  /** `Nr rys. ${data.drawingNumber || "N/A"}` */
  function DrawingLine(drawingNumber: string): (line: string)
    ensures drawingNumber != "" ==> line == "Nr rys. " + drawingNumber
    ensures drawingNumber == "" ==> line == "Nr rys. N/A"
  {
    "Nr rys. " + Or(Some(drawingNumber), "N/A")
  }

  /** `Nazwa ${data.partName || "Część"}` */
  function PartLine(partName: string): (line: string)
    ensures partName != "" ==> line == "Nazwa " + partName
    ensures partName == "" ==> line == "Nazwa Część"
  {
    "Nazwa " + Or(Some(partName), "Część")
  }

  /** `RAPORT_CBM_${data.drawingNumber || "PROJEKT"}_PROBKA_${reportIdx + 1}.docx` */
  function FileName(data: DrawingData, reportIdx: nat): (name: string)
    ensures data.drawingNumber != "" ==>
              name == "RAPORT_CBM_" + data.drawingNumber + "_PROBKA_" + NatToString(reportIdx + 1) + ".docx"
    ensures data.drawingNumber == "" ==>
              name == "RAPORT_CBM_PROJEKT_PROBKA_" + NatToString(reportIdx + 1) + ".docx"
  {
    "RAPORT_CBM_" + Or(Some(data.drawingNumber), "PROJEKT") + "_PROBKA_" + NatToString(reportIdx + 1) + ".docx"
  }

  function SectionFor(data: DrawingData, currentDate: string, reportIdx: nat, pageIdx: nat): Section {
    var header := PageHeader(reportIdx, currentDate, pageIdx, PageCount(|data.dimensions|));
    Section(header.0, header.1, header.2,
      DrawingLine(data.drawingNumber), PartLine(data.partName),
      Table(Page(data.dimensions, pageIdx), reportIdx))
  }

  function ReportFor(data: DrawingData, currentDate: string, reportIdx: nat): ReportFile {
    var totalPages := PageCount(|data.dimensions|);
    ReportFile(FileName(data, reportIdx),
      seq(totalPages, p requires 0 <= p => SectionFor(data, currentDate, reportIdx, p)))
  }

  /** The specification of the whole generation run: one report per sample, in order. */
  function Reports(data: DrawingData, currentDate: string): seq<ReportFile> {
    seq(SampleCount, r requires 0 <= r => ReportFor(data, currentDate, r))
  }

  /**
   * The table of one page: the header row, one row per dimension pushed by
   * the `forEach`, then the padding loop.
   */
  method BuildTable(pageDimensions: seq<Dimension>, reportIdx: nat) returns (dataRows: seq<Row>)
    ensures dataRows == Table(pageDimensions, reportIdx)
  {
    dataRows := [HeaderRow];
    var i := 0;
    while i < |pageDimensions|
      invariant i <= |pageDimensions|
      invariant |dataRows| == i + 1 && dataRows[0] == HeaderRow
      invariant forall j :: 0 <= j < i ==> dataRows[j + 1] == DataRow(pageDimensions[j], reportIdx)
    {
      dataRows := dataRows + [DataRow(pageDimensions[i], reportIdx)];
      i := i + 1;
    }
    assert dataRows == [HeaderRow] + DataRows(pageDimensions, reportIdx);
    dataRows := PadTable(dataRows);
  }

  /**
   * The nested report and page loops, the row-building `forEach` and the
   * padding loop. `currentDate` stands for `new Date().toLocaleDateString('pl-PL')`;
   * the returned files stand for the documents passed to `saveAs`.
   */
  method GenerateCBMReports(data: DrawingData, currentDate: string) returns (files: seq<ReportFile>)
    ensures files == Reports(data, currentDate)
  {
    var totalDimensions := |data.dimensions|;
    var totalPages := PageCount(totalDimensions);
    files := [];
    var reportIdx := 0;
    while reportIdx < SampleCount
      invariant reportIdx <= SampleCount
      invariant |files| == reportIdx
      invariant forall r :: 0 <= r < reportIdx ==> files[r] == ReportFor(data, currentDate, r)
    {
      var sections := [];
      var pageIdx := 0;
      while pageIdx < totalPages
        invariant pageIdx <= totalPages
        invariant |sections| == pageIdx
        invariant forall p :: 0 <= p < pageIdx ==> sections[p] == SectionFor(data, currentDate, reportIdx, p)
      {
        var pageDimensions := Slice(data.dimensions, pageIdx * RowsPerPage, (pageIdx + 1) * RowsPerPage);
        var dataRows := BuildTable(pageDimensions, reportIdx);
        var header := PageHeader(reportIdx, currentDate, pageIdx, totalPages);
        var section := Section(header.0, header.1, header.2,
          DrawingLine(data.drawingNumber), PartLine(data.partName), dataRows);
        assert section == SectionFor(data, currentDate, reportIdx, pageIdx);
        sections := sections + [section];
        pageIdx := pageIdx + 1;
      }
      assert sections == ReportFor(data, currentDate, reportIdx).sections;
      files := files + [ReportFile(FileName(data, reportIdx), sections)];
      reportIdx := reportIdx + 1;
    }
    assert files == Reports(data, currentDate);
  }

  /**
   * Exactly SampleCount reports, report `r` under its own file name, each
   * with the same PageCount(n) pages in page order.
   */
  lemma ReportsShape(data: DrawingData, currentDate: string)
    ensures var files := Reports(data, currentDate);
            && |files| == SampleCount
            && forall r :: 0 <= r < SampleCount ==>
                 files[r].fileName == FileName(data, r) &&
                 |files[r].sections| == PageCount(|data.dimensions|) &&
                 forall p :: 0 <= p < |files[r].sections| ==> files[r].sections[p] == SectionFor(data, currentDate, r, p)
  {
  }

  /**
   * Every page's table has TableHeight rows: the header, the page's
   * dimensions in order, then at least one blank row; filled and blank rows
   * together are always RowsPerPage + 1.
   */
  lemma TableLayout(data: DrawingData, currentDate: string, reportIdx: nat, pageIdx: nat)
    requires pageIdx < PageCount(|data.dimensions|)
    ensures var table := SectionFor(data, currentDate, reportIdx, pageIdx).table;
            var filled := |Page(data.dimensions, pageIdx)|;
            && |table| == TableHeight
            && table[0] == HeaderRow
            && filled <= RowsPerPage
            && (forall j :: 1 <= j <= filled ==>
                  pageIdx * RowsPerPage + j - 1 < |data.dimensions| &&
                  table[j] == DataRow(data.dimensions[pageIdx * RowsPerPage + j - 1], reportIdx))
            && (forall j :: 1 + filled <= j < TableHeight ==> table[j] == BlankRow)
            && TableHeight - 1 - filled >= 1
  {
    var dims := data.dimensions;
    var page := Page(dims, pageIdx);
    PageSizes(dims, pageIdx);
    var rows := [HeaderRow] + DataRows(page, reportIdx);
    var table := Padded(rows);
    assert table[..|rows|] == rows;
    forall j | 1 <= j <= |page|
      ensures pageIdx * RowsPerPage + j - 1 < |dims|
      ensures table[j] == DataRow(dims[pageIdx * RowsPerPage + j - 1], reportIdx)
    {
      IndexOfPageEntry(dims, pageIdx, j - 1);
      assert table[j] == rows[j];
    }
  }

  /** Dimension `i` appears in every report on page `i / RowsPerPage`, table row `1 + i % RowsPerPage`. */
  lemma DimensionPlacement(data: DrawingData, currentDate: string, reportIdx: nat, i: nat)
    requires i < |data.dimensions|
    ensures i / RowsPerPage < PageCount(|data.dimensions|)
    ensures SectionFor(data, currentDate, reportIdx, i / RowsPerPage).table[1 + i % RowsPerPage]
            == DataRow(data.dimensions[i], reportIdx)
  {
    PageOfIndex(data.dimensions, i);
    TableLayout(data, currentDate, reportIdx, i / RowsPerPage);
    IndexOfPageEntry(data.dimensions, i / RowsPerPage, i % RowsPerPage);
  }

  /**
   * The three reports share one page layout: on every page, every table row
   * agrees across samples except in the supplier-result column, and the CBM
   * cell is empty in every row below the header.
   */
  lemma SamplesShareLayout(data: DrawingData, currentDate: string, r1: nat, r2: nat, pageIdx: nat)
    requires pageIdx < PageCount(|data.dimensions|)
    ensures var t1 := SectionFor(data, currentDate, r1, pageIdx).table;
            var t2 := SectionFor(data, currentDate, r2, pageIdx).table;
            && |t1| == |t2| == TableHeight
            && forall j :: 0 <= j < TableHeight ==>
                 t1[j].lp == t2[j].lp && t1[j].characteristic == t2[j].characteristic &&
                 (j > 0 ==> t1[j].cbmResult == "")
  {
    TableLayout(data, currentDate, r1, pageIdx);
    TableLayout(data, currentDate, r2, pageIdx);
  }

  /** A weld dimension reads "O.K." in every report, whatever results it carries. */
  lemma WeldRowsAccepted(data: DrawingData, currentDate: string, reportIdx: nat, i: nat)
    requires i < |data.dimensions| && data.dimensions[i].isWeld
    ensures SectionFor(data, currentDate, reportIdx, i / RowsPerPage).table[1 + i % RowsPerPage].supplierResult == "O.K."
  {
    DimensionPlacement(data, currentDate, reportIdx, i);
  }

  /** The three reports are written under three different file names. */
  lemma FileNamesDistinct(data: DrawingData, r1: nat, r2: nat)
    requires FileName(data, r1) == FileName(data, r2)
    ensures r1 == r2
  {
    var prefix := "RAPORT_CBM_" + Or(Some(data.drawingNumber), "PROJEKT") + "_PROBKA_";
    MiddleCancel(prefix, NatToString(r1 + 1), NatToString(r2 + 1), ".docx");
    NatToStringInjective(r1 + 1, r2 + 1);
  }

  /** Report `r` is numbered `r + 1` and its page `p` is labelled `p + 1 / totalPages`. */
  lemma ReportLabels(data: DrawingData, currentDate: string, reportIdx: nat, pageIdx: nat)
    requires reportIdx < SampleCount && pageIdx < PageCount(|data.dimensions|)
    ensures var s := Reports(data, currentDate)[reportIdx].sections[pageIdx];
            && s.reportNumber == LabelValue("Rap. Nr", NatToString(reportIdx + 1))
            && s.date == LabelValue("Data", currentDate)
            && s.page == LabelValue("Strona", NatToString(pageIdx + 1) + " / " + NatToString(PageCount(|data.dimensions|)))
            && ParseNat(s.reportNumber.value) == reportIdx + 1
  {
    ParseNatToString(reportIdx + 1);
  }
}
