# CBM inspection report layout and table export

A Dafny model of how the drawing-inspection tool lays out its quality-control
reports. It also models the tab-separated table it offers for pasting into a
word processor.

- **Report layout** (`generateCBMReports`). The repository has two diverging
  copies: services/reportGenerator.ts (module `ReportGenerator`) and
  services/services/reportGenerator.ts (module `NestedReportGenerator`).
  - Both produce three sample reports.
  - Each report cuts the ordered list of dimensions (balloon callouts) into
    pages of 23 rows.
  - Every page has a header ("Rap. Nr", "Data", "Strona p / total"), the
    drawing-number and part-name lines, and a data table. The table is padded
    with blank rows to a fixed height.
  - Each data row is Lp, characteristic, the supplier result for that sample,
    and an empty CBM column.
- **Shared parts.** Both copies use one model of the page count and page
  slicing (`Pagination`). They also share the table padding loop and the page
  header labels (`Layout`).
- **Imperative form.** Each generator is a method with the source's loops:
  the report loop, the page loop, the row-building `forEach` and the padding
  `while`. Each method is proved equal to a specification function,
  `Reports`. The properties are lemmas about that function.
- **Table export** (`formatDataForTable` in App.tsx, module `TableExport`).
  It writes one `balloonId<TAB>characteristic<TAB>result` line per dimension,
  joined by newlines. The result is the first sample's result, or "O.K." when
  that is missing or empty. The on-screen table uses the same rule.
- **JavaScript semantics** that the code relies on are written out in `Js`:
  `||` on strings, `?.[i]`, `slice`, `join`, and `toString` of a page or
  report number. `Js` also has a reference `split`, used to state how the
  exported text reads back.

## Behaviour worth knowing

- A weld row shows "O.K." in every report.
- In the reports, results are read as given: a sample with no result, or an
  empty one, shows as missing (an empty cell, or "ACCEPTED" for a GD&T row
  in the second copy). In the table export and the on-screen table, a
  missing or empty first result shows "O.K.".
- The two copies' header rows differ in the last cell: "Wynik KJ CBM" in
  the first, "Wynik KJ CBM Polska" in the second. Below the header, the CBM
  column is empty in both.
- The file names are `RAPORT_CBM_<drawing>_PROBKA_<n>.docx` (first copy)
  and `<drawing>_RAPORT_PRÓBKA_<n>.docx` (second copy).
- The padding loop (`while (dataRows.length <= ROWS_PER_PAGE + 1)`) fills a
  table to 25 rows: the header plus 24 data rows. So even a full page of 23
  dimensions ends with one blank row.
- The drawing data's own `reportDate` is never read. The date shown is the
  current date.

## Model

| member | source | states |
|---|---|---|
| `Pagination.PageCount` | services/reportGenerator.ts:20-22 | The page count is at least 1. It is exactly 1 for no dimensions. Otherwise it is the ceiling of n / 23: (k-1)·23 < n ≤ k·23. |
| `Pagination.PageContents` | services/reportGenerator.ts:29-33 | Page p, for p below the page count, starts inside the list. It is exactly `dimensions[23p .. min(23(p+1), n))`. |
| `Pagination.PageSizes` | services/reportGenerator.ts:29-33 | Every page has at most 23 rows. Every page but the last has exactly 23. The last page is non-empty unless there are no dimensions. |
| `Pagination.PageOfIndex` | services/services/reportGenerator.ts:15-19 | Dimension i is on page i / 23, at position i % 23, and that page is emitted. |
| `Pagination.IndexOfPageEntry` | services/services/reportGenerator.ts:15-19 | Position j of page p is dimension 23p + j. So positions and dimensions correspond one to one, and no dimension is on two pages. |
| `Pagination.PagesReassemble` | services/reportGenerator.ts:29-33 | Reading all pages in order reproduces the dimension list exactly. |
| `Pagination.FiftyRows` | services/reportGenerator.ts:20-33 | With 50 dimensions there are 3 pages, of 23, 23 and 4 rows. |
| `Js.Slice` | services/reportGenerator.ts:30-33 | `slice` with non-negative bounds: an in-range slice is the subsequence, bounds past the end are clamped, and a start past the end gives an empty page. |
| `Js.ResultOr` | services/reportGenerator.ts:121 | JavaScript's `or` of `results?.[i]` and a fallback: the i-th result if it exists and is non-empty, else the fallback. |
| `Js.NatToString` | services/reportGenerator.ts:73 | A number prints as a non-empty string of decimal digits, with no leading zero unless the number is 0. |
| `Js.ParseNatToString` | services/reportGenerator.ts:73 | Reading the printed digits back gives the number. |
| `Js.NatToStringInjective` | services/reportGenerator.ts:75 | Different numbers print differently. |
| `Js.SplitJoin` | App.tsx:54-56 | Splitting a `join(sep)` on `sep` gives back the parts, if there is at least one part and none contains `sep`. |
| `Layout.Padded` | services/reportGenerator.ts:135-139 | A table shorter than 25 rows becomes exactly 25 rows. The original rows stay in front, unchanged, and every added row is blank. A longer table is left as it is. |
| `Layout.PadTable` | services/services/reportGenerator.ts:133-137 | The padding `while` loop computes `Padded` of its input. |
| `Layout.PageLabelsDistinct` | services/reportGenerator.ts:75 | Two pages of one report never have the same "Strona" label. |
| `Layout.PageLabelReadsBack` | services/services/reportGenerator.ts:67 | The "Strona" label splits on spaces into the page number p+1, "/" and the page count. |
| `ReportGenerator.SupplierResult` | services/reportGenerator.ts:121-122 | A weld row gives "O.K." whatever its results. Otherwise the row gives `results[r]` if present and non-empty, else "". |
| `ReportGenerator.DrawingLine` | services/reportGenerator.ts:99 | "Nr rys. " followed by the drawing number, or by "N/A" when that is empty. |
| `ReportGenerator.PartLine` | services/reportGenerator.ts:100 | "Nazwa " followed by the part name, or by "Część" when that is empty. |
| `ReportGenerator.FileName` | services/reportGenerator.ts:158 | The file name is `RAPORT_CBM_<drawing number>_PROBKA_<r+1>.docx`. "PROJEKT" stands in for an empty drawing number. |
| `ReportGenerator.BuildTable` | services/reportGenerator.ts:108-139 | The header row, one pushed row per page dimension, and then the padding loop give `Padded([header] + data rows)`. |
| `ReportGenerator.GenerateCBMReports` | services/reportGenerator.ts:19-160 | The nested report, page and row loops produce exactly `Reports(data, date)`: the three reports with all their pages. |
| `ReportGenerator.ReportsShape` | services/reportGenerator.ts:26-33 | Exactly 3 reports, each with its own file name. Each has PageCount(n) pages, and page p is the section for page p. |
| `ReportGenerator.TableLayout` | services/reportGenerator.ts:108-139 | Every page table has 25 rows. Row 0 is the header. Rows 1..k are the page's dimensions in order, as data rows. Rows k+1..24 are blank, so there is at least one blank row. |
| `ReportGenerator.DimensionPlacement` | services/reportGenerator.ts:120-132 | In every report, dimension i is table row 1 + i % 23 on page i / 23. |
| `ReportGenerator.SamplesShareLayout` | services/reportGenerator.ts:124-131 | For any two samples, every row of a page agrees on Lp and characteristic. In every row below the header, the CBM cell is empty. |
| `ReportGenerator.WeldRowsAccepted` | services/reportGenerator.ts:122 | A weld dimension shows "O.K." where it appears, in every report. |
| `ReportGenerator.FileNamesDistinct` | services/reportGenerator.ts:158 | The reports' file names are pairwise distinct. |
| `ReportGenerator.ReportLabels` | services/reportGenerator.ts:73-75 | Report r's pages carry "Rap. Nr" r+1 (which reads back as r+1), the given date, and "Strona" "p+1 / total". |
| `NestedReportGenerator.SupplierResult` | services/services/reportGenerator.ts:115-117 | Weld gives "O.K.". Otherwise a non-empty `results[r]` is kept unchanged. Otherwise a GD&T row gives "ACCEPTED" and any other row gives "". |
| `NestedReportGenerator.SupplierResultVersusFirstCopy` | services/services/reportGenerator.ts:115-117 | The two copies' results differ exactly for a non-weld GD&T row with a missing or empty result. Then this copy shows "ACCEPTED" and the first shows "". |
| `NestedReportGenerator.DrawingLine` | services/services/reportGenerator.ts:93 | The drawing number is printed verbatim after "Nr rys.  ", with no fallback. |
| `NestedReportGenerator.PartLine` | services/services/reportGenerator.ts:94 | The part name is printed verbatim after "Nazwa części  ", with no fallback. |
| `NestedReportGenerator.FileName` | services/services/reportGenerator.ts:207 | The file name is the drawing number as it is (no stand-in, even when empty), then `_RAPORT_PRÓBKA_`, then r+1, then `.docx`. |
| `NestedReportGenerator.BuildTable` | services/services/reportGenerator.ts:102-137 | The header row, one pushed row per page dimension, and then the padding loop give `Padded([header] + data rows)`. |
| `NestedReportGenerator.GenerateCBMReports` | services/services/reportGenerator.ts:6-209 | The nested loops produce exactly `Reports(data, date)` for this copy. |
| `NestedReportGenerator.ReportsShape` | services/services/reportGenerator.ts:12-19 | Exactly 3 reports, each with its own file name and PageCount(n) pages in page order. |
| `NestedReportGenerator.TableLayout` | services/services/reportGenerator.ts:102-137 | Every page table has 25 rows: the header, the page's dimensions in order, then at least one blank row. |
| `NestedReportGenerator.DimensionPlacement` | services/services/reportGenerator.ts:114-131 | In every report, dimension i is table row 1 + i % 23 on page i / 23. |
| `NestedReportGenerator.SameLayoutAsFirstCopy` | services/services/reportGenerator.ts:114-131 | Both copies' tables start with their own header row, which differ in the CBM cell ("Wynik KJ CBM" against "Wynik KJ CBM Polska"). In every row below the header they agree on Lp, characteristic and the CBM cell, and the supplier results differ only by "" versus "ACCEPTED". |
| `NestedReportGenerator.SamplesShareLayout` | services/services/reportGenerator.ts:119-130 | For any two samples, every row of a page agrees on Lp and characteristic. In every row below the header, the CBM cell is empty. |
| `NestedReportGenerator.WeldRowsAccepted` | services/services/reportGenerator.ts:116 | A weld dimension shows "O.K." in every report, even when it is also GD&T. |
| `NestedReportGenerator.FileNamesDistinct` | services/services/reportGenerator.ts:207 | The `<drawing>_RAPORT_PRÓBKA_<r+1>.docx` names of the reports are pairwise distinct. |
| `NestedReportGenerator.ReportLabels` | services/services/reportGenerator.ts:65-67 | Report r's pages carry "Rap. Nr" r+1, the given date, and "Strona" "p+1 / total". |
| `TableExport.DisplayedResult` | App.tsx:177 | The shown result is `results[0]` when present and non-empty, else "O.K.". |
| `TableExport.FormatDataForTable` | App.tsx:52-57 | With no drawing loaded, or with no dimensions, the export is "". |
| `TableExport.LineReadsBack` | App.tsx:55 | With no tabs or newlines in the fields, a line has no newline and splits on tabs into exactly balloon id, characteristic and result. |
| `TableExport.ExportLines` | App.tsx:54-56 | With at least one dimension and plain fields, the export splits on newlines into one line per dimension, in order, with no trailing newline. |
| `TableExport.ExportMatchesScreen` | App.tsx:155-179 | Reading the export back as Lp / Charakterystyka / Wynik cells gives exactly the rows of the on-screen table. |
| `TableExport.ExportIgnoresOtherFields` | App.tsx:55 | A line depends only on the balloon id, the characteristic and the first result. The weld/GD&T flags and results[1], results[2] never matter. |

## Left out

- Building the document (docx tables, paragraphs, fonts, widths, shading, margins, borders) is a foreign library. A page is modelled as a record: the three label/value pairs, the two metadata lines, and rows of four cells.
- The ": " that `createLabelValue` appends to each label is part of the document formatting. A `LabelValue` keeps the label and the value as the caller passes them.
- Static boilerplate text is not modelled: the company codes, titles, the "Nowa część" line, the footer decision table and the signature lines. None of it depends on the input.
- `Packer.toBlob` and `saveAs` (asynchronous serialisation and the download) are I/O. Only the file name and the ordered pages of each report are modelled.
- `new Date().toLocaleDateString('pl-PL')` depends on the clock and the locale. It is an input string, `currentDate`.
- `Math.ceil(n / 23)` is floating-point in the source. It is modelled as integer ceiling, which agrees for any list length below 2^53.
- In services/services/reportGenerator.ts, `dim.results[reportIdx]` throws when `results` is absent. The data model always carries a (possibly empty) results sequence, so that throw is not modelled.
- `undefined` interpolated into a template string (for example, a missing drawing number in the second copy's file name) is not modelled: every text field is a string.
- Fields of `Dimension` and `DrawingData` that the modelled code never reads are not represented: `nominal`, `upperTol`, `lowerTol`, `unit` and `reportDate`.
- services/gemini.ts (the call to the vision model and parsing its answer) and vite.config.ts are not part of this model.
- The rest of App.tsx is not modelled: React state, file reading, the clipboard, alerts and the API-key check.
