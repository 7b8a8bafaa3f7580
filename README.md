# Balance wheel: ledger, date stamp and spreadsheet layout

A Dafny model of the logic inside the balance-wheel component
(`src/components/BalanceWheel.tsx`): a self-assessment over a list of life
categories, each with a "current" and a "future" rating (1–10) and note,
exported as a PDF snapshot and as a spreadsheet.

- `ledger.dfy` (module `CategoryLedger`): the five index-aligned state arrays
  (`categories`, `currentValues`, `currentText`, `futureValues`, `futureText`)
  as one `Ledger` value, and every handler as a function from one state to the
  next. React batches the setter calls of one handler, so each handler is one
  atomic step. `Entries` reads the five arrays as one sequence of `Category`
  records; the lemmas show that every handler acts on that sequence as one
  record operation. `Run` replays any sequence of user events.
- `component.dfy` (module `Component`): the component instance as a class with
  the five state slots, one method per handler, each committing all five slots
  together.
- `datestamp.dfy` (module `DateStamp`): `getFormattedDate` as a pure function
  of year, month and day. `String(n)` is `DecimalString`, `padStart` is
  `PadStart`. Also the two export file names and `savePDF`.
- `worksheet.dfy` (module `Sheet`): the worksheet features the export uses.
  Rows are a map from row number to cells. `insertRow` shifts the rows at or
  below its position down by one (`ShiftDown`). `eachCell` visits the
  non-empty cells of a row in a loop.
- `export.dfy` (module `ExcelExport`): the table section of `exportToExcel`.
  The header loop writes row 47. The data loop inserts category `i` at row
  `48 + i` and borders its cells. `TableRows` is the resulting worksheet
  content, and the lemmas state its placement and formatting.

The table header is at the literal row 47. It is not computed from the image
height. There are no name/age/date metadata rows, and the image is anchored at
column 0, row 0.

## Model

| member | source | states |
|---|---|---|
| `CategoryLedger.Filled` | src/components/BalanceWheel.tsx:62-65 | `new Array(n).fill(x)` has length `n` and every element is `x`. |
| `CategoryLedger.Initial` | src/components/BalanceWheel.tsx:58-65 | The initial state has eight aligned entries: the predefined labels, every rating 5, every note empty, all ratings within [1,10]. |
| `CategoryLedger.Without` | src/components/BalanceWheel.tsx:95-101 | `filter((_, i) => i !== index)` keeps every element except the one at `index`, in order (`s[..index] + s[index+1..]`). An index that is not a position removes nothing. |
| `CategoryLedger.HandleCategoryChange` | src/components/BalanceWheel.tsx:81-85 | For an in-range index, the label array keeps its length, the slot holds the new text, every other slot is unchanged, and the other four arrays are untouched. |
| `CategoryLedger.HandleSliderChange` | src/components/BalanceWheel.tsx:69-73 | For an in-range index, the chosen series' rating array keeps its length, the slot holds the new value, the other slots are unchanged, and the other four arrays are untouched. |
| `CategoryLedger.HandleTextChange` | src/components/BalanceWheel.tsx:75-79 | For an in-range index, the chosen series' note array keeps its length, the slot holds the new text, the other slots are unchanged, and the other four arrays are untouched. |
| `CategoryLedger.AddCategory` | src/components/BalanceWheel.tsx:87-93 | Each of the five arrays grows by exactly one, with its earlier entries unchanged. The new last entries are `"新しいカテゴリ"`, 5, `""`, 5, `""`. |
| `CategoryLedger.RemoveCategory` | src/components/BalanceWheel.tsx:95-101 | Aligned arrays stay aligned. An in-range index shrinks the ledger by one. An out-of-range index leaves the labels unchanged. |
| `CategoryLedger.AddCategoryAppends` | src/components/BalanceWheel.tsx:87-93 | Read as a sequence of category records, adding a category appends one default record. |
| `CategoryLedger.RemoveCategoryRemovesEntry` | src/components/BalanceWheel.tsx:95-101 | Filtering all five arrays at one index is filtering the record sequence at that index, so index `i` names the same category in all five arrays. |
| `CategoryLedger.RemoveCategoryShifts` | src/components/BalanceWheel.tsx:95-101 | Deleting position `k` keeps the records before `k` in place and moves every record after `k` up one position with all five values. |
| `CategoryLedger.RemoveCategoryOutOfRange` | src/components/BalanceWheel.tsx:95-101 | Deleting a position that does not exist leaves the whole ledger unchanged. |
| `CategoryLedger.EditsChangeOneEntry` | src/components/BalanceWheel.tsx:69-85 | Each edit handler changes exactly one field of one record in the record sequence. |
| `CategoryLedger.RemoveThirdOfInitial` | src/components/BalanceWheel.tsx:58-65 | Deleting index 3 of the initial ledger leaves 7 categories. The category formerly at 4 ("人間関係") is now at 3 with the same values. |
| `CategoryLedger.RemoveCategoryKeepsRatings` | src/components/BalanceWheel.tsx:95-101 | Deleting a category keeps every remaining rating within [1,10]. |
| `CategoryLedger.Apply` | src/components/BalanceWheel.tsx:69-101 | Any handler on an event the interface can produce keeps the arrays aligned and keeps every rating in [1,10]. Slider values come from `min={1} max={10}` (:249-254). |
| `CategoryLedger.Run` | src/components/BalanceWheel.tsx:58-101 | After any admissible sequence of edits, appends and deletes, the five arrays have equal length and ratings stay in range. |
| `CategoryLedger.SessionKeepsInvariants` | src/components/BalanceWheel.tsx:58-101 | Starting from the initial state, every reachable state is aligned with all ratings in [1,10]. |
| `Component.RadarChartComparison.constructor` | src/components/BalanceWheel.tsx:58-65 | The five state slots start as the initial ledger and satisfy the invariant. |
| `Component.RadarChartComparison.Commit` | src/components/BalanceWheel.tsx:87-101 | The batched setter calls of one handler replace all five slots at once. |
| `Component.RadarChartComparison.OnCategoryChange` | src/components/BalanceWheel.tsx:81-85 | The new state is `HandleCategoryChange` of the old one, and the invariant is kept. |
| `Component.RadarChartComparison.OnSliderChange` | src/components/BalanceWheel.tsx:69-73 | The new state is `HandleSliderChange` of the old one. Given a slider value in [1,10], the invariant is kept. |
| `Component.RadarChartComparison.OnTextChange` | src/components/BalanceWheel.tsx:75-79 | The new state is `HandleTextChange` of the old one, and the invariant is kept. |
| `Component.RadarChartComparison.OnAddCategory` | src/components/BalanceWheel.tsx:87-93 | The new state is `AddCategory` of the old one: one more category, invariant kept. |
| `Component.RadarChartComparison.OnRemoveCategory` | src/components/BalanceWheel.tsx:95-101 | The new state is `RemoveCategory` of the old one. An in-range index shrinks the ledger by one. An out-of-range index changes nothing. |
| `DateStamp.DecimalString` | src/components/BalanceWheel.tsx:51-53 | `String(n)` is a non-empty digit string without a leading zero (unless n is 0) whose value is `n`. |
| `DateStamp.DecimalLength` | src/components/BalanceWheel.tsx:51-53 | `String(n)` has 1, 2, 3 or 4 characters for n below 10, 100, 1000 and 10000 respectively. |
| `DateStamp.PadStart` | src/components/BalanceWheel.tsx:52-53 | `padStart(width, fill)` gives length max(len, width) and ends with the original string. Only fill characters come before it. |
| `DateStamp.LeadingZero` | src/components/BalanceWheel.tsx:52-53 | A leading `'0'` does not change a digit string's value. |
| `DateStamp.ZerosInFront` | src/components/BalanceWheel.tsx:52-53 | Leading zeros in front of a digit string keep it numeric and keep its value. |
| `DateStamp.ZeroPadKeepsValue` | src/components/BalanceWheel.tsx:52-53 | Zero-padding keeps a digit string numeric and keeps its value. |
| `DateStamp.TwoDigits` | src/components/BalanceWheel.tsx:52-53 | Month and day (below 100), zero-padded to two places, are exactly two digits with the original value. |
| `DateStamp.FormattedDate` | src/components/BalanceWheel.tsx:49-55 | For a four-digit year, month 1–12 and day 1–31, the stamp has 8 digits. Reading back its parts (4+2+2) gives the year, month and day. |
| `DateStamp.FormattedDateInjective` | src/components/BalanceWheel.tsx:49-55 | Different dates never share a stamp. |
| `DateStamp.StampParts` | src/components/BalanceWheel.tsx:49-55 | Joining a 4-digit year and two 2-digit fields gives an 8-digit stamp that parses back to the three values. |
| `DateStamp.Year2025` | src/components/BalanceWheel.tsx:51-54 | The year 2025 written in decimal in the stamp is `"2025"`. |
| `DateStamp.SeventhOfJanuary2025` | src/components/BalanceWheel.tsx:49-55 | 7 January 2025 is stamped `"20250107"`. |
| `DateStamp.PdfFileName` | src/components/BalanceWheel.tsx:132 | On a valid date the PDF name is `バランスホイール_`, then eight digits that read back as that date, then `.pdf`. |
| `DateStamp.XlsxFileName` | src/components/BalanceWheel.tsx:209 | On a valid date the spreadsheet name is `バランスホイール_`, then eight digits that read back as that date, then `.xlsx`. |
| `DateStamp.FileNamesShareDateStamp` | src/components/BalanceWheel.tsx:132 | The PDF name and the spreadsheet name (:209) of one day agree on the prefix and the eight date digits, and differ only in the extension. |
| `DateStamp.SavePdf` | src/components/BalanceWheel.tsx:124-136 | The PDF is saved only when the capture region is mounted. On a valid date its name equals the spreadsheet name of the same day up to the `.pdf` extension. |
| `ExcelExport.HeaderOver` | src/components/BalanceWheel.tsx:170-185 | After the header loop, cell `i+1` of the header row is column `i`'s header with the fill and thin border. Later cells are kept. |
| `ExcelExport.DataValuesCoverColumns` | src/components/BalanceWheel.tsx:189-195 | The object handed to `insertRow` has every declared column's key, and the five keys map to index `i` of the five arrays in column order. |
| `ExcelExport.DataRow` | src/components/BalanceWheel.tsx:188-204 | Category `i`'s row is, in column order, its label, current rating, current note, future rating and future note. Each cell has a thin border on all four sides and no fill. |
| `ExcelExport.InsertCategory` | src/components/BalanceWheel.tsx:188-204 | One round of the data loop inserts category `i`'s row at `48+i` with the thin border, taking the sheet from `i` placed categories to `i+1`. |
| `ExcelExport.WithDataRowsAt` | src/components/BalanceWheel.tsx:188-195 | After the first `n` categories are placed, exactly rows 48..47+n are added, row `48+i` holds category `i`'s row, and every other row is unchanged. |
| `ExcelExport.TableRows` | src/components/BalanceWheel.tsx:160-205 | The finished table occupies exactly rows 47..47+n: the header row at 47 and category `i`'s row at `48+i`. |
| `ExcelExport.InsertStep` | src/components/BalanceWheel.tsx:188-204 | One round of the data loop appends category `i`'s bordered row at `48+i` without moving any earlier row. |
| `ExcelExport.HeaderStep` | src/components/BalanceWheel.tsx:171-185 | One round of the header loop turns the row with `i` header cells into the row with `i+1`. |
| `ExcelExport.WriteHeaderRow` | src/components/BalanceWheel.tsx:170-186 | The header loop over the declared columns turns row 47 into the header row and changes no other row. |
| `ExcelExport.InsertDataRows` | src/components/BalanceWheel.tsx:188-205 | The insert loop over the categories (insertRow at `48+i`, then border every cell) ends with exactly the rows of `WithDataRows`. No earlier row moves, because nothing lies below row 47. |
| `ExcelExport.ExportToExcel` | src/components/BalanceWheel.tsx:138-209 | The built worksheet has the five columns and the table rows. It holds an image anchored at (0,0) exactly when the region is mounted, and the image does not change the rows. The file name is the dated `.xlsx` name. |
| `ExcelExport.TablePlacement` | src/components/BalanceWheel.tsx:160-195 | The worksheet rows are exactly 47..47+n. Row 47 holds the five headers in order (カテゴリ, 現在の満足度, 現在のコメント, 未来の満足度, 未来のコメント). Row `48+i` holds index `i` of the five arrays, so data rows are distinct, in ledger order, and never overwrite row 47. |
| `ExcelExport.FormattingIsFixed` | src/components/BalanceWheel.tsx:162-204 | The header row is the same for every ledger. Every header cell has solid fill `FFCCE5FF` and four thin edges. Every data cell has four thin edges. Column widths are 20, 15, 30, 15, 30. |
| `ExcelExport.TwoCategoryTable` | src/components/BalanceWheel.tsx:188-195 | With current ratings [5,7], the rows are 47, 48, 49, and rows 48 and 49 hold categories 0 and 1 in that order. |
| `Sheet.SetCellIn` | src/components/BalanceWheel.tsx:172-184 | Setting cell `col` of a row puts the cell at `col`, grows the row with empty cells when needed, and keeps every other cell. |
| `Sheet.RowFromKeys` | src/components/BalanceWheel.tsx:189-195 | A row built from a keyed object puts in column `j` the value under column `j`'s key, or nothing. |
| `Sheet.WithBorder` | src/components/BalanceWheel.tsx:197-204 | `eachCell` gives every non-empty cell the border and keeps values and fills. Empty cells are skipped. |
| `Sheet.ShiftDown` | src/components/BalanceWheel.tsx:189 | `insertRow(pos)` puts the new row at `pos`. Rows above `pos` keep their number, and a row at `k >= pos` moves to `k+1`. |
| `Sheet.ShiftDownPastEnd` | src/components/BalanceWheel.tsx:189 | With no row at or below `pos`, inserting only adds the new row. |
| `Sheet.Worksheet.InsertRow` | src/components/BalanceWheel.tsx:189-195 | The rows become `ShiftDown` of the old rows with the keyed row at `pos`. |
| `Sheet.Worksheet.EachCellSetBorder` | src/components/BalanceWheel.tsx:197-204 | The loop over the cells of one row leaves that row as `WithBorder` of the old one and changes no other row. |
| `Sheet.Worksheet.constructor` | src/components/BalanceWheel.tsx:140 | `addWorksheet(name)` gives a fresh sheet with this name and no columns, rows or images. |
| `Sheet.Worksheet.GetRow` | src/components/BalanceWheel.tsx:170 | `getRow(r)` is the stored row when row `r` exists, and an empty row otherwise. |
| `Sheet.Worksheet.SetCell` | src/components/BalanceWheel.tsx:172-184 | One cell of one row is replaced and nothing else changes. |
| `Sheet.Worksheet.AddImage` | src/components/BalanceWheel.tsx:154-157 | `addImage` appends the image's top-left anchor to the worksheet's images and changes nothing else. |
| `Sheet.Worksheet.SetColumns` | src/components/BalanceWheel.tsx:162-168 | Assigning `columns` records exactly the given column definitions (widths, keys, headers) and leaves the rows and images as they were. |

## Left out

- The clock (`new Date()`, line 50): year, month and day are parameters. Years are non-negative. The 8-character property holds for four-digit years.
- html2canvas capture, the jsPDF page size and `addImage`, and the image's drawn size (`canvas.width * 0.75`, floating point). Only whether the capture region is mounted is modelled (`mounted`). The image is an anchor (0,0) in the worksheet.
- Serialisation and saving (`writeBuffer`, `Blob`, `saveAs`, `pdf.save`). The model returns the worksheet and the file name.
- The success snackbar and its 2000 ms auto-hide, chart registration, the Radar data/options objects, all rendering, and `Header.tsx` (dialog toggles only).
- `async`/`await` and overlapping exports.
- `ExcelExport.ExportToExcel`: assigning `worksheet.columns` with `header` fields also writes the headers into row 1 in the spreadsheet library. The model's `SetColumns` records the columns only, so the proven row set (47..47+n) does not include that library-side row 1.
- `Sheet.Worksheet.SetColumns`: does not write the header copy into row 1 that the spreadsheet library writes when columns carry `header` fields; see the line above.
- `ExcelExport.InsertDataRows`: proved for a worksheet with no row below 47, which is the state the export is in at that point. Insertion into a sheet with rows below 47 is covered by `ShiftDown` but not by this method.
- The code sets no font or alignment; the model's cells carry only value, fill and border. The `commit()` call on the header row is left out. `commit` has no effect outside streaming writers.
- Edit handlers require an in-range index. In JavaScript a write at or past the end grows the array, leaving holes when it is past the end; a negative index adds a property and leaves the elements unchanged. The interface makes neither kind of write.
- The slider is assumed to yield only whole values in [1,10].
