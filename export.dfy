/** The spreadsheet export: the worksheet is created, the captured image
    (when the capture region is mounted) is anchored at the top-left, the
    five columns are declared, the header row is written at the fixed row
    47, and one row per category is inserted below it in ledger order. */
module ExcelExport {
  import opened CategoryLedger
  import opened Sheet
  import opened DateStamp

  const SheetName: string := "バランスホイール"
  /** `dataStartRow`: the row of the table header. */
  const DataStartRow: int := 47
  /** Solid fill of every header cell. */
  const HeaderFill: Fill := SolidFill("FFCCE5FF")
  /** The image's top-left anchor `tl: { col: 0, row: 0 }`. */
  const ImageAnchor: Anchor := Anchor(0, 0)

  /** The five columns, in order, with their keys and widths. */
  const Columns: seq<Column> := [
    Column("カテゴリ", "category", 20),
    Column("現在の満足度", "currentValue", 15),
    Column("現在のコメント", "currentComment", 30),
    Column("未来の満足度", "futureValue", 15),
    Column("未来のコメント", "futureComment", 30)
  ]

  /** A header cell as the header loop leaves it. */
  function HeaderCell(col: Column): Cell {
    Cell(Str(col.header), HeaderFill, ThinBorder)
  }

  /** `row` with its first `|cols|` cells made the header cells of `cols`;
      later cells are kept. */
  function HeaderOver(row: Row, cols: seq<Column>): (r: Row)
    ensures |r| == if |row| >= |cols| then |row| else |cols|
    ensures forall c :: 0 <= c < |cols| ==> r[c] == HeaderCell(cols[c])
    ensures forall c :: |cols| <= c < |row| ==> r[c] == row[c]
  {
    seq(if |row| >= |cols| then |row| else |cols|, c requires 0 <= c < (if |row| >= |cols| then |row| else |cols|) =>
      if c < |cols| then HeaderCell(cols[c]) else row[c])
  }

  /** The object literal handed to `insertRow` for category `i`. */
  function DataValues(l: Ledger, i: nat): map<string, CellValue>
    requires l.Aligned() && i < l.Size()
  {
    map[
      "category" := Str(l.categories[i]),
      "currentValue" := Num(l.currentValues[i]),
      "currentComment" := Str(l.currentText[i]),
      "futureValue" := Num(l.futureValues[i]),
      "futureComment" := Str(l.futureText[i])
    ]
  }

  /** The object handed to `insertRow` has every declared column's key,
      and each key holds index `i` of the array that column shows. */
  lemma DataValuesCoverColumns(l: Ledger, i: nat)
    requires l.Aligned() && i < l.Size()
    ensures forall c :: 0 <= c < |Columns| ==> Columns[c].key in DataValues(l, i)
    ensures var r := DataValues(l, i);
      r[Columns[0].key] == Str(l.categories[i]) && r[Columns[1].key] == Num(l.currentValues[i]) &&
      r[Columns[2].key] == Str(l.currentText[i]) && r[Columns[3].key] == Num(l.futureValues[i]) &&
      r[Columns[4].key] == Str(l.futureText[i])
  {
  }

  /** Category `i`'s row once inserted and bordered: its label, current
      rating, current note, future rating and future note, in column order,
      each with a thin border on all four sides. */
  function DataRow(l: Ledger, i: nat): (r: Row)
    requires l.Aligned() && i < l.Size()
    ensures r == [
        Cell(Str(l.categories[i]), NoFill, ThinBorder),
        Cell(Num(l.currentValues[i]), NoFill, ThinBorder),
        Cell(Str(l.currentText[i]), NoFill, ThinBorder),
        Cell(Num(l.futureValues[i]), NoFill, ThinBorder),
        Cell(Str(l.futureText[i]), NoFill, ThinBorder)
      ]
  {
    WithBorder(RowFromKeys(Columns, DataValues(l, i)), ThinBorder)
  }

  /** `base` with the rows of the first `n` categories placed at
      `DataStartRow + 1 + i`. */
  function WithDataRows(base: map<int, Row>, l: Ledger, n: nat): map<int, Row>
    requires l.Aligned() && n <= l.Size()
  {
    if n == 0 then base
    else WithDataRows(base, l, n - 1)[DataStartRow + n := DataRow(l, n - 1)]
  }

  /** Placing the first `n` categories adds exactly rows `48 .. 47 + n`,
      puts category `i` at row `48 + i`, and keeps every other row. */
  lemma {:induction false} WithDataRowsAt(base: map<int, Row>, l: Ledger, n: nat)
    requires l.Aligned() && n <= l.Size()
    ensures forall k :: k in WithDataRows(base, l, n) <==> k in base || DataStartRow + 1 <= k < DataStartRow + 1 + n
    ensures forall k :: k in base && !(DataStartRow + 1 <= k < DataStartRow + 1 + n) ==> WithDataRows(base, l, n)[k] == base[k]
    ensures forall i :: 0 <= i < n ==> WithDataRows(base, l, n)[DataStartRow + 1 + i] == DataRow(l, i)
  {
    if n > 0 {
      WithDataRowsAt(base, l, n - 1);
    }
  }

  /** The rows of the exported worksheet: the header row and one row per
      category. */
  function TableRows(l: Ledger): (rows: map<int, Row>)
    requires l.Aligned()
    ensures forall k :: k in rows <==> DataStartRow <= k <= DataStartRow + l.Size()
    ensures DataStartRow in rows && rows[DataStartRow] == HeaderOver([], Columns)
    ensures forall i :: 0 <= i < l.Size() ==> rows[DataStartRow + 1 + i] == DataRow(l, i)
  {
    WithDataRowsAt(map[DataStartRow := HeaderOver([], Columns)], l, l.Size());
    WithDataRows(map[DataStartRow := HeaderOver([], Columns)], l, l.Size())
  }

  /** The header loop: `getRow(dataStartRow)`, then for every declared
      column `i` the cell `i + 1` gets the column's header, the fill and the
      thin border. */
  method WriteHeaderRow(ws: Worksheet)
    modifies ws`rows
    ensures ws.rows == if ws.columns == [] then old(ws.rows)
      else old(ws.rows)[DataStartRow := HeaderOver(old(ws.GetRow(DataStartRow)), ws.columns)]
  {
    var orig := ws.GetRow(DataStartRow);
    var i := 0;
    while i < |ws.columns|
      invariant 0 <= i <= |ws.columns|
      invariant i == 0 ==> ws.rows == old(ws.rows)
      invariant i > 0 ==> ws.rows == old(ws.rows)[DataStartRow := HeaderOver(orig, ws.columns[..i])]
    {
      HeaderStep(orig, ws.columns, i);
      ws.SetCell(DataStartRow, i + 1, HeaderCell(ws.columns[i]));
      i := i + 1;
    }
    assert ws.columns[..|ws.columns|] == ws.columns;
  }

  /** One round of the header loop turns the row with `i` header cells into
      the row with `i + 1`. */
  lemma HeaderStep(orig: Row, cols: seq<Column>, i: nat)
    requires i < |cols|
    ensures SetCellIn(if i == 0 then orig else HeaderOver(orig, cols[..i]), i + 1, HeaderCell(cols[i]))
      == HeaderOver(orig, cols[..i + 1])
  {
    var before := if i == 0 then orig else HeaderOver(orig, cols[..i]);
    var after := SetCellIn(before, i + 1, HeaderCell(cols[i]));
    var want := HeaderOver(orig, cols[..i + 1]);
    assert |after| == |want|;
    forall c | 0 <= c < |want|
      ensures after[c] == want[c]
    {
      if c < i {
        assert cols[..i + 1][c] == cols[..i][c];
      }
    }
  }

  /** The data loop: for every category `i`, `insertRow(dataStartRow + 1 +
      i, ...)`, then the thin border on each cell of the new row. Nothing
      lies below the header yet, so no insertion moves an earlier row. */
  method InsertDataRows(ws: Worksheet, l: Ledger)
    requires l.Aligned() && ws.columns == Columns
    requires forall k :: k in ws.rows ==> k <= DataStartRow
    modifies ws`rows
    ensures ws.rows == WithDataRows(old(ws.rows), l, l.Size())
  {
    var i := 0;
    while i < |l.categories|
      invariant 0 <= i <= l.Size()
      invariant ws.rows == WithDataRows(old(ws.rows), l, i)
    {
      InsertCategory(ws, l, i, old(ws.rows));
      i := i + 1;
    }
  }

  /** One round of the data loop: `insertRow(dataStartRow + 1 + i, ...)`
      for category `i`, then the thin border on each cell of the new row. */
  method InsertCategory(ws: Worksheet, l: Ledger, i: nat, ghost base: map<int, Row>)
    requires l.Aligned() && i < l.Size() && ws.columns == Columns
    requires forall k :: k in base ==> k <= DataStartRow
    requires ws.rows == WithDataRows(base, l, i)
    modifies ws`rows
    ensures ws.rows == WithDataRows(base, l, i + 1)
  {
    var pos := DataStartRow + 1 + i;
    InsertStep(base, l, i);
    ws.InsertRow(pos, DataValues(l, i));
    ws.EachCellSetBorder(pos, ThinBorder);
  }

  /** One round of the data loop: inserting category `i`'s row past the
      last row and bordering it yields the rows of the first `i + 1`
      categories. */
  lemma InsertStep(base: map<int, Row>, l: Ledger, i: nat)
    requires l.Aligned() && i < l.Size()
    requires forall k :: k in base ==> k <= DataStartRow
    ensures var pos := DataStartRow + 1 + i;
      var inserted := ShiftDown(WithDataRows(base, l, i), pos, RowFromKeys(Columns, DataValues(l, i)));
      pos in inserted && inserted[pos := WithBorder(inserted[pos], ThinBorder)] == WithDataRows(base, l, i + 1)
  {
    var pos := DataStartRow + 1 + i;
    var rows := WithDataRows(base, l, i);
    var row := RowFromKeys(Columns, DataValues(l, i));
    RowsEndAbove(base, l, i);
    ShiftDownPastEnd(rows, pos, row);
    assert WithDataRows(base, l, i + 1) == rows[pos := DataRow(l, i)];
  }

  /** Before round `i` of the data loop no row lies past row `47 + i`. */
  lemma RowsEndAbove(base: map<int, Row>, l: Ledger, i: nat)
    requires l.Aligned() && i <= l.Size()
    requires forall k :: k in base ==> k <= DataStartRow
    ensures forall k :: k in WithDataRows(base, l, i) ==> k < DataStartRow + 1 + i
  {
    WithDataRowsAt(base, l, i);
  }

  /** `exportToExcel()` up to serialisation: the worksheet it builds and
      the name it saves under. The image is present exactly when the
      capture region is mounted and does not change the table. */
  method ExportToExcel(l: Ledger, mounted: bool, year: nat, month: nat, day: nat)
    returns (ws: Worksheet, fileName: string)
    requires l.Aligned()
    ensures fresh(ws) && ws.name == SheetName && ws.columns == Columns
    ensures ws.images == if mounted then [ImageAnchor] else []
    ensures ws.rows == TableRows(l)
    ensures fileName == XlsxFileName(year, month, day)
  {
    ws := new Worksheet(SheetName);
    if mounted {
      ws.AddImage(ImageAnchor);
    }
    ws.SetColumns(Columns);
    WriteHeaderRow(ws);
    InsertDataRows(ws, l);
    fileName := XlsxFileName(year, month, day);
  }

  /** The placement of the table: the header at row 47 with the five
      headers in column order, category `i` at row `48 + i` with the values
      at index `i` of the five arrays, and no other row. */
  lemma TablePlacement(l: Ledger)
    requires l.Aligned()
    ensures forall k :: k in TableRows(l) <==> DataStartRow <= k <= DataStartRow + l.Size()
    ensures |TableRows(l)[DataStartRow]| == 5
    ensures forall c :: 0 <= c < 5 ==> TableRows(l)[DataStartRow][c].value == Str(Columns[c].header)
    ensures forall i :: 0 <= i < l.Size() ==>
      TableRows(l)[DataStartRow + 1 + i] == DataRow(l, i) &&
      TableRows(l)[DataStartRow + 1 + i][0].value == Str(l.categories[i]) &&
      TableRows(l)[DataStartRow + 1 + i][1].value == Num(l.currentValues[i]) &&
      TableRows(l)[DataStartRow + 1 + i][2].value == Str(l.currentText[i]) &&
      TableRows(l)[DataStartRow + 1 + i][3].value == Num(l.futureValues[i]) &&
      TableRows(l)[DataStartRow + 1 + i][4].value == Str(l.futureText[i])
  {
  }

  /** Formatting does not depend on the ledger: the header row is the same
      for every ledger, every header cell has the solid fill and four thin
      edges, every data cell has four thin edges and no fill, and the widths
      are 20, 15, 30, 15, 30. */
  lemma FormattingIsFixed(l1: Ledger, l2: Ledger)
    requires l1.Aligned() && l2.Aligned()
    ensures TableRows(l1)[DataStartRow] == TableRows(l2)[DataStartRow]
    ensures forall c :: 0 <= c < |TableRows(l1)[DataStartRow]| ==>
      TableRows(l1)[DataStartRow][c].fill == SolidFill("FFCCE5FF") &&
      TableRows(l1)[DataStartRow][c].border == Border(Thin, Thin, Thin, Thin)
    ensures forall i, c :: 0 <= i < l1.Size() && 0 <= c < |DataRow(l1, i)| ==>
      DataRow(l1, i)[c].border == Border(Thin, Thin, Thin, Thin) && DataRow(l1, i)[c].fill == NoFill
    ensures [Columns[0].width, Columns[1].width, Columns[2].width, Columns[3].width, Columns[4].width] == [20, 15, 30, 15, 30]
  {
  }

  /** Scenario: two categories with current ratings 5 and 7 land in rows 48
      and 49, in that order. */
  lemma TwoCategoryTable(l: Ledger)
    requires l.Aligned() && l.currentValues == [5, 7]
    ensures TableRows(l).Keys == {47, 48, 49}
    ensures TableRows(l)[48] == DataRow(l, 0) && TableRows(l)[49] == DataRow(l, 1)
    ensures TableRows(l)[48][1].value == Num(5) && TableRows(l)[49][1].value == Num(7)
    ensures TableRows(l)[48][0].value == Str(l.categories[0]) && TableRows(l)[49][0].value == Str(l.categories[1])
  {
    TablePlacement(l);
  }
}
