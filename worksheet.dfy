/** The part of a spreadsheet worksheet the export touches: rows of cells
    keyed by their 1-based row number, the column definitions, and the
    anchors of embedded images. */
module Sheet {

  /** A cell holds nothing, a string or a number. */
  datatype CellValue = Null | Str(s: string) | Num(n: int)

  datatype Edge = NoEdge | Thin

  datatype Border = Border(top: Edge, left: Edge, bottom: Edge, right: Edge)

  const NoBorder: Border := Border(NoEdge, NoEdge, NoEdge, NoEdge)
  /** `{ top: thin, left: thin, bottom: thin, right: thin }` */
  const ThinBorder: Border := Border(Thin, Thin, Thin, Thin)

  /** No fill, or a solid pattern fill in an ARGB colour. */
  datatype Fill = NoFill | SolidFill(argb: string)

  datatype Cell = Cell(value: CellValue, fill: Fill, border: Border)

  const EmptyCell: Cell := Cell(Null, NoFill, NoBorder)

  /** Cells of a row; column `c` (1-based) is at position `c - 1`, and
      positions past the end are empty. */
  type Row = seq<Cell>

  /** A column definition: header text, the key row objects use, width in
      character units. */
  datatype Column = Column(header: string, key: string, width: nat)

  /** The top-left anchor of an embedded image (0-based column and row). */
  datatype Anchor = Anchor(col: nat, row: nat)

  /** The row with column `col` set to `cell`; the row grows with empty
      cells when it is shorter. */
  function SetCellIn(row: Row, col: nat, cell: Cell): (r: Row)
    requires 1 <= col
    ensures |r| == if |row| >= col then |row| else col
    ensures r[col - 1] == cell
    ensures forall c :: 0 <= c < |r| && c != col - 1 ==> r[c] == if c < |row| then row[c] else EmptyCell
  {
    if col <= |row| then row[col - 1 := cell]
    else row + seq(col - 1 - |row|, _ => EmptyCell) + [cell]
  }

  /** A row built from an object keyed by column keys: column `j` gets the
      value stored under its key, or nothing. */
  function RowFromKeys(columns: seq<Column>, values: map<string, CellValue>): (r: Row)
    ensures |r| == |columns|
    ensures forall j :: 0 <= j < |r| ==>
      r[j] == Cell(if columns[j].key in values then values[columns[j].key] else Null, NoFill, NoBorder)
  {
    seq(|columns|, j requires 0 <= j < |columns| =>
      Cell(if columns[j].key in values then values[columns[j].key] else Null, NoFill, NoBorder))
  }

  /** What `eachCell` does to one cell: cells holding a value get the
      border, empty cells are skipped. */
  function Bordered(cell: Cell, b: Border): Cell {
    if cell.value.Null? then cell else cell.(border := b)
  }

  /** The row after `eachCell(cell => cell.border = b)`. */
  function WithBorder(row: Row, b: Border): (r: Row)
    ensures |r| == |row|
    ensures forall c :: 0 <= c < |r| ==> r[c].value == row[c].value && r[c].fill == row[c].fill
    ensures forall c :: 0 <= c < |r| ==> r[c].border == if row[c].value.Null? then row[c].border else b
  {
    seq(|row|, c requires 0 <= c < |row| => Bordered(row[c], b))
  }

  /** The numbers the rows at `pos` or below move to. */
  function MovedKeys(rows: map<int, Row>, pos: int): (moved: set<int>)
    ensures forall k {:trigger k in moved} :: k in moved <==> k - 1 in rows && k > pos
  {
    var moved := set k | k in rows && k >= pos :: k + 1;
    assert forall k :: k - 1 in rows && k > pos ==> k in moved by {
      forall k | k - 1 in rows && k > pos ensures k in moved {
        assert (k - 1) + 1 == k;
      }
    }
    moved
  }

  /** `insertRow(pos, ...)`: every row at `pos` or below moves down by one
      and the new row takes position `pos`. */
  function ShiftDown(rows: map<int, Row>, pos: int, row: Row): (r: map<int, Row>)
    ensures forall k {:trigger k in r} :: k in r <==> (k < pos && k in rows) || k == pos || (k > pos && k - 1 in rows)
    ensures forall k {:trigger r[k]} :: k in r ==> r[k] == if k < pos then rows[k] else if k == pos then row else rows[k - 1]
  {
    var keys := (set k | k in rows && k < pos) + MovedKeys(rows, pos) + {pos};
    map k | k in keys :: if k == pos then row else if k < pos then rows[k] else rows[k - 1]
  }

  /** With no row at `pos` or below, inserting only adds the new row. */
  lemma ShiftDownPastEnd(rows: map<int, Row>, pos: int, row: Row)
    requires forall k :: k in rows ==> k < pos
    ensures ShiftDown(rows, pos, row) == rows[pos := row]
  {
    var r := ShiftDown(rows, pos, row);
    assert r.Keys == rows.Keys + {pos};
  }

  class Worksheet {
    const name: string
    var columns: seq<Column>
    var rows: map<int, Row>
    var images: seq<Anchor>

    /** `workbook.addWorksheet(name)` */
    constructor (name: string)
      ensures this.name == name && columns == [] && rows == map[] && images == []
    {
      this.name := name;
      columns := [];
      rows := map[];
      images := [];
    }

    /** `getRow(r)`: the row, or an empty one. The library also creates the
        row when it is absent; nothing here observes that, since `SetCell`
        writes the same row right after. */
    function GetRow(r: int): (row: Row)
      reads this
      ensures r in rows ==> row == rows[r]
      ensures r !in rows ==> row == []
    {
      if r in rows then rows[r] else []
    }

    /** `worksheet.addImage(image, { tl: anchor, ... })` */
    method AddImage(anchor: Anchor)
      modifies this`images
      ensures images == old(images) + [anchor]
    {
      images := images + [anchor];
    }

    /** `worksheet.columns = cols` (widths, keys and headers). */
    method SetColumns(cols: seq<Column>)
      modifies this`columns
      ensures columns == cols
    {
      columns := cols;
    }

    /** Replaces cell `col` of row `r`. */
    method SetCell(r: int, col: nat, cell: Cell)
      requires 1 <= col
      modifies this`rows
      ensures rows == old(rows)[r := SetCellIn(old(GetRow(r)), col, cell)]
    {
      rows := rows[r := SetCellIn(GetRow(r), col, cell)];
    }

    /** `insertRow(pos, values)`: the row built from `values` by column key
        goes to `pos`, shifting the rows at or below it down by one. */
    method InsertRow(pos: int, values: map<string, CellValue>)
      modifies this`rows
      ensures rows == ShiftDown(old(rows), pos, RowFromKeys(columns, values))
    {
      rows := ShiftDown(rows, pos, RowFromKeys(columns, values));
    }

    /** `getRow(r).eachCell(cell => { cell.border = b })`: visits the cells
        of row `r` in column order and gives each non-empty one the
        border. */
    method EachCellSetBorder(r: int, b: Border)
      requires r in rows
      modifies this`rows
      ensures rows == old(rows)[r := WithBorder(old(rows[r]), b)]
    {
      var orig := rows[r];
      var c := 0;
      while c < |orig|
        invariant 0 <= c <= |orig|
        invariant r in rows && |rows[r]| == |orig|
        invariant rows == old(rows)[r := rows[r]]
        invariant forall j :: 0 <= j < c ==> rows[r][j] == Bordered(orig[j], b)
        invariant forall j :: c <= j < |orig| ==> rows[r][j] == orig[j]
      {
        var cell := rows[r][c];
        if !cell.value.Null? {
          rows := rows[r := rows[r][c := cell.(border := b)]];
        }
        c := c + 1;
      }
      assert rows[r] == WithBorder(orig, b);
    }
  }
}
