/**
 * The results table's export and column-visibility logic. The table
 * library's column list, its visibility flags and the filtered rows are
 * inputs: a sequence of columns (id and visibility) and a sequence of rows,
 * each a map from column id to its string value.
 */
module DataTable {
  import opened Wrappers
  import opened Text

  datatype Column = Column(id: string, visible: bool)

  type Row = map<string, string>

  /** `row.getValue(id)`: `None` stands for `undefined`, a row without that field. */
  type Cell = Option<string>

  /** The column ids of the results table, in display order. */
  const ColumnIds: seq<string> := [
    "id_paciente", "prestacion", "nodulos", "morfologia_nodulos", "margenes_nodulos",
    "densidad_nodulo", "microcalcificaciones", "calcificaciones_benignas",
    "calcificaciones_sospechosas", "distribucion_calcificaciones", "presencia_asimetrias",
    "tipo_asimetria", "hallazgos_asociados", "lateralidad_hallazgo", "birads", "edad"]

  /** The Spanish display name of each column id. */
  const ColumnNames: map<string, string> := map[
    "id_paciente" := "ID Paciente",
    "prestacion" := "Prestación",
    "nodulos" := "Nódulos",
    "morfologia_nodulos" := "Morfología Nódulos",
    "margenes_nodulos" := "Márgenes Nódulos",
    "densidad_nodulo" := "Densidad Nódulo",
    "microcalcificaciones" := "Microcalcificaciones",
    "presencia_microcalcificaciones" := "Presencia Microcalcificaciones",
    "calcificaciones_benignas" := "Calcificaciones Benignas",
    "calcificaciones_sospechosas" := "Calcificaciones Sospechosas",
    "distribucion_calcificaciones" := "Distribución Calcificaciones",
    "presencia_asimetrias" := "Presencia Asimetrías",
    "tipo_asimetria" := "Tipo Asimetría",
    "hallazgos_asociados" := "Hallazgos Asociados",
    "lateralidad_hallazgo" := "Lateralidad Hallazgo",
    "birads" := "BIRADS",
    "edad" := "Edad"]

  // ---------------------------------------------------------------------
  // Labels
  // ---------------------------------------------------------------------

  /** `columnNames[id] || id`: the display name, unless it is missing or empty. */
  function Label(names: map<string, string>, id: string): (shown: string)
    ensures id in names && names[id] != "" ==> shown == names[id]
    ensures id !in names ==> shown == id
    ensures id in names && names[id] == "" ==> shown == id
    ensures id != "" ==> shown != ""
  {
    if id in names && names[id] != "" then names[id] else id
  }

  /**
   * Every column of the table is shown under its display name; an id that is
   * not a key of the map is shown as itself.
   */
  lemma TableLabels(id: string)
    ensures id in ColumnIds ==> Label(ColumnNames, id) == ColumnNames[id]
    ensures id !in ColumnNames ==> Label(ColumnNames, id) == id
  {
  }

  // ---------------------------------------------------------------------
  // The export header and rows
  // ---------------------------------------------------------------------

  /** `getAllColumns().filter(c => c.getIsVisible()).map(c => c.id)`. */
  function VisibleColumnIds(cols: seq<Column>): (ids: seq<string>)
    ensures |ids| <= |cols|
    ensures forall c :: c in cols && c.visible ==> c.id in ids
    ensures forall x :: x in ids ==> exists c :: c in cols && c.visible && c.id == x
  {
    if cols == [] then []
    else (if cols[0].visible then [cols[0].id] else []) + VisibleColumnIds(cols[1..])
  }

  /** The ids of all columns, visible or not. */
  function AllIds(cols: seq<Column>): (ids: seq<string>)
    ensures |ids| == |cols|
  {
    seq(|cols|, i requires 0 <= i < |cols| => cols[i].id)
  }

  /** The header keeps column order: the visible ids of two runs of columns, one after the other. */
  lemma {:induction false} VisibleColumnIdsAppend(a: seq<Column>, b: seq<Column>)
    ensures VisibleColumnIds(a + b) == VisibleColumnIds(a) + VisibleColumnIds(b)
  {
    if a == [] {
      assert a + b == b;
    } else {
      var head := if a[0].visible then [a[0].id] else [];
      assert (a + b)[0] == a[0] && (a + b)[1..] == a[1..] + b;
      assert VisibleColumnIds(a + b) == head + VisibleColumnIds(a[1..] + b);
      VisibleColumnIdsAppend(a[1..], b);
      assert head + (VisibleColumnIds(a[1..]) + VisibleColumnIds(b))
          == (head + VisibleColumnIds(a[1..])) + VisibleColumnIds(b);
    }
  }

  /** With every column visible the header is every id, in column order; with none it is empty. */
  lemma {:induction false} VisibleColumnIdsUniform(cols: seq<Column>, checked: bool)
    requires forall i :: 0 <= i < |cols| ==> cols[i].visible == checked
    ensures VisibleColumnIds(cols) == if checked then AllIds(cols) else []
  {
    if cols != [] {
      VisibleColumnIdsUniform(cols[1..], checked);
      assert AllIds(cols) == [cols[0].id] + AllIds(cols[1..]);
    }
  }

  /** The header is as long as the column list exactly when every column is visible. */
  lemma {:induction false} VisibleColumnIdsFull(cols: seq<Column>)
    ensures |VisibleColumnIds(cols)| == |cols| <==> forall i :: 0 <= i < |cols| ==> cols[i].visible
  {
    if cols != [] {
      VisibleColumnIdsFull(cols[1..]);
      assert forall i :: 1 <= i < |cols| ==> cols[i] == cols[1..][i - 1];
    }
  }

  /** The header lists every id exactly when every column is visible. */
  lemma AllVisibleIff(cols: seq<Column>)
    ensures VisibleColumnIds(cols) == AllIds(cols) <==> forall i :: 0 <= i < |cols| ==> cols[i].visible
  {
    VisibleColumnIdsFull(cols);
    if forall i :: 0 <= i < |cols| ==> cols[i].visible {
      VisibleColumnIdsUniform(cols, true);
    }
  }

  function GetValue(row: Row, id: string): (c: Cell)
    ensures c.Some? <==> id in row
    ensures c.Some? ==> c.value == row[id]
  {
    if id in row then Some(row[id]) else None
  }

  /** `rows.map(row => ids.map(id => row.getValue(id)))`. */
  function ExportRows(rows: seq<Row>, ids: seq<string>): (r: seq<seq<Cell>>)
    ensures |r| == |rows|
    ensures forall k :: 0 <= k < |rows| ==> |r[k]| == |ids|
    ensures forall k, j :: 0 <= k < |rows| && 0 <= j < |ids| ==> r[k][j] == GetValue(rows[k], ids[j])
  {
    seq(|rows|, k requires 0 <= k < |rows| =>
      seq(|ids|, j requires 0 <= j < |ids| => GetValue(rows[k], ids[j])))
  }

  /**
   * Each exported row has one cell per header entry, holding that row's value
   * for that column; every visible column has its cell.
   */
  lemma ExportRowsMatchHeader(cols: seq<Column>, rows: seq<Row>, k: nat)
    requires k < |rows|
    ensures var header := VisibleColumnIds(cols);
      var r := ExportRows(rows, header)[k];
      |r| == |header| &&
      (forall j :: 0 <= j < |header| ==> r[j] == GetValue(rows[k], header[j])) &&
      (forall c :: c in cols && c.visible ==> exists j :: 0 <= j < |header| && header[j] == c.id && r[j] == GetValue(rows[k], c.id))
  {
  }

  // ---------------------------------------------------------------------
  // CSV
  // ---------------------------------------------------------------------

  const CsvPrefix: string := "data:text/csv;charset=utf-8,"

  /** How `join` writes a cell: `undefined` becomes the empty string. */
  function CellText(c: Cell): (text: string)
    ensures c.Some? ==> text == c.value
    ensures c.None? ==> text == ""
  {
    c.GetOr("")
  }

  function Texts(cells: seq<Cell>): (ts: seq<string>)
    ensures |ts| == |cells|
    ensures forall j :: 0 <= j < |cells| ==> ts[j] == CellText(cells[j])
  {
    seq(|cells|, j requires 0 <= j < |cells| => CellText(cells[j]))
  }

  /**
   * `row.join(",")`: a line without newline when no cell holds one; when no
   * cell holds a comma, splitting it at commas gives back the cells' texts.
   */
  function RowLine(cells: seq<Cell>): (line: string)
    ensures Free(Texts(cells), '\n') ==> '\n' !in line
    ensures |cells| >= 1 && Free(Texts(cells), ',') ==> Split(line, ',') == Texts(cells)
  {
    SplitJoinWhenFree(Texts(cells), ',');
    Join(Texts(cells), ',')
  }

  /** The header line followed by one line per exported row. */
  function CsvLines(cols: seq<Column>, rows: seq<Row>): (lines: seq<string>)
    ensures |lines| == 1 + |rows|
    ensures lines[0] == Join(VisibleColumnIds(cols), ',')
    ensures forall k :: 0 <= k < |rows| ==> lines[k + 1] == RowLine(ExportRows(rows, VisibleColumnIds(cols))[k])
  {
    var header := VisibleColumnIds(cols);
    var r := ExportRows(rows, header);
    [Join(header, ',')] + seq(|r|, k requires 0 <= k < |r| => RowLine(r[k]))
  }

  /** The text after the prefix; with no row, the header line with no newline after it. */
  function CsvBody(cols: seq<Column>, rows: seq<Row>): (body: string)
    ensures rows == [] ==> body == Join(VisibleColumnIds(cols), ',')
  {
    Join(CsvLines(cols, rows), '\n')
  }

  /** `csvContent` of downloadCSV, before `encodeURI`. */
  function CsvContent(cols: seq<Column>, rows: seq<Row>): (s: string)
    ensures |s| >= |CsvPrefix| && s[..|CsvPrefix|] == CsvPrefix
  {
    CsvPrefix + CsvBody(cols, rows)
  }

  /**
   * No visible id, and no row's value under a visible id, contains `c`:
   * hidden columns and the fields they hold are not exported.
   */
  predicate VisibleFree(cols: seq<Column>, rows: seq<Row>, c: char) {
    var header := VisibleColumnIds(cols);
    Free(header, c) &&
    (forall k, j :: 0 <= k < |rows| && 0 <= j < |header| && header[j] in rows[k] ==> c !in rows[k][header[j]])
  }

  lemma FieldsFree(cols: seq<Column>, rows: seq<Row>, c: char, k: nat)
    requires VisibleFree(cols, rows, c) && k < |rows|
    ensures Free(Texts(ExportRows(rows, VisibleColumnIds(cols))[k]), c)
  {
    var header := VisibleColumnIds(cols);
    var ts := Texts(ExportRows(rows, header)[k]);
    forall j | 0 <= j < |ts|
      ensures c !in ts[j]
    {
      assert ts[j] == CellText(GetValue(rows[k], header[j]));
    }
  }

  /**
   * When no visible id and no exported value contains a comma or a newline
   * (hidden columns may hold anything), a reader that
   * splits the body at newlines gets 1 + |rows| lines: the header and the
   * rows. With at least one visible column, splitting a line at commas gives
   * back the visible ids and each row's values for them, in header order.
   */
  lemma CsvShape(cols: seq<Column>, rows: seq<Row>)
    requires VisibleFree(cols, rows, ',') && VisibleFree(cols, rows, '\n')
    ensures var lines := Split(CsvBody(cols, rows), '\n');
      |lines| == 1 + |rows| &&
      (|VisibleColumnIds(cols)| >= 1 ==> Split(lines[0], ',') == VisibleColumnIds(cols)) &&
      (|VisibleColumnIds(cols)| >= 1 ==> forall k :: 0 <= k < |rows| ==>
         Split(lines[k + 1], ',') == Texts(ExportRows(rows, VisibleColumnIds(cols))[k]))
  {
    var header := VisibleColumnIds(cols);
    var lines := CsvLines(cols, rows);
    forall k | 1 <= k < |lines|
      ensures '\n' !in lines[k]
    {
      FieldsFree(cols, rows, '\n', k - 1);
    }
    assert Free(lines, '\n');
    SplitJoin(lines, '\n');
    if |header| >= 1 {
      SplitJoin(header, ',');
      forall k | 0 <= k < |rows|
        ensures Split(lines[k + 1], ',') == Texts(ExportRows(rows, header)[k])
      {
        FieldsFree(cols, rows, ',', k);
      }
    }
  }

  /** Without a visible column every line is empty: the body is |rows| newlines. */
  lemma CsvWithoutVisibleColumns(cols: seq<Column>, rows: seq<Row>)
    requires VisibleColumnIds(cols) == []
    ensures forall k :: 0 <= k < 1 + |rows| ==> CsvLines(cols, rows)[k] == ""
  {
  }

  // ---------------------------------------------------------------------
  // XLSX
  // ---------------------------------------------------------------------

  /** `[visibleColumns, ...rows]`, the array of arrays handed to the sheet writer. */
  function XlsxSheet(cols: seq<Column>, rows: seq<Row>): (sheet: seq<seq<Cell>>)
    ensures |sheet| == 1 + |rows|
    ensures Texts(sheet[0]) == VisibleColumnIds(cols)
    ensures |sheet[0]| == |VisibleColumnIds(cols)|
    ensures forall j :: 0 <= j < |sheet[0]| ==> sheet[0][j] == Some(VisibleColumnIds(cols)[j])
    ensures sheet[1..] == ExportRows(rows, VisibleColumnIds(cols))
  {
    var header := VisibleColumnIds(cols);
    [seq(|header|, j requires 0 <= j < |header| => Some(header[j]))] + ExportRows(rows, header)
  }

  /**
   * Both exports carry the same table: the CSV body is the XLSX array of
   * arrays with each inner array joined by commas and the results joined by
   * newlines.
   */
  lemma CsvRendersXlsxSheet(cols: seq<Column>, rows: seq<Row>)
    ensures var sheet := XlsxSheet(cols, rows);
      CsvContent(cols, rows) == CsvPrefix + Join(seq(|sheet|, k requires 0 <= k < |sheet| => RowLine(sheet[k])), '\n')
  {
    var header := VisibleColumnIds(cols);
    var sheet := XlsxSheet(cols, rows);
    assert Texts(sheet[0]) == header;
    var rendered := seq(|sheet|, k requires 0 <= k < |sheet| => RowLine(sheet[k]));
    assert rendered == CsvLines(cols, rows);
  }

  // ---------------------------------------------------------------------
  // Column visibility
  // ---------------------------------------------------------------------

  /** The table's columns with their visibility flags, which the checkboxes change in place. */
  class ColumnState {
    const ids: seq<string>
    const visible: array<bool>

    ghost predicate Valid()
      reads this
    {
      visible.Length == |ids|
    }

    /** Every column starts visible: the visibility state starts empty. */
    constructor (ids: seq<string>)
      ensures Valid() && this.ids == ids && fresh(visible)
      ensures forall i :: 0 <= i < |ids| ==> visible[i]
    {
      this.ids := ids;
      visible := new bool[|ids|](_ => true);
    }

    /** The columns as the export sees them. */
    function Columns(): (cols: seq<Column>)
      reads this, visible
      requires Valid()
      ensures AllIds(cols) == ids
      ensures forall i :: 0 <= i < |ids| ==> cols[i] == Column(ids[i], visible[i])
    {
      var cols := seq(|ids|, i requires 0 <= i < |ids| reads visible => Column(ids[i], visible[i]));
      assert AllIds(cols) == ids;
      cols
    }

    /** `column.toggleVisibility(value)` for the column at index `i`. */
    method ToggleVisibility(i: nat, value: bool)
      requires Valid() && i < |ids|
      modifies visible
      ensures visible[..] == old(visible[..])[i := value]
    {
      visible[i] := value;
    }

    /** toggleAllColumns(checked): every column's visibility becomes `checked`. */
    method ToggleAllColumns(checked: bool)
      requires Valid()
      modifies visible
      ensures forall i :: 0 <= i < |ids| ==> visible[i] == checked
      ensures VisibleColumnIds(Columns()) == if checked then ids else []
    {
      for i := 0 to visible.Length
        invariant forall j :: 0 <= j < i ==> visible[j] == checked
      {
        ToggleVisibility(i, checked);
      }
      VisibleColumnIdsUniform(Columns(), checked);
    }

    /** `getIsAllColumnsVisible()`. */
    function IsAllColumnsVisible(): (all: bool)
      reads this, visible
      requires Valid()
      ensures all <==> VisibleColumnIds(Columns()) == ids
    {
      var all := forall i :: 0 <= i < visible.Length ==> visible[i];
      AllVisibleIff(Columns());
      all
    }
  }
}
