/**
 * The plain-text table renderer `stringTable.create`: the first record's
 * keys become the header row, every record becomes one row holding its value
 * for each header, each column is as wide as its widest cell, strings are
 * padded on the right and every other value on the left, and each row is
 * printed as `' ' + cells.join(' | ') + ' '`, the rows joined by newlines.
 *
 * The pure specification (`TableRows`, `MaxWidth`, `Widths`, `Pad`, `Render`)
 * comes first; the methods `CreateRow`, `GetMaxWidth` and `CreateTable` follow
 * the loops of the source and are proved to compute it; the lemmas at the end
 * state what the rendered text looks like.
 */
module StringTable {
  import opened JsBuiltins

  /**
   * A cell value as the renderer sees it: `String(value)` as `text`, and
   * whether `typeof value === 'string'`.
   */
  datatype Value = Value(text: string, isString: bool)

  /** What reading a missing field yields: `undefined`, which is not a string. */
  const Undefined: Value := Value("undefined", false)

  /**
   * A record: its own keys in `Object.keys` order, and its fields.
   */
  datatype Record = Record(keys: seq<string>, fields: map<string, Value>)

  /** What every JavaScript object satisfies: its keys are distinct and are exactly its fields. */
  predicate WellFormed(r: Record)
  {
    && (forall i, j :: 0 <= i < j < |r.keys| ==> r.keys[i] != r.keys[j])
    && (forall k :: k in r.keys ==> k in r.fields)
    && (forall k :: k in r.fields ==> k in r.keys)
  }

  /** `data[name]`. */
  function Field(data: Record, name: string): Value
  {
    if name in data.fields then data.fields[name] else Undefined
  }

  /** `row[c]`: `undefined` outside the row. */
  function At(row: seq<Value>, c: int): Value
  {
    if 0 <= c < |row| then row[c] else Undefined
  }

  function Max(a: nat, b: nat): nat
  {
    if a < b then b else a
  }

  // ----- Rows -----------------------------------------------------------

  /** The header row: the header names themselves, which are strings. */
  function HeaderRow(headers: seq<string>): seq<Value>
  {
    seq(|headers|, j requires 0 <= j < |headers| => Value(headers[j], true))
  }

  /** The row of one record: its value for each header, in header order. */
  function RowOf(data: Record, headers: seq<string>): seq<Value>
  {
    seq(|headers|, j requires 0 <= j < |headers| => Field(data, headers[j]))
  }

  /** Every row has `n` cells. */
  predicate Rectangular(rows: seq<seq<Value>>, n: nat)
  {
    forall i :: 0 <= i < |rows| ==> |rows[i]| == n
  }

  /** The header row followed by one row per record, headers taken from the first record. */
  function TableRows(records: seq<Record>): (rows: seq<seq<Value>>)
    requires |records| > 0
    ensures |rows| == |records| + 1
    ensures Rectangular(rows, |records[0].keys|)
  {
    var headers := records[0].keys;
    [HeaderRow(headers)] + seq(|records|, i requires 0 <= i < |records| => RowOf(records[i], headers))
  }

  // ----- Widths ---------------------------------------------------------

  /** The largest text length in column `c`, taken over the rows in order, starting from 0. */
  function MaxWidth(rows: seq<seq<Value>>, c: int): nat
  {
    if |rows| == 0 then 0
    else Max(MaxWidth(rows[..|rows| - 1], c), |At(rows[|rows| - 1], c).text|)
  }

  /** One width per cell of the first row. */
  function Widths(rows: seq<seq<Value>>): (ws: seq<nat>)
    requires |rows| > 0
    ensures |ws| == |rows[0]|
  {
    seq(|rows[0]|, c requires 0 <= c < |rows[0]| => MaxWidth(rows, c))
  }

  // ----- Padding --------------------------------------------------------

  function Spaces(n: nat): string
  {
    seq(n, _ => ' ')
  }

  /** `new Array(count + 1).join(s)`, which throws when `count + 1` is not an array length. */
  function Repeat(s: string, count: int): Result<string>
  {
    if IsArrayLength(count + 1) then Ok(Join(Holes(count + 1), s)) else Err(RangeError)
  }

  /** `pad(value, width)`: strings get the padding after them, other values before. */
  function Pad(v: Value, width: int): Result<string>
  {
    match Repeat(" ", width - |v.text|)
    case Err(e) => Err(e)
    case Ok(padding) => Ok(if v.isString then v.text + padding else padding + v.text)
  }

  /** The intended layout of a cell of width `w`: left-aligned for strings, right-aligned otherwise. */
  function Aligned(v: Value, w: nat): string
    requires |v.text| <= w
  {
    if v.isString then v.text + Spaces(w - |v.text|) else Spaces(w - |v.text|) + v.text
  }

  // ----- Lines and output -----------------------------------------------

  /** `pad(v, width)` does not throw: the padding it asks for, plus one, is an array length. */
  predicate PadFits(v: Value, width: int)
  {
    IsArrayLength(width - |v.text| + 1)
  }

  /** No call of `pad` on the cells of `row` throws. */
  predicate RowPadsOk(row: seq<Value>, ws: seq<nat>)
  {
    |row| == |ws| && forall j :: 0 <= j < |ws| ==> PadFits(row[j], ws[j])
  }

  /** No call of `pad` throws. */
  predicate PadsOk(rows: seq<seq<Value>>, ws: seq<nat>)
  {
    forall i :: 0 <= i < |rows| ==> RowPadsOk(rows[i], ws)
  }

  function PadCells(row: seq<Value>, ws: seq<nat>): seq<string>
    requires RowPadsOk(row, ws)
  {
    seq(|row|, j requires 0 <= j < |row| => Pad(row[j], ws[j]).value)
  }

  function FormatLine(cells: seq<string>): string
  {
    " " + Join(cells, " | ") + " "
  }

  function Lines(rows: seq<seq<Value>>, ws: seq<nat>): seq<string>
    requires PadsOk(rows, ws)
  {
    seq(|rows|, i requires 0 <= i < |rows| => FormatLine(PadCells(rows[i], ws)))
  }

  /** `createTable(records)`: the empty string for no records, otherwise the lines joined by newlines. */
  function Render(records: seq<Record>): Result<string>
  {
    if |records| == 0 then Ok("")
    else
      var rows := TableRows(records);
      var ws := Widths(rows);
      if PadsOk(rows, ws) then Ok(Join(Lines(rows, ws), "\n")) else Err(RangeError)
  }

  // ----- The source's loops ---------------------------------------------

  /** `createRow(data, headers)`. */
  method CreateRow(data: Record, headers: seq<string>) returns (row: seq<Value>)
    ensures |row| == |headers|
    ensures forall i :: 0 <= i < |headers| ==> row[i] == Field(data, headers[i])
    ensures row == RowOf(data, headers)
  {
    row := [];
    for i := 0 to |headers|
      invariant |row| == i
      invariant forall k :: 0 <= k < i ==> row[k] == Field(data, headers[k])
    {
      row := row + [Field(data, headers[i])];
    }
  }

  /** `getMaxWidth(rows, columnIndex)`. */
  method GetMaxWidth(rows: seq<seq<Value>>, columnIndex: int) returns (maxWidth: nat)
    ensures maxWidth == MaxWidth(rows, columnIndex)
    ensures forall i :: 0 <= i < |rows| ==> |At(rows[i], columnIndex).text| <= maxWidth
    ensures |rows| == 0 ==> maxWidth == 0
    ensures |rows| > 0 ==> exists i :: 0 <= i < |rows| && maxWidth == |At(rows[i], columnIndex).text|
  {
    maxWidth := 0;
    for i := 0 to |rows|
      invariant maxWidth == MaxWidth(rows[..i], columnIndex)
    {
      assert rows[..i + 1][..i] == rows[..i];
      maxWidth := Max(maxWidth, |At(rows[i], columnIndex).text|);
    }
    assert rows[..|rows|] == rows;
    MaxWidthIsMaximum(rows, columnIndex);
  }

  /** `createTable(records)`, the entry point `stringTable.create`. */
  method CreateTable(records: seq<Record>) returns (r: Result<string>)
    ensures r == Render(records)
    ensures |records| == 0 ==> r == Ok("")
  {
    if |records| == 0 {
      return Ok("");
    }

    var headers := records[0].keys;
    var rows := [HeaderRow(headers)];
    for i := 0 to |records|
      invariant rows == TableRows(records)[..i + 1]
    {
      var row := CreateRow(records[i], headers);
      rows := rows + [row];
    }
    assert rows == TableRows(records);

    var columnWidths: seq<nat> := [];
    for i := 0 to |rows[0]|
      invariant columnWidths == Widths(rows)[..i]
    {
      var w := GetMaxWidth(rows, i);
      columnWidths := columnWidths + [w];
    }
    assert columnWidths == Widths(rows);

    var lines := FormatRows(rows, columnWidths);
    if lines.Err? {
      return Err(lines.error);
    }
    return Ok(Join(lines.value, "\n"));
  }

  /**
   * The last loop of `createTable`: format every row in order; throws as
   * soon as a `pad` does.
   */
  method FormatRows(rows: seq<seq<Value>>, columnWidths: seq<nat>) returns (r: Result<seq<string>>)
    requires Rectangular(rows, |columnWidths|)
    ensures r.Ok? <==> PadsOk(rows, columnWidths)
    ensures r.Ok? ==> r.value == Lines(rows, columnWidths)
    ensures r.Err? ==> r.error == RangeError
  {
    var formattedRows: seq<string> := [];
    for i := 0 to |rows|
      invariant |formattedRows| == i
      invariant forall k :: 0 <= k < i ==> RowPadsOk(rows[k], columnWidths)
      invariant forall k :: 0 <= k < i ==> formattedRows[k] == FormatLine(PadCells(rows[k], columnWidths))
    {
      var line := FormatRow(rows[i], columnWidths);
      if line.Err? {
        return Err(line.error);
      }
      formattedRows := formattedRows + [line.value];
    }
    assert formattedRows == Lines(rows, columnWidths);
    return Ok(formattedRows);
  }

  /**
   * The body of the last loop of `createTable`: pad each cell of one row to
   * its column's width and print the row; throws when a `pad` does.
   */
  method FormatRow(row: seq<Value>, columnWidths: seq<nat>) returns (r: Result<string>)
    requires |row| == |columnWidths|
    ensures r.Ok? <==> RowPadsOk(row, columnWidths)
    ensures r.Ok? ==> r.value == FormatLine(PadCells(row, columnWidths))
    ensures r.Err? ==> r.error == RangeError
  {
    var currentRow: seq<string> := [];
    for j := 0 to |row|
      invariant |currentRow| == j
      invariant forall m :: 0 <= m < j ==> PadFits(row[m], columnWidths[m])
      invariant forall m :: 0 <= m < j ==> currentRow[m] == Pad(row[m], columnWidths[m]).value
    {
      var cell := Pad(row[j], columnWidths[j]);
      if cell.Err? {
        return Err(cell.error);
      }
      ghost var before := currentRow;
      currentRow := currentRow + [cell.value];
      assert forall m :: 0 <= m < j ==> currentRow[m] == before[m];
      assert currentRow[j] == Pad(row[j], columnWidths[j]).value;
    }
    assert currentRow == PadCells(row, columnWidths);
    return Ok(" " + Join(currentRow, " | ") + " ");
  }

  // ----- Properties -----------------------------------------------------

  /** `pad` throws exactly when the padding count is out of range, and then a `RangeError`. */
  lemma PadThrowsExactly(v: Value, width: int)
    ensures Pad(v, width).Ok? <==> PadFits(v, width)
    ensures Pad(v, width).Err? ==> Pad(v, width).error == RangeError
  {
  }

  /** The width of column `c` bounds every cell in it and is the length of one of them. */
  lemma {:induction false} MaxWidthIsMaximum(rows: seq<seq<Value>>, c: int)
    ensures forall i :: 0 <= i < |rows| ==> |At(rows[i], c).text| <= MaxWidth(rows, c)
    ensures |rows| == 0 ==> MaxWidth(rows, c) == 0
    ensures |rows| > 0 ==> exists i :: 0 <= i < |rows| && MaxWidth(rows, c) == |At(rows[i], c).text|
  {
    if |rows| > 0 {
      var front := rows[..|rows| - 1];
      MaxWidthIsMaximum(front, c);
      assert forall i :: 0 <= i < |front| ==> front[i] == rows[i];
      if |front| > 0 && MaxWidth(rows, c) == MaxWidth(front, c) {
        var i :| 0 <= i < |front| && MaxWidth(front, c) == |At(front[i], c).text|;
        assert MaxWidth(rows, c) == |At(rows[i], c).text|;
      }
    }
  }

  /** `repeat(s, n)` is `s` concatenated `n` times, and throws exactly when `n + 1` is no array length. */
  lemma RepeatIsTimes(s: string, count: int)
    ensures Repeat(s, count).Ok? <==> -1 <= count < MaxArrayLength
    ensures count == -1 ==> Repeat(s, count) == Ok("")
    ensures 0 <= count < MaxArrayLength ==> Repeat(s, count) == Ok(Times(s, count))
    ensures 0 <= count < MaxArrayLength ==> |Repeat(s, count).value| == count * |s|
  {
    if 0 <= count < MaxArrayLength {
      JoinOfHoles(s, count);
      TimesLength(s, count);
    }
  }

  /** `repeat(' ', n)` is `n` spaces. */
  lemma RepeatSpaces(n: int)
    requires 0 <= n < MaxArrayLength
    ensures Repeat(" ", n) == Ok(Spaces(n))
    ensures |Repeat(" ", n).value| == n
  {
    RepeatIsTimes(" ", n);
    TimesOfChar(' ', n);
  }

  /**
   * When the width covers the text, `pad` yields exactly `width` characters:
   * the text then spaces for a string, spaces then the text otherwise, so
   * cutting the padding off the relevant side gives the text back.
   */
  lemma PadLayout(v: Value, width: int)
    requires 0 <= width - |v.text| < MaxArrayLength
    ensures Pad(v, width) == Ok(Aligned(v, width))
    ensures |Pad(v, width).value| == width
    ensures v.isString ==> Pad(v, width).value[..|v.text|] == v.text
    ensures v.isString ==> forall k :: |v.text| <= k < width ==> Pad(v, width).value[k] == ' '
    ensures !v.isString ==> Pad(v, width).value[width - |v.text|..] == v.text
    ensures !v.isString ==> forall k :: 0 <= k < width - |v.text| ==> Pad(v, width).value[k] == ' '
  {
    RepeatSpaces(width - |v.text|);
  }

  /**
   * `pad` never cuts a text: when it does not throw, its result is as long as
   * the larger of the width and the text, and holds the text on the side its
   * alignment puts it. It throws when the width is two or more below the text's length.
   */
  lemma PadNeverTruncates(v: Value, width: int)
    ensures width < |v.text| - 1 ==> Pad(v, width).Err?
    ensures Pad(v, width).Ok? ==> |Pad(v, width).value| == Max(|v.text|, if width < 0 then 0 else width)
    ensures Pad(v, width).Ok? && v.isString ==> Pad(v, width).value[..|v.text|] == v.text
    ensures Pad(v, width).Ok? && !v.isString ==>
      Pad(v, width).value[|Pad(v, width).value| - |v.text|..] == v.text
  {
    RepeatIsTimes(" ", width - |v.text|);
    if width - |v.text| >= 0 && Pad(v, width).Ok? {
      PadLayout(v, width);
    }
  }

  /** Every cell's text is no longer than its column's width. */
  predicate FitsWidths(row: seq<Value>, ws: seq<nat>)
  {
    |row| == |ws| && forall j :: 0 <= j < |ws| ==> |row[j].text| <= ws[j]
  }

  /** Every cell fits its column, so the padding `createTable` asks for is never negative. */
  lemma WidthsCoverCells(rows: seq<seq<Value>>, n: nat)
    requires |rows| > 0 && Rectangular(rows, n)
    ensures forall i :: 0 <= i < |rows| ==> FitsWidths(rows[i], Widths(rows))
    ensures forall j :: 0 <= j < n ==> exists i :: 0 <= i < |rows| && Widths(rows)[j] == |rows[i][j].text|
  {
    var ws := Widths(rows);
    forall j | 0 <= j < n
      ensures forall i :: 0 <= i < |rows| ==> |rows[i][j].text| <= ws[j]
      ensures exists i :: 0 <= i < |rows| && ws[j] == |rows[i][j].text|
    {
      MaxWidthIsMaximum(rows, j);
      assert forall i :: 0 <= i < |rows| ==> At(rows[i], j) == rows[i][j];
      var i :| 0 <= i < |rows| && MaxWidth(rows, j) == |At(rows[i], j).text|;
      assert ws[j] == |rows[i][j].text|;
    }
  }

  /**
   * Column `j` is as wide as the longest of its header and its cells, and no
   * wider than the longest of them.
   */
  lemma ColumnWidth(records: seq<Record>, j: nat)
    requires |records| > 0 && j < |records[0].keys|
    ensures var ws := Widths(TableRows(records)); var name := records[0].keys[j];
      && |name| <= ws[j]
      && (forall i :: 0 <= i < |records| ==> |Field(records[i], name).text| <= ws[j])
      && (ws[j] == |name| || exists i :: 0 <= i < |records| && ws[j] == |Field(records[i], name).text|)
  {
    var rows := TableRows(records);
    var name := records[0].keys[j];
    WidthsCoverCells(rows, |records[0].keys|);
    assert forall i :: 0 <= i < |records| ==> rows[i + 1][j] == Field(records[i], name);
    var i :| 0 <= i < |rows| && Widths(rows)[j] == |rows[i][j].text|;
    if i > 0 {
      assert Widths(rows)[j] == |Field(records[i - 1], name).text|;
    }
  }

  /** Every header and every cell text is short enough to be padded. */
  predicate TextsFit(records: seq<Record>)
    requires |records| > 0
  {
    var headers := records[0].keys;
    && (forall j :: 0 <= j < |headers| ==> |headers[j]| < MaxArrayLength)
    && (forall i, j :: 0 <= i < |records| && 0 <= j < |headers| ==>
          |Field(records[i], headers[j]).text| < MaxArrayLength)
  }

  /** `createTable` only throws on texts of 2^32 - 1 characters or more. */
  lemma RenderSucceeds(records: seq<Record>)
    requires |records| > 0 && TextsFit(records)
    ensures Render(records).Ok?
  {
    var headers := records[0].keys;
    var rows := TableRows(records);
    var ws := Widths(rows);
    WidthsCoverCells(rows, |headers|);
    forall i | 0 <= i < |rows|
      ensures RowPadsOk(rows[i], ws)
    {
      forall j | 0 <= j < |ws|
        ensures PadFits(rows[i][j], ws[j])
      {
        var k :| 0 <= k < |rows| && ws[j] == |rows[k][j].text|;
        assert |rows[k][j].text| < MaxArrayLength by {
          if k > 0 {
            assert rows[k][j] == Field(records[k - 1], headers[j]);
          }
        }
        assert |rows[i][j].text| <= ws[j];
        RepeatIsTimes(" ", ws[j] - |rows[i][j].text|);
      }
    }
  }

  // ----- The shape of the rendered text -----------------------------------

  /** The length of every rendered line: two outer spaces, the widths, and ` | ` between columns. */
  function LineWidth(ws: seq<nat>): nat
  {
    if |ws| == 0 then 2 else 2 + Sum(ws) + 3 * (|ws| - 1)
  }

  /** Where column `j` starts on every line. */
  function Offset(ws: seq<nat>, j: nat): nat
    requires j <= |ws|
  {
    1 + PartOffset(ws, 3, j)
  }

  /**
   * A line lays out `row` in columns of widths `ws`: a space, each cell
   * aligned within its column at that column's offset, ` | ` between
   * neighbouring columns, and a closing space.
   */
  predicate LineShows(line: string, ws: seq<nat>, row: seq<Value>)
    requires FitsWidths(row, ws)
  {
    && |line| == LineWidth(ws)
    && line[0] == ' ' && line[|line| - 1] == ' '
    && (forall j :: 0 <= j < |ws| ==>
          Offset(ws, j) + ws[j] <= |line| && line[Offset(ws, j)..Offset(ws, j) + ws[j]] == Aligned(row[j], ws[j]))
    && (forall j :: 0 <= j < |ws| - 1 ==>
          Offset(ws, j) + ws[j] + 3 <= |line| && line[Offset(ws, j) + ws[j]..Offset(ws, j) + ws[j] + 3] == " | ")
  }

  /** The padded cells of a row that fits its widths are its aligned cells. */
  lemma PadCellsAligned(row: seq<Value>, ws: seq<nat>)
    requires RowPadsOk(row, ws) && FitsWidths(row, ws)
    ensures HasLengths(PadCells(row, ws), ws)
    ensures forall j :: 0 <= j < |ws| ==> PadCells(row, ws)[j] == Aligned(row[j], ws[j])
  {
    forall j | 0 <= j < |ws|
      ensures PadCells(row, ws)[j] == Aligned(row[j], ws[j]) && |PadCells(row, ws)[j]| == ws[j]
    {
      RepeatIsTimes(" ", ws[j] - |row[j].text|);
      PadLayout(row[j], ws[j]);
    }
  }

  /** A printed row is as long as `LineWidth` says and starts and ends with a space. */
  lemma FormatLineLength(cells: seq<string>, ws: seq<nat>)
    requires HasLengths(cells, ws)
    ensures |FormatLine(cells)| == LineWidth(ws)
    ensures FormatLine(cells)[0] == ' ' && FormatLine(cells)[|FormatLine(cells)| - 1] == ' '
  {
    if |ws| > 0 {
      JoinLength(cells, " | ", ws);
    }
  }

  /** Cell `j` of a printed row sits at the offset of column `j`. */
  lemma FormatLineCellAt(cells: seq<string>, ws: seq<nat>, j: nat)
    requires HasLengths(cells, ws) && j < |ws|
    ensures Offset(ws, j) + ws[j] <= |FormatLine(cells)|
    ensures FormatLine(cells)[Offset(ws, j)..Offset(ws, j) + ws[j]] == cells[j]
  {
    var joined := Join(cells, " | ");
    JoinPartAt(cells, " | ", ws, j);
    var o := PartOffset(ws, 3, j);
    SliceAfterPrefix(" ", joined + " ", 1 + o, 1 + o + ws[j]);
    assert (joined + " ")[o..o + ws[j]] == joined[o..o + ws[j]];
  }

  /** Column `j` is followed by ` | ` when another column comes after it. */
  lemma FormatLineSeparatorAt(cells: seq<string>, ws: seq<nat>, j: nat)
    requires HasLengths(cells, ws) && j + 1 < |ws|
    ensures Offset(ws, j) + ws[j] + 3 <= |FormatLine(cells)|
    ensures FormatLine(cells)[Offset(ws, j) + ws[j]..Offset(ws, j) + ws[j] + 3] == " | "
  {
    var joined := Join(cells, " | ");
    JoinSeparatorAt(cells, " | ", ws, j);
    var o := PartOffset(ws, 3, j) + ws[j];
    SliceAfterPrefix(" ", joined + " ", 1 + o, 1 + o + 3);
    assert (joined + " ")[o..o + 3] == joined[o..o + 3];
  }

  /** A formatted row lays its cells out in the columns. */
  lemma FormatLineShows(row: seq<Value>, ws: seq<nat>)
    requires RowPadsOk(row, ws) && FitsWidths(row, ws)
    ensures LineShows(FormatLine(PadCells(row, ws)), ws, row)
  {
    var cells := PadCells(row, ws);
    PadCellsAligned(row, ws);
    FormatLineLength(cells, ws);
    forall j | 0 <= j < |ws|
      ensures Offset(ws, j) + ws[j] <= |FormatLine(cells)|
      ensures FormatLine(cells)[Offset(ws, j)..Offset(ws, j) + ws[j]] == Aligned(row[j], ws[j])
    {
      FormatLineCellAt(cells, ws, j);
    }
    forall j | 0 <= j < |ws| - 1
      ensures Offset(ws, j) + ws[j] + 3 <= |FormatLine(cells)|
      ensures FormatLine(cells)[Offset(ws, j) + ws[j]..Offset(ws, j) + ws[j] + 3] == " | "
    {
      FormatLineSeparatorAt(cells, ws, j);
    }
  }

  /** A line holds no newline when none of its row's texts does. */
  lemma FormatLineHasNoNewline(row: seq<Value>, ws: seq<nat>)
    requires RowPadsOk(row, ws) && FitsWidths(row, ws)
    requires forall j :: 0 <= j < |row| ==> '\n' !in row[j].text
    ensures '\n' !in FormatLine(PadCells(row, ws))
  {
    var cells := PadCells(row, ws);
    PadCellsAligned(row, ws);
    forall j | 0 <= j < |ws|
      ensures '\n' !in cells[j]
    {
      assert '\n' !in Spaces(ws[j] - |row[j].text|);
    }
    if '\n' in Join(cells, " | ") {
      JoinChars(cells, " | ", '\n');
    }
  }

  /** No header and no cell text holds a newline. */
  predicate NoNewlines(records: seq<Record>)
    requires |records| > 0
  {
    var headers := records[0].keys;
    && (forall j :: 0 <= j < |headers| ==> '\n' !in headers[j])
    && (forall i, j :: 0 <= i < |records| && 0 <= j < |headers| ==> '\n' !in Field(records[i], headers[j]).text)
  }

  /**
   * Split on newlines, the output is one line per row of the table, each
   * laying that row out in the columns.
   */
  lemma RenderedLines(records: seq<Record>)
    requires |records| > 0 && Render(records).Ok? && NoNewlines(records)
    ensures var rows := TableRows(records);
      var ws := Widths(rows);
      var lines := OutputLines(records);
      && |lines| == |rows|
      && forall k :: 0 <= k < |rows| ==> FitsWidths(rows[k], ws) && LineShows(lines[k], ws, rows[k])
  {
    var rows := TableRows(records);
    var ws := Widths(rows);
    RenderJoinsLines(records);
    WidthsCoverCells(rows, |records[0].keys|);
    var lines := Lines(rows, ws);
    forall k | 0 <= k < |rows|
      ensures '\n' !in lines[k]
      ensures LineShows(lines[k], ws, rows[k])
    {
      RowHasNoNewlines(records, k);
      FormatLineHasNoNewline(rows[k], ws);
      FormatLineShows(rows[k], ws);
    }
    SplitJoin(lines, '\n');
  }

  /** A successful render is the table's lines joined by newlines. */
  lemma RenderJoinsLines(records: seq<Record>)
    requires |records| > 0 && Render(records).Ok?
    ensures PadsOk(TableRows(records), Widths(TableRows(records)))
    ensures Render(records).value == Join(Lines(TableRows(records), Widths(TableRows(records))), "\n")
  {
  }

  /** No text in row `k` of the table holds a newline. */
  lemma RowHasNoNewlines(records: seq<Record>, k: nat)
    requires |records| > 0 && NoNewlines(records) && k <= |records|
    ensures forall j :: 0 <= j < |TableRows(records)[k]| ==> '\n' !in TableRows(records)[k][j].text
  {
    var headers := records[0].keys;
    var rows := TableRows(records);
    if k > 0 {
      assert forall j :: 0 <= j < |headers| ==> rows[k][j] == Field(records[k - 1], headers[j]);
    }
  }

  /**
   * Split on newlines, every line of the output has the same width: two
   * outer spaces, the column widths, and ` | ` between neighbouring columns.
   */
  lemma RenderedLineWidths(records: seq<Record>)
    requires |records| > 0 && Render(records).Ok? && NoNewlines(records)
    ensures forall k :: 0 <= k < |OutputLines(records)| ==>
      |OutputLines(records)[k]| == LineWidth(Widths(TableRows(records)))
  {
    forall k | 0 <= k < |OutputLines(records)|
      ensures |OutputLines(records)[k]| == LineWidth(Widths(TableRows(records)))
    {
      RenderedLineCount(records);
      RenderedLine(records, k);
    }
  }

  /**
   * The first line is the header row: in column `j` it shows header `j`,
   * left-aligned, whatever the column's values are.
   */
  lemma RenderedHeaderLine(records: seq<Record>, j: nat)
    requires |records| > 0 && Render(records).Ok? && NoNewlines(records) && j < |records[0].keys|
    ensures var ws := Widths(TableRows(records)); var name := records[0].keys[j];
      && |ws| == |records[0].keys|
      && |name| <= ws[j]
      && Offset(ws, j) + ws[j] <= |OutputLines(records)[0]|
      && OutputLines(records)[0][Offset(ws, j)..Offset(ws, j) + ws[j]] == name + Spaces(ws[j] - |name|)
  {
    RenderedLineCount(records);
    RenderedCell(records, 0, j);
    HeaderRowAt(records[0].keys, j);
  }

  /**
   * Line `i + 1` is record `i`'s row: in column `j` it shows that record's
   * value for header `j`, aligned by its type.
   */
  lemma RenderedRecordLine(records: seq<Record>, i: nat, j: nat)
    requires |records| > 0 && Render(records).Ok? && NoNewlines(records)
    requires i < |records| && j < |records[0].keys|
    ensures var ws := Widths(TableRows(records)); var v := Field(records[i], records[0].keys[j]);
      && |OutputLines(records)| == |records| + 1
      && |ws| == |records[0].keys|
      && |v.text| <= ws[j]
      && Offset(ws, j) + ws[j] <= |OutputLines(records)[i + 1]|
      && OutputLines(records)[i + 1][Offset(ws, j)..Offset(ws, j) + ws[j]] == Aligned(v, ws[j])
  {
    RenderedLineCount(records);
    RenderedCell(records, i + 1, j);
    RecordRowAt(records, i, j);
  }

  /** Column `j` of output line `k` shows cell `j` of row `k`, aligned. */
  lemma RenderedCell(records: seq<Record>, k: nat, j: nat)
    requires |records| > 0 && Render(records).Ok? && NoNewlines(records)
    requires k <= |records| && j < |records[0].keys|
    ensures var ws := Widths(TableRows(records)); var row := TableRows(records)[k];
      && |OutputLines(records)| == |records| + 1
      && |ws| == |records[0].keys|
      && |row[j].text| <= ws[j]
      && Offset(ws, j) + ws[j] <= |OutputLines(records)[k]|
      && OutputLines(records)[k][Offset(ws, j)..Offset(ws, j) + ws[j]] == Aligned(row[j], ws[j])
  {
    RenderedLine(records, k);
    CellOfLine(OutputLines(records)[k], Widths(TableRows(records)), TableRows(records)[k], j);
  }

  /** Cell `j` of the header row is header `j`, a string. */
  lemma HeaderRowAt(headers: seq<string>, j: nat)
    requires j < |headers|
    ensures HeaderRow(headers)[j] == Value(headers[j], true)
  {
  }

  /** Cell `j` of record `i`'s row is that record's value for header `j`. */
  lemma RecordRowAt(records: seq<Record>, i: nat, j: nat)
    requires i < |records| && j < |records[0].keys|
    ensures TableRows(records)[0] == HeaderRow(records[0].keys)
    ensures TableRows(records)[i + 1][j] == Field(records[i], records[0].keys[j])
  {
  }

  /** The output split on newlines. */
  function OutputLines(records: seq<Record>): seq<string>
    requires |records| > 0 && Render(records).Ok?
  {
    Split(Render(records).value, '\n')
  }

  /** The output has one line per row of the table, and one column per header. */
  lemma RenderedLineCount(records: seq<Record>)
    requires |records| > 0 && Render(records).Ok? && NoNewlines(records)
    ensures |Widths(TableRows(records))| == |records[0].keys|
    ensures |OutputLines(records)| == |records| + 1
  {
    RenderedLines(records);
  }

  /** Line `k` of the output lays out row `k` of the table. */
  lemma RenderedLine(records: seq<Record>, k: nat)
    requires |records| > 0 && Render(records).Ok? && NoNewlines(records) && k <= |records|
    ensures var rows := TableRows(records);
      var ws := Widths(rows);
      var lines := OutputLines(records);
      && |ws| == |records[0].keys|
      && |lines| == |records| + 1
      && FitsWidths(rows[k], ws)
      && LineShows(lines[k], ws, rows[k])
  {
    RenderedLines(records);
  }

  /** The cell a line shows in column `j`. */
  lemma CellOfLine(line: string, ws: seq<nat>, row: seq<Value>, j: nat)
    requires FitsWidths(row, ws) && LineShows(line, ws, row) && j < |ws|
    ensures Offset(ws, j) + ws[j] <= |line|
    ensures line[Offset(ws, j)..Offset(ws, j) + ws[j]] == Aligned(row[j], ws[j])
  {
  }

  /**
   * Only the first record's keys matter: two record lists that agree on the
   * first record's key order and on every record's value for those keys
   * render the same, whatever other fields they hold.
   */
  lemma OtherKeysIgnored(records: seq<Record>, others: seq<Record>)
    requires |records| == |others| > 0 && records[0].keys == others[0].keys
    requires forall i, j :: 0 <= i < |records| && 0 <= j < |records[0].keys| ==>
      Field(records[i], records[0].keys[j]) == Field(others[i], records[0].keys[j])
    ensures Render(records) == Render(others)
  {
    var headers := records[0].keys;
    forall i | 0 <= i < |records|
      ensures RowOf(records[i], headers) == RowOf(others[i], headers)
    {
    }
    assert TableRows(records) == TableRows(others);
  }

  /** For a well-formed first record there is one column per field, and its row holds its own values. */
  lemma FirstRecordColumns(records: seq<Record>)
    requires |records| > 0 && WellFormed(records[0])
    ensures |Widths(TableRows(records))| == |records[0].fields|
    ensures forall j :: 0 <= j < |records[0].keys| ==>
      records[0].keys[j] in records[0].fields
      && TableRows(records)[1][j] == records[0].fields[records[0].keys[j]]
  {
    DistinctKeysCount(records[0].keys, records[0].fields.Keys);
  }

  /** A list of distinct keys has as many entries as the set of those keys. */
  lemma {:induction false} DistinctKeysCount(keys: seq<string>, s: set<string>)
    requires forall i, j :: 0 <= i < j < |keys| ==> keys[i] != keys[j]
    requires forall k :: k in keys <==> k in s
    ensures |keys| == |s|
  {
    if |keys| > 0 {
      var last := keys[|keys| - 1];
      var front := keys[..|keys| - 1];
      assert last !in front;
      assert forall k :: k in front <==> k in s - {last} by {
        forall k ensures k in front <==> k in s - {last} {
          if k in s - {last} {
            assert k in keys;
            var i :| 0 <= i < |keys| && keys[i] == k;
            assert front[i] == k;
          }
        }
      }
      DistinctKeysCount(front, s - {last});
    } else {
      assert forall k :: k !in s;
      assert s == {};
    }
  }
}
