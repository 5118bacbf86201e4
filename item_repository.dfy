/** `ItemRepository`: reading items from the first worksheet of the spreadsheet, and
    writing one item's Photos cell back.

    The worksheet's used range is a sequence of rows, each a sequence of cell texts
    (`GetString()`: the empty string for an empty cell); the first row holds the
    column headers. */
module Repository {
  import opened Util
  import opened Text
  import opened Decimal
  import opened Items

  type Row = seq<string>
  type Sheet = seq<Row>

  /** `row.Cell(j + 1).GetString()`: cells beyond the stored ones are empty. */
  function CellText(row: Row, j: nat): string {
    if j < |row| then row[j] else ""
  }

  /** The dictionary key of a header cell: trimmed and lower-cased. */
  function HeaderKey(cell: string): string {
    Lower(Trim(cell))
  }

  /** The column map of a sequence of header keys: each non-empty key to the 0-based
      index of its column; a later column with the same key replaces an earlier one. */
  function KeyColumns(keys: seq<string>): map<string, nat>
  {
    if keys == [] then map[]
    else
      var m := KeyColumns(keys[..|keys| - 1]);
      var key := keys[|keys| - 1];
      if key == "" then m else m[key := |keys| - 1]
  }

  lemma {:induction false} KeyColumnsCharacterized(keys: seq<string>, key: string)
    ensures key in KeyColumns(keys) <==> key != "" && key in keys
    ensures key in KeyColumns(keys) ==>
              var j := KeyColumns(keys)[key];
              && j < |keys| && keys[j] == key
              && forall j' :: j < j' < |keys| ==> keys[j'] != key
  {
    if keys != [] {
      var init := keys[..|keys| - 1];
      KeyColumnsCharacterized(init, key);
      assert keys == init + [keys[|keys| - 1]];
    }
  }

  /** The column map of a header row (`GetColumnMap`'s dictionary). */
  function ColumnMapOf(header: Row): map<string, nat> {
    KeyColumns(Map(header, HeaderKey))
  }

  /** The column map has a key exactly for the non-empty header keys, and maps it to
      the last column carrying it. */
  lemma ColumnMapOfCharacterized(header: Row, key: string)
    ensures key in ColumnMapOf(header) <==> key != "" && exists j :: 0 <= j < |header| && HeaderKey(header[j]) == key
    ensures key in ColumnMapOf(header) ==>
              var j := ColumnMapOf(header)[key];
              && j < |header| && HeaderKey(header[j]) == key
              && forall j' :: j < j' < |header| ==> HeaderKey(header[j']) != key
  {
    var keys := Map(header, HeaderKey);
    KeyColumnsCharacterized(keys, key);
    forall j | 0 <= j < |header| ensures keys[j] == HeaderKey(header[j]) {
      MapAt(header, HeaderKey, j);
    }
  }

  /** Two keys never share a column. */
  lemma ColumnsAreDistinct(header: Row, k1: string, k2: string)
    requires k1 in ColumnMapOf(header) && k2 in ColumnMapOf(header) && k1 != k2
    ensures ColumnMapOf(header)[k1] != ColumnMapOf(header)[k2]
  {
    ColumnMapOfCharacterized(header, k1);
    ColumnMapOfCharacterized(header, k2);
  }

  /** `GetColumnMap`. */
  method GetColumnMap(header: Row) returns (columns: map<string, nat>)
    ensures columns == ColumnMapOf(header)
  {
    columns := map[];
    for i := 0 to |header|
      invariant columns == ColumnMapOf(header[..i])
    {
      assert header[..i + 1][..i] == header[..i];
      assert Map(header[..i + 1], HeaderKey) == Map(header[..i], HeaderKey) + [HeaderKey(header[i])];
      var key := HeaderKey(header[i]);
      if key != "" {
        columns := columns[key := i];
      }
    }
    assert header[..|header|] == header;
  }

  /** `TryGetCellValue`: the trimmed text of the named column's cell, when the column
      exists and the cell is not empty (a cell of only white space gives ""). */
  function TryGetCellValue(row: Row, columns: map<string, nat>, column: string): (r: Option<string>)
    ensures r.Some? <==> column in columns && CellText(row, columns[column]) != ""
    ensures r.Some? ==> r.value == Trim(CellText(row, columns[column]))
  {
    if column !in columns then None
    else
      var cell := CellText(row, columns[column]);
      if cell == "" then None else Some(Trim(cell))
  }

  /** The item number of a row: the "nummer" cell when it parses as a 32-bit integer. */
  function RowNumber(row: Row, columns: map<string, nat>): Option<int> {
    match TryGetCellValue(row, columns, "nummer")
    case None => None
    case Some(s) => ParseInt(s)
  }

  /** A cell holding only white space is present: it reads as "", not as absent. */
  lemma WhiteSpaceCellReadsEmpty(row: Row, columns: map<string, nat>, column: string)
    requires column in columns
    requires CellText(row, columns[column]) != "" && AllWhiteSpace(CellText(row, columns[column]))
    ensures TryGetCellValue(row, columns, column) == Some("")
  {
    TrimShape(CellText(row, columns[column]));
  }

  /** `ParseRow`: one item from a data row; fields whose column is missing or whose
      cell is empty stay null. */
  function ParseRow(row: Row, columns: map<string, nat>): (item: Item)
    ensures item.number.Some? ==> IsInt32(item.number.value)
  {
    var owner := TryGetCellValue(row, columns, "nuvarand_ägare");
    Item(
      number := RowNumber(row, columns),
      name := TryGetCellValue(row, columns, "namn"),
      photos := TryGetCellValue(row, columns, "foto"),
      category := TryGetCellValue(row, columns, "kategori"),
      createdBy := TryGetCellValue(row, columns, "tillverkad_vem"),
      createdYear := TryGetCellValue(row, columns, "tillverkad_år"),
      createdPlace := TryGetCellValue(row, columns, "tillverkad_plats"),
      stamp := TryGetCellValue(row, columns, "stämpel"),
      provenance := TryGetCellValue(row, columns, "proveniens"),
      currentOwner := if owner.Some? then owner else TryGetCellValue(row, columns, "nuvarand_ ägare"))
  }

  /** The number is set exactly when the "nummer" cell is present, non-empty and its
      trimmed text parses as a 32-bit integer; the owner is the trimmed "nuvarand_ägare"
      cell when that one is readable, and otherwise the trimmed "nuvarand_ ägare" cell. */
  lemma ParseRowNumberAndOwner(row: Row, columns: map<string, nat>)
    ensures var item := ParseRow(row, columns);
      && (item.number.Some? <==>
            "nummer" in columns && CellText(row, columns["nummer"]) != "" &&
            ParseInt(Trim(CellText(row, columns["nummer"]))).Some?)
      && (item.number.Some? ==> item.number == ParseInt(Trim(CellText(row, columns["nummer"]))))
      && ("nuvarand_ägare" in columns && CellText(row, columns["nuvarand_ägare"]) != "" ==>
            item.currentOwner == Some(Trim(CellText(row, columns["nuvarand_ägare"]))))
      && (!("nuvarand_ägare" in columns && CellText(row, columns["nuvarand_ägare"]) != "") ==>
            item.currentOwner == TryGetCellValue(row, columns, "nuvarand_ ägare"))
  {
  }

  /** A number written into the "nummer" cell as `ToString()` text, padded with white
      space or not, reads back as that number. */
  lemma NumberCellRoundTrip(row: Row, columns: map<string, nat>, n: int, pad: string)
    requires IsInt32(n) && AllWhiteSpace(pad)
    requires "nummer" in columns && CellText(row, columns["nummer"]) == pad + IntToString(n)
    ensures ParseRow(row, columns).number == Some(n)
  {
    var s := IntToString(n);
    ParseIntRoundTrip(n);
    assert s[0] == '-' || IsDigit(s[0]);
    assert IsTrimmed(s);
    TrimPadded(pad, s);
  }

  /** The items a row loop keeps: those with a non-empty name. */
  predicate HasName(item: Item) {
    item.name.Some? && item.name.value != ""
  }

  function ParseRows(rows: seq<Row>, columns: map<string, nat>): seq<Item> {
    Map(rows, row => ParseRow(row, columns))
  }

  /** `LoadItems` on a worksheet: nothing without a header and at least one data row;
      otherwise the named items of the data rows, in row order. */
  function LoadedItems(sheet: Option<Sheet>): seq<Item> {
    if sheet.None? || |sheet.value| < 2 then []
    else Filter(ParseRows(sheet.value[1..], ColumnMapOf(sheet.value[0])), HasName)
  }

  /** Every loaded item comes from a data row (not the header) and has a name; every
      data row whose item has a name is loaded. */
  lemma LoadedItemsCharacterized(sheet: Sheet, item: Item)
    requires |sheet| >= 2
    ensures item in LoadedItems(Some(sheet)) <==>
              HasName(item) && exists row :: row in sheet[1..] && item == ParseRow(row, ColumnMapOf(sheet[0]))
  {
    var columns := ColumnMapOf(sheet[0]);
    FilterMapMember(sheet[1..], row => ParseRow(row, columns), HasName, item);
  }

  /** Setting cell `j` of a row, padding a short row with empty cells. */
  function SetCell(row: Row, j: nat, value: string): (r: Row)
    ensures |r| == if j < |row| then |row| else j + 1
    ensures CellText(r, j) == value
    ensures forall j' :: j' != j ==> CellText(r, j') == CellText(row, j')
  {
    if j < |row| then row[j := value] else row + seq(j - |row|, _ => "") + [value]
  }

  /** The first data row (index 1 or later) whose number is `number`, or `|rows|`. */
  function FirstRowWithNumber(rows: seq<Row>, columns: map<string, nat>, number: int, from: nat): (i: nat)
    requires 1 <= from <= |rows|
    ensures from <= i <= |rows|
    ensures i < |rows| ==> RowNumber(rows[i], columns) == Some(number)
    ensures forall k :: from <= k < i ==> RowNumber(rows[k], columns) != Some(number)
    decreases |rows| - from
  {
    if from == |rows| || RowNumber(rows[from], columns) == Some(number) then from
    else FirstRowWithNumber(rows, columns, number, from + 1)
  }

  /** The worksheet after `UpdateItemPhotos(number, photos)`: the Photos cell of the first
      data row with that number holds `photos`; without such a row, without a "foto"
      column or without data rows nothing changes. */
  function PhotosUpdated(sheet: Option<Sheet>, number: int, photos: string): Option<Sheet> {
    if sheet.None? || |sheet.value| < 2 then sheet
    else
      var rows := sheet.value;
      var columns := ColumnMapOf(rows[0]);
      if "foto" !in columns then sheet
      else
        var i := FirstRowWithNumber(rows, columns, number, 1);
        if i == |rows| then sheet
        else Some(rows[i := SetCell(rows[i], columns["foto"], photos)])
  }

  /** Without data rows, without a "foto" column or without a row carrying the number,
      the worksheet is left as it was. */
  lemma UpdateWithoutTarget(sheet: Option<Sheet>, number: int, photos: string)
    requires sheet.Some? && |sheet.value| >= 2 ==>
               var columns := ColumnMapOf(sheet.value[0]);
               "foto" !in columns || forall k :: 1 <= k < |sheet.value| ==> RowNumber(sheet.value[k], columns) != Some(number)
    ensures PhotosUpdated(sheet, number, photos) == sheet
  {
  }

  /** A row's item depends on its cells only: rows that agree on every mapped column
      except "foto" give the same item up to Photos. */
  lemma ParseRowSameCells(row1: Row, row2: Row, columns: map<string, nat>)
    requires forall key :: key in columns && key != "foto" ==> CellText(row2, columns[key]) == CellText(row1, columns[key])
    ensures ParseRow(row2, columns) == ParseRow(row1, columns).(photos := TryGetCellValue(row2, columns, "foto"))
  {
  }

  /** Updating the Photos cell changes only the matching row, keeps its number and every
      other field, and the item then reads back the new Photos value (trimmed; null when
      it is empty). */
  lemma UpdateThenLoad(sheet: Sheet, number: int, photos: string)
    requires |sheet| >= 2 && "foto" in ColumnMapOf(sheet[0])
    requires FirstRowWithNumber(sheet, ColumnMapOf(sheet[0]), number, 1) < |sheet|
    ensures var i := FirstRowWithNumber(sheet, ColumnMapOf(sheet[0]), number, 1);
            var updated := PhotosUpdated(Some(sheet), number, photos).value;
      && |updated| == |sheet| && updated[0] == sheet[0]
      && (forall k :: 0 <= k < |sheet| && k != i ==> updated[k] == sheet[k])
      && ParseRow(updated[i], ColumnMapOf(sheet[0])) ==
           ParseRow(sheet[i], ColumnMapOf(sheet[0])).(photos := if photos == "" then None else Some(Trim(photos)))
  {
    var columns := ColumnMapOf(sheet[0]);
    var i := FirstRowWithNumber(sheet, columns, number, 1);
    var row' := SetCell(sheet[i], columns["foto"], photos);
    forall key | key in columns && key != "foto"
      ensures CellText(row', columns[key]) == CellText(sheet[i], columns[key])
    {
      ColumnsAreDistinct(sheet[0], key, "foto");
    }
    ParseRowSameCells(sheet[i], row', columns);
    assert TryGetCellValue(row', columns, "foto") == if photos == "" then None else Some(Trim(photos));
  }

  /** The spreadsheet file, as the repository sees it: its first worksheet's used range,
      or `None` when the file is missing, has no worksheet or cannot be opened. */
  class ItemRepository {
    var sheet: Option<Sheet>

    constructor (sheet: Option<Sheet>)
      ensures this.sheet == sheet
    {
      this.sheet := sheet;
    }

    /** `LoadItems`. */
    method LoadItems() returns (items: seq<Item>)
      ensures items == LoadedItems(sheet)
    {
      items := [];
      if sheet.None? || |sheet.value| < 2 {
        return;
      }
      var rows := sheet.value;
      var columns := GetColumnMap(rows[0]);
      items := ParseDataRows(rows[1..], columns);
    }

    /** The row loop of `LoadItems`: parse every data row, keep the named items. */
    static method ParseDataRows(rows: seq<Row>, columns: map<string, nat>) returns (items: seq<Item>)
      ensures items == Filter(ParseRows(rows, columns), HasName)
    {
      items := [];
      for i := 0 to |rows|
        invariant items == Filter(ParseRows(rows[..i], columns), HasName)
      {
        var item := ParseRow(rows[i], columns);
        assert Filter(ParseRows(rows[..i + 1], columns), HasName) == items + Filter([item], HasName) by {
          assert rows[..i + 1][..i] == rows[..i];
          FilterAppend(ParseRows(rows[..i], columns), [item], HasName);
        }
        if HasName(item) {
          items := items + [item];
        }
      }
      assert rows[..|rows|] == rows;
    }

    /** The row search of `UpdateItemPhotos`. */
    static method FindRow(rows: seq<Row>, columns: map<string, nat>, number: int) returns (found: nat)
      requires |rows| >= 1
      ensures found == FirstRowWithNumber(rows, columns, number, 1)
    {
      found := 1;
      while found < |rows|
        invariant 1 <= found <= |rows|
        invariant FirstRowWithNumber(rows, columns, number, found) == FirstRowWithNumber(rows, columns, number, 1)
      {
        var numberText := TryGetCellValue(rows[found], columns, "nummer");
        if numberText.Some? && ParseInt(numberText.value) == Some(number) {
          return;
        }
        found := found + 1;
      }
    }

    /** `UpdateItemPhotos`. */
    method UpdateItemPhotos(number: int, photos: string)
      requires IsInt32(number)
      modifies this
      ensures sheet == PhotosUpdated(old(sheet), number, photos)
    {
      if sheet.None? || |sheet.value| < 2 {
        return;
      }
      var rows := sheet.value;
      var columns := GetColumnMap(rows[0]);
      if "foto" !in columns {
        return;
      }
      var i := FindRow(rows, columns, number);
      if i < |rows| {
        sheet := Some(rows[i := SetCell(rows[i], columns["foto"], photos)]);
      }
    }
  }
}
