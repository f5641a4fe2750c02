/** Laying flattened records out in a sheet: unique headers, and rows from which every value can be read back. */
module SheetLayout {
  import opened CellSplitting
  import opened Lists
  import opened Wrappers
  import ColumnPaths

  // ---------------------------------------------------------------- unique names

  /** The candidates for a name, in the order in which they are tried, from 1. */
  function Numbered(name: string, number: nat): string {
    if number <= 1 then name else name + " (" + ColumnPaths.Decimal(number) + ")"
  }

  lemma NumberedIsInjective(name: string, m: nat, n: nat)
    requires 1 <= m && 1 <= n && Numbered(name, m) == Numbered(name, n)
    ensures m == n
  {
    if m > 1 && n > 1 {
      var d, e := ColumnPaths.Decimal(m), ColumnPaths.Decimal(n);
      ColumnPaths.AppendIsAssociative(name + " (", d, ")");
      ColumnPaths.AppendIsAssociative(name + " (", e, ")");
      ColumnPaths.CancelFront(name + " (", d + ")", e + ")");
      assert (d + ")")[..|d|] == d && (e + ")")[..|e|] == e;
      ColumnPaths.DecimalIsInjective(m, n);
    } else {
      assert |Numbered(name, m)| == |Numbered(name, n)|;
    }
  }

  /** The first candidate that is not in use. */
  ghost predicate IsFirstFree(name: string, used: set<string>, number: nat) {
    && number >= 1 && Numbered(name, number) !in used
    && forall m :: 1 <= m < number ==> Numbered(name, m) in used
  }

  /** The candidates before the one of `number`. */
  ghost function Tried(name: string, number: nat): set<string> {
    if number <= 1 then {} else Tried(name, number - 1) + {Numbered(name, number - 1)}
  }

  lemma {:induction false} TriedMember(name: string, number: nat, x: string)
    ensures x in Tried(name, number) <==> exists m: nat :: 1 <= m < number && x == Numbered(name, m)
  {
    hide Numbered;
    if number > 1 {
      TriedMember(name, number - 1, x);
    }
  }

  lemma {:induction false} TriedSize(name: string, number: nat)
    requires number >= 1
    ensures |Tried(name, number)| == number - 1
  {
    if number > 1 {
      TriedSize(name, number - 1);
      TriedMember(name, number - 1, Numbered(name, number - 1));
      forall m: nat | 1 <= m < number - 1
        ensures Numbered(name, m) != Numbered(name, number - 1)
      {
        if Numbered(name, m) == Numbered(name, number - 1) {
          NumberedIsInjective(name, m, number - 1);
        }
      }
    }
  }

  /** As all candidates differ, no more of them are in use than there are names in use. */
  lemma TriedIsBounded(name: string, number: nat, used: set<string>)
    requires number >= 1 && Tried(name, number) <= used
    ensures number - 1 <= |used|
  {
    TriedSize(name, number);
    assert used == Tried(name, number) + (used - Tried(name, number));
  }

  lemma FirstFreeIsFound(name: string, used: set<string>, number: nat)
    requires number >= 1 && Tried(name, number) <= used && Numbered(name, number) !in used
    ensures IsFirstFree(name, used, number)
  {
    forall m: nat | 1 <= m < number
      ensures Numbered(name, m) in used
    {
      TriedMember(name, number, Numbered(name, m));
    }
  }

  method UniqueName(name: string, used: set<string>) returns (candidate: string, after: set<string>)
    ensures candidate !in used && after == used + {candidate}
    ensures exists number :: IsFirstFree(name, used, number) && candidate == Numbered(name, number)
  {
    var number := 2;
    candidate := name;
    while candidate in used
      invariant number >= 2 && candidate == Numbered(name, number - 1) && Tried(name, number - 1) <= used
      decreases |used| + 2 - number
    {
      assert Tried(name, number) == Tried(name, number - 1) + {candidate};
      TriedIsBounded(name, number, used);
      candidate := name + " (" + ColumnPaths.Decimal(number) + ")";
      number := number + 1;
    }
    FirstFreeIsFound(name, used, number - 1);
    after := used + {candidate};
  }

  // ---------------------------------------------------------------- columns and headers

  /** What a cell can hold; `Scalar` stands for numbers and truth values. */
  datatype Value = Blank | Scalar(code: string) | Str(text: string)

  type Row = map<string, Value>

  datatype Column = Column(name: string, parts: nat)

  /** The number of cells before column `k`. */
  function CellsBefore(columns: seq<Column>, k: nat): nat
    requires k <= |columns|
  {
    if k == 0 then 0 else CellsBefore(columns, k - 1) + columns[k - 1].parts
  }

  function TotalParts(columns: seq<Column>): nat {
    CellsBefore(columns, |columns|)
  }

  /** What part `part` of a column is called before it is made unique. */
  function HeaderBase(column: Column, part: nat): string {
    Normalise(if part == 0 then column.name else column.name + " [part " + ColumnPaths.Decimal(part + 1) + "]")
  }

  function AsSet(s: seq<string>): set<string> {
    set x | x in s
  }

  /** Header `h` is the first candidate for `base` that no header before it has taken. */
  ghost predicate IsHeader(headers: seq<string>, h: nat, base: string) {
    && h < |headers|
    && exists number :: IsFirstFree(base, AsSet(headers[..h]), number) && headers[h] == Numbered(base, number)
  }

  lemma HeaderStays(headers: seq<string>, more: seq<string>, h: nat, base: string)
    requires IsHeader(headers, h, base) && headers <= more
    ensures IsHeader(more, h, base)
  {
    assert more[..h] == headers[..h];
  }

  lemma AppendedHeader(headers: seq<string>, header: string, base: string, number: nat)
    requires HasNoDuplicates(headers) && IsFirstFree(base, AsSet(headers), number) && header == Numbered(base, number)
    ensures HasNoDuplicates(headers + [header]) && IsHeader(headers + [header], |headers|, base)
    ensures AsSet(headers + [header]) == AsSet(headers) + {header}
  {
    var more := headers + [header];
    assert more[..|headers|] == headers;
    JoinedHasNoDuplicates(headers, [header]);
  }

  /** The headers of one column, behind those of the columns before it. */
  method AddHeaders(column: Column, headers: seq<string>, used: set<string>) returns (more: seq<string>, after: set<string>)
    requires HasNoDuplicates(headers) && used == AsSet(headers)
    ensures HasNoDuplicates(more) && after == AsSet(more) && headers <= more && |more| == |headers| + column.parts
    ensures forall part :: 0 <= part < column.parts ==> IsHeader(more, |headers| + part, HeaderBase(column, part))
  {
    hide IsFirstFree, Numbered, HeaderBase, IsHeader;
    more, after := headers, used;
    for part := 0 to column.parts
      invariant HasNoDuplicates(more) && after == AsSet(more) && headers <= more && |more| == |headers| + part
      invariant forall q :: 0 <= q < part ==> IsHeader(more, |headers| + q, HeaderBase(column, q))
    {
      var base := HeaderBase(column, part);
      ghost var before := more;
      var header;
      header, after := UniqueName(base, after);
      ghost var number :| IsFirstFree(base, AsSet(before), number) && header == Numbered(base, number);
      AppendedHeader(before, header, base, number);
      more := more + [header];
      forall q | 0 <= q < part
        ensures IsHeader(more, |headers| + q, HeaderBase(column, q))
      {
        HeaderStays(before, more, |headers| + q, HeaderBase(column, q));
      }
    }
  }

  /** Every header is the first free candidate for its part of its column. */
  ghost predicate AreHeaders(headers: seq<string>, columns: seq<Column>, n: nat)
    requires n <= |columns|
  {
    && |headers| == CellsBefore(columns, n) && HasNoDuplicates(headers)
    && forall c, part :: 0 <= c < n && 0 <= part < columns[c].parts ==>
         IsHeader(headers, CellsBefore(columns, c) + part, HeaderBase(columns[c], part))
  }

  method Headers(columns: seq<Column>) returns (headers: seq<string>)
    ensures AreHeaders(headers, columns, |columns|)
  {
    hide IsHeader, HeaderBase;
    headers := [];
    var used: set<string> := {};
    for i := 0 to |columns|
      invariant AreHeaders(headers, columns, i) && used == AsSet(headers)
    {
      ghost var before := headers;
      headers, used := AddHeaders(columns[i], headers, used);
      forall c, part | 0 <= c < i && 0 <= part < columns[c].parts
        ensures IsHeader(headers, CellsBefore(columns, c) + part, HeaderBase(columns[c], part))
      {
        HeaderStays(before, headers, CellsBefore(columns, c) + part, HeaderBase(columns[c], part));
      }
    }
  }

  // ---------------------------------------------------------------- the cells of one value

  function AllStr(parts: seq<string>): seq<Value> {
    seq(|parts|, i requires 0 <= i < |parts| => Str(parts[i]))
  }

  /** A value cannot be stored when its text has a character that XML excludes. */
  predicate IsStorableValue(v: Value) {
    v.Str? ==> forall c :: c in Normalise(v.text) ==> IsStorable(c)
  }

  /** The cells that a value is written into. */
  ghost predicate AreCells(v: Value, cells: seq<Value>) {
    if v.Str? then exists parts :: AreCellParts(Normalise(v.text), parts) && cells == AllStr(parts)
    else cells == [v]
  }

  datatype LayoutError = Unstorable | NameTooLong | TooManyColumns | NoRecords | InputChanged

  method CellsOf(v: Value) returns (r: Result<seq<Value>, LayoutError>)
    ensures r == Err(Unstorable) <==> !IsStorableValue(v)
    ensures r != Err(Unstorable) ==> r.Ok? && AreCells(v, r.value)
  {
    if !v.Str? {
      return Ok([v]);
    }
    var parts := CellParts(v.text);
    if parts.Err? {
      return Err(Unstorable);
    }
    return Ok(AllStr(parts.value));
  }

  lemma PartsAreNonempty(value: string, parts: seq<string>)
    requires AreCellParts(value, parts)
    ensures parts != []
  {
    assert UnitsOf("") == 0;
  }

  /** However often a value is split, it takes the same number of cells, and at least one. */
  lemma CellCountIsFixed(v: Value, a: seq<Value>, b: seq<Value>)
    requires AreCells(v, a) && AreCells(v, b)
    ensures |a| == |b| > 0
  {
    if v.Str? {
      var p :| AreCellParts(Normalise(v.text), p) && a == AllStr(p);
      var q :| AreCellParts(Normalise(v.text), q) && b == AllStr(q);
      PartsAreNonempty(Normalise(v.text), p);
      PartsAreNonempty(Normalise(v.text), q);
    }
  }

  function JoinStr(cells: seq<Value>): string {
    if cells == [] then ""
    else JoinStr(cells[..|cells| - 1]) + if cells[|cells| - 1].Str? then cells[|cells| - 1].text else ""
  }

  /** What a block of cells says: the text in its pieces, or the single thing that is no text. */
  function Read(block: seq<Value>): Value
    requires block != []
  {
    if block[0].Str? then Str(JoinStr(block)) else block[0]
  }

  function Padded(cells: seq<Value>, width: nat): seq<Value>
    requires |cells| <= width
  {
    cells + seq(width - |cells|, _ => Blank)
  }

  function NormalisedValue(v: Value): Value {
    if v.Str? then Str(Normalise(v.text)) else v
  }

  lemma {:induction false} PaddingAddsNoText(cells: seq<Value>, width: nat)
    requires |cells| <= width
    ensures JoinStr(Padded(cells, width)) == JoinStr(cells)
  {
    if |cells| < width {
      PaddingAddsNoText(cells, width - 1);
      assert Padded(cells, width)[..width - 1] == Padded(cells, width - 1);
    } else {
      assert Padded(cells, width) == cells;
    }
  }

  lemma {:induction false} JoinStrIsJoin(parts: seq<string>)
    ensures JoinStr(AllStr(parts)) == Join(parts)
  {
    if parts != [] {
      JoinStrIsJoin(parts[..|parts| - 1]);
      assert AllStr(parts)[..|parts| - 1] == AllStr(parts[..|parts| - 1]);
    }
  }

  /** A value can be read back from its cells, whatever the width of its column. */
  lemma ValueCanBeReadBack(v: Value, cells: seq<Value>, width: nat)
    requires AreCells(v, cells) && |cells| <= width
    ensures cells != [] && Read(Padded(cells, width)) == NormalisedValue(v)
  {
    CellCountIsFixed(v, cells, cells);
    if v.Str? {
      var parts :| AreCellParts(Normalise(v.text), parts) && cells == AllStr(parts);
      PaddingAddsNoText(cells, width);
      JoinStrIsJoin(parts);
    }
  }

  // ---------------------------------------------------------------- rows

  /** A column without a value is left blank, like a null. */
  function ValueIn(row: Row, name: string): Value {
    if name in row then row[name] else Blank
  }

  ghost predicate IsBlock(v: Value, block: seq<Value>, width: nat) {
    exists cells :: AreCells(v, cells) && |cells| <= width && block == Padded(cells, width)
  }

  lemma {:induction false} CellsBeforeGrows(columns: seq<Column>, j: nat, k: nat)
    requires j <= k <= |columns|
    ensures CellsBefore(columns, j) <= CellsBefore(columns, k)
  {
    if j < k {
      CellsBeforeGrows(columns, j, k - 1);
    }
  }

  /** The cells of column `k`. */
  function Block(columns: seq<Column>, cells: seq<Value>, k: nat): seq<Value>
    requires k < |columns| && |cells| == TotalParts(columns)
  {
    CellsBeforeGrows(columns, k + 1, |columns|);
    cells[CellsBefore(columns, k)..CellsBefore(columns, k + 1)]
  }

  /** The cells of a row: as many as headers, one block for each column. */
  ghost predicate IsLaidOut(columns: seq<Column>, row: Row, cells: seq<Value>) {
    && |cells| == TotalParts(columns)
    && forall k {:trigger Block(columns, cells, k)} :: 0 <= k < |columns| ==>
         IsBlock(ValueIn(row, columns[k].name), Block(columns, cells, k), columns[k].parts)
  }

  /** Every value of the row can be read back, up to line breaks. */
  lemma RowCanBeReadBack(columns: seq<Column>, row: Row, cells: seq<Value>, k: nat)
    requires IsLaidOut(columns, row, cells) && k < |columns|
    ensures Block(columns, cells, k) != []
    ensures Read(Block(columns, cells, k)) == NormalisedValue(ValueIn(row, columns[k].name))
  {
    var v, block := ValueIn(row, columns[k].name), Block(columns, cells, k);
    assert IsBlock(v, block, columns[k].parts);
    var part :| AreCells(v, part) && |part| <= columns[k].parts && block == Padded(part, columns[k].parts);
    ValueCanBeReadBack(v, part, columns[k].parts);
  }

  lemma {:induction false} CellsBeforeOfAppend(columns: seq<Column>, column: Column, k: nat)
    requires k <= |columns|
    ensures CellsBefore(columns + [column], k) == CellsBefore(columns, k)
  {
    if k > 0 {
      CellsBeforeOfAppend(columns, column, k - 1);
    }
  }

  lemma BlockOfAppend(columns: seq<Column>, column: Column, cells: seq<Value>, block: seq<Value>, k: nat)
    requires |cells| == TotalParts(columns) && |block| == column.parts && k <= |columns|
    ensures |cells + block| == TotalParts(columns + [column])
    ensures Block(columns + [column], cells + block, k) == if k < |columns| then Block(columns, cells, k) else block
  {
    CellsBeforeOfAppend(columns, column, k);
    CellsBeforeOfAppend(columns, column, |columns|);
    if k < |columns| {
      CellsBeforeOfAppend(columns, column, k + 1);
      CellsBeforeGrows(columns, k + 1, |columns|);
      assert (cells + block)[..|cells|] == cells;
    } else {
      assert (cells + block)[|cells|..] == block;
    }
  }

  lemma LaidOutNext(columns: seq<Column>, column: Column, row: Row, cells: seq<Value>, block: seq<Value>)
    requires IsLaidOut(columns, row, cells) && IsBlock(ValueIn(row, column.name), block, column.parts)
    ensures IsLaidOut(columns + [column], row, cells + block)
  {
    BlockOfAppend(columns, column, cells, block, |columns|);
    forall k | 0 <= k <= |columns|
      ensures Block(columns + [column], cells + block, k) == if k < |columns| then Block(columns, cells, k) else block
    {
      BlockOfAppend(columns, column, cells, block, k);
    }
  }

  // ---------------------------------------------------------------- the first pass

  /** Every value of the row has a column that is wide enough. */
  ghost predicate Fits(row: Row, columns: seq<Column>) {
    forall name :: name in row ==> FitsIn(name, row[name], columns)
  }

  ghost predicate FitsIn(name: string, v: Value, columns: seq<Column>) {
    exists k :: 0 <= k < |columns| && columns[k].name == name && IsWideEnough(v, columns[k].parts)
  }

  ghost predicate IsWideEnough(v: Value, width: nat) {
    IsStorableValue(v) && forall cells :: AreCells(v, cells) ==> |cells| <= width
  }

  lemma WidthOfCells(v: Value, cells: seq<Value>)
    requires AreCells(v, cells) && IsStorableValue(v)
    ensures |cells| > 0 && Fills(v, |cells|) && forall width :: |cells| <= width ==> IsWideEnough(v, width)
  {
    CellCountIsFixed(v, cells, cells);
    forall other | AreCells(v, other)
      ensures |other| == |cells|
    {
      CellCountIsFixed(v, other, cells);
    }
  }

  ghost function NamesOf(columns: seq<Column>): set<string> {
    set c | c in columns :: c.name
  }

  /** The value fills the whole column. */
  ghost predicate Fills(v: Value, width: nat) {
    exists cells :: AreCells(v, cells) && |cells| == width
  }

  ghost predicate FillsIn(row: Row, c: Column) {
    c.name in row && Fills(row[c.name], c.parts)
  }

  /** No column is wider than some value of its name needs. */
  ghost predicate AreTight(columns: seq<Column>, rows: seq<Row>) {
    forall c :: c in columns ==> exists row :: row in rows && FillsIn(row, c)
  }

  /** Columns that were changed are filled by this row. */
  ghost predicate AreFrom(after: seq<Column>, before: seq<Column>, row: Row) {
    forall c :: c in after ==> c in before || FillsIn(row, c)
  }

  lemma StayTight(after: seq<Column>, before: seq<Column>, rows: seq<Row>, row: Row)
    requires AreTight(before, rows) && AreFrom(after, before, row)
    ensures AreTight(after, rows + [row])
  {
    hide FillsIn;
    forall c | c in after
      ensures exists other :: other in rows + [row] && FillsIn(other, c)
    {
      if c in before {
        var other :| other in rows && FillsIn(other, c);
        assert other in rows + [row];
      } else {
        assert row in rows + [row];
      }
    }
  }

  predicate CanBeHeader(name: string) {
    IsStorableValue(Str(name)) && UnitsOf(name) <= MAX_CELL_UNITS
  }

  ghost predicate AreColumns(columns: seq<Column>) {
    && (forall i, j :: 0 <= i < j < |columns| ==> columns[i].name != columns[j].name)
    && (forall k :: 0 <= k < |columns| ==> columns[k].parts >= 1 && CanBeHeader(columns[k].name))
  }

  /** Columns are only ever added or widened. */
  ghost predicate Covers(after: seq<Column>, before: seq<Column>) {
    |before| <= |after| && forall k :: 0 <= k < |before| ==>
      after[k].name == before[k].name && after[k].parts >= before[k].parts
  }

  lemma FitsInMore(name: string, v: Value, before: seq<Column>, after: seq<Column>)
    requires FitsIn(name, v, before) && Covers(after, before)
    ensures FitsIn(name, v, after)
  {
    var k :| 0 <= k < |before| && before[k].name == name && IsWideEnough(v, before[k].parts);
    assert after[k].name == name && IsWideEnough(v, after[k].parts);
  }

  /** The columns after column `k` was widened to at least `parts`, or opened with them. */
  function Widened(columns: seq<Column>, k: nat, name: string, parts: nat): seq<Column>
    requires k <= |columns|
  {
    if k == |columns| then columns + [Column(name, parts)]
    else columns[k := Column(name, if columns[k].parts < parts then parts else columns[k].parts)]
  }

  lemma WidenedFits(columns: seq<Column>, k: nat, name: string, parts: nat, v: Value)
    requires AreColumns(columns) && k <= |columns| && parts > 0
    requires if k == |columns| then name !in NamesOf(columns) && CanBeHeader(name) else columns[k].name == name
    requires (forall width :: parts <= width ==> IsWideEnough(v, width)) && Fills(v, parts)
    ensures forall c :: c in Widened(columns, k, name, parts) ==> c in columns || (c.name == name && Fills(v, c.parts))
    ensures var after := Widened(columns, k, name, parts);
            AreColumns(after) && Covers(after, columns) && FitsIn(name, v, after)
  {
    hide IsWideEnough, Fills, CanBeHeader;
    var after := Widened(columns, k, name, parts);
    assert forall j :: 0 <= j < |columns| ==> columns[j].name in NamesOf(columns);
    assert after[k].name == name && IsWideEnough(v, after[k].parts);
  }

  /** Where the column of that name is, if it is. */
  method FindColumn(name: string, columns: seq<Column>) returns (k: nat)
    ensures k <= |columns| && (if k == |columns| then name !in NamesOf(columns) else columns[k].name == name)
  {
    k := 0;
    while k < |columns| && columns[k].name != name
      invariant k <= |columns| && forall j :: 0 <= j < k ==> columns[j].name != name
    {
      k := k + 1;
    }
  }

  /** The value or its name cannot be stored, for the stated reason. */
  ghost predicate IsAtFault(name: string, v: Value, error: LayoutError) {
    || (error == Unstorable && (!IsStorableValue(v) || !IsStorableValue(Str(name))))
    || (error == NameTooLong && UnitsOf(name) > MAX_CELL_UNITS)
  }

  ghost predicate HasFault(row: Row, error: LayoutError) {
    exists name :: name in row && IsAtFault(name, row[name], error)
  }

  /** Some leading records need more columns than a sheet has. */
  ghost predicate IsTooWide(columns: seq<Column>, rows: seq<Row>, n: nat) {
    n <= |rows| && AreColumns(columns) && AreTight(columns, rows[..n]) && TotalParts(columns) > MAX_COLUMNS
  }

  /** Why a conversion fails; not because the input changed, as it does not. */
  ghost predicate IsFailure(rows: seq<Row>, error: LayoutError) {
    match error
    case NoRecords => rows == []
    case TooManyColumns => exists columns, n: nat :: IsTooWide(columns, rows, n)
    case InputChanged => false
    case _ => exists row :: row in rows && HasFault(row, error)
  }

  /** Widens the column of one value, or opens it. */
  method Measure(name: string, v: Value, columns: seq<Column>) returns (r: Result<seq<Column>, LayoutError>)
    requires AreColumns(columns)
    ensures r.Err? ==> IsAtFault(name, v, r.error)
    ensures r.Ok? ==> AreColumns(r.value) && Covers(r.value, columns) && FitsIn(name, v, r.value)
    ensures r.Ok? ==> forall c :: c in r.value ==> c in columns || (c.name == name && Fills(v, c.parts))
  {
    hide AreCells, AreColumns, Covers, FitsIn, IsWideEnough, IsStorableValue, UnitsOf;
    var k := FindColumn(name, columns);
    if k == |columns| {
      var header := CellsOf(Str(name));
      if header.Err? {
        return Err(header.error);
      }
      if UnitsOf(name) > MAX_CELL_UNITS {
        return Err(NameTooLong);
      }
    }
    var cells := CellsOf(v);
    if cells.Err? {
      return Err(cells.error);
    }
    WidthOfCells(v, cells.value);
    WidenedFits(columns, k, name, |cells.value|, v);
    r := Ok(Widened(columns, k, name, |cells.value|));
  }

  const MAX_COLUMNS := 16384

  method MeasureRow(row: Row, columns: seq<Column>) returns (r: Result<seq<Column>, LayoutError>)
    requires AreColumns(columns)
    ensures r.Err? ==> (r.error == Unstorable || r.error == NameTooLong) && HasFault(row, r.error)
    ensures r.Ok? ==> AreColumns(r.value) && Covers(r.value, columns) && Fits(row, r.value)
    ensures r.Ok? ==> AreFrom(r.value, columns, row)
  {
    hide FitsIn, AreColumns, Fills;
    r := Ok(columns);
    var todo := row.Keys;
    while todo != {}
      invariant todo <= row.Keys && r.Ok? && AreColumns(r.value) && Covers(r.value, columns)
      invariant AreFrom(r.value, columns, row)
      invariant forall name :: name in row && name !in todo ==> FitsIn(name, row[name], r.value)
    {
      var name :| name in todo;
      var before := r.value;
      r := Measure(name, row[name], before);
      if r.Err? {
        return;
      }
      forall other | other in row && other !in todo
        ensures FitsIn(other, row[other], r.value)
      {
        FitsInMore(other, row[other], before, r.value);
      }
      todo := todo - {name};
    }
  }

  lemma StillFits(row: Row, before: seq<Column>, after: seq<Column>)
    requires Fits(row, before) && Covers(after, before)
    ensures Fits(row, after)
  {
    forall name | name in row
      ensures FitsIn(name, row[name], after)
    {
      FitsInMore(name, row[name], before, after);
    }
  }

  lemma TightWhenEmpty()
    ensures AreTight([], []) && TotalParts([]) == 0
  {
  }

  method Survey(rows: seq<Row>) returns (r: Result<seq<Column>, LayoutError>)
    ensures r.Err? ==> IsFailure(rows, r.error)
    ensures rows == [] ==> r == Err(NoRecords)
    ensures r.Ok? ==> rows != [] && AreColumns(r.value) && TotalParts(r.value) <= MAX_COLUMNS
    ensures r.Ok? ==> AreTight(r.value, rows) && forall row :: row in rows ==> Fits(row, r.value)
  {
    hide Fits, AreTight, AreFrom, Covers, TotalParts, HasFault;
    TightWhenEmpty();
    var columns: seq<Column> := [];
    for i := 0 to |rows|
      invariant AreColumns(columns) && TotalParts(columns) <= MAX_COLUMNS && AreTight(columns, rows[..i])
      invariant forall j :: 0 <= j < i ==> Fits(rows[j], columns)
    {
      var measured := MeasureRow(rows[i], columns);
      if measured.Err? {
        return Err(measured.error);
      }
      StayTight(measured.value, columns, rows[..i], rows[i]);
      assert rows[..i + 1] == rows[..i] + [rows[i]];
      if TotalParts(measured.value) > MAX_COLUMNS {
        assert IsTooWide(measured.value, rows, i + 1);
        return Err(TooManyColumns);
      }
      forall j | 0 <= j < i
        ensures Fits(rows[j], measured.value)
      {
        StillFits(rows[j], columns, measured.value);
      }
      columns := measured.value;
    }
    assert rows[..|rows|] == rows;
    r := if rows == [] then Err(NoRecords) else Ok(columns);
  }

  // ---------------------------------------------------------------- the second pass

  lemma FittingCellsArePadded(row: Row, columns: seq<Column>, k: nat, cells: seq<Value>)
    requires AreColumns(columns) && k < |columns| && AreCells(ValueIn(row, columns[k].name), cells)
    ensures Fits(row, columns) ==> |cells| <= columns[k].parts
    ensures |cells| <= columns[k].parts ==>
      IsBlock(ValueIn(row, columns[k].name), Padded(cells, columns[k].parts), columns[k].parts)
  {
    var name := columns[k].name;
    if Fits(row, columns) && name in row {
      assert FitsIn(name, row[name], columns);
      var j :| 0 <= j < |columns| && columns[j].name == name && IsWideEnough(row[name], columns[j].parts);
      assert j == k;
    }
  }

  lemma FittingValuesAreStorable(row: Row, columns: seq<Column>, name: string)
    requires Fits(row, columns)
    ensures IsStorableValue(ValueIn(row, name))
  {
    if name in row {
      assert FitsIn(name, row[name], columns);
    }
  }

  /** The cells of one column. */
  method LayBlock(row: Row, columns: seq<Column>, k: nat) returns (r: Result<seq<Value>, LayoutError>)
    requires AreColumns(columns) && k < |columns|
    ensures Fits(row, columns) ==> r.Ok?
    ensures r.Ok? ==> IsBlock(ValueIn(row, columns[k].name), r.value, columns[k].parts)
  {
    if Fits(row, columns) {
      FittingValuesAreStorable(row, columns, columns[k].name);
    }
    var cells := CellsOf(ValueIn(row, columns[k].name));
    if cells.Err? {
      return cells;
    }
    FittingCellsArePadded(row, columns, k, cells.value);
    if |cells.value| > columns[k].parts {
      return Err(InputChanged);
    }
    r := Ok(Padded(cells.value, columns[k].parts));
  }

  lemma FittingRowHasColumns(row: Row, columns: seq<Column>)
    requires Fits(row, columns)
    ensures row.Keys <= NamesOf(columns)
  {
    forall name | name in row
      ensures name in NamesOf(columns)
    {
      assert FitsIn(name, row[name], columns);
      var k :| 0 <= k < |columns| && columns[k].name == name;
      assert columns[k] in columns;
    }
  }

  method LayBlocks(row: Row, columns: seq<Column>) returns (r: Result<seq<Value>, LayoutError>)
    requires AreColumns(columns)
    ensures Fits(row, columns) ==> r.Ok?
    ensures r.Ok? ==> IsLaidOut(columns, row, r.value)
  {
    hide IsBlock, Fits;
    var cells: seq<Value> := [];
    ghost var done: seq<Column> := [];
    for k := 0 to |columns|
      invariant done == columns[..k] && IsLaidOut(done, row, cells)
    {
      var block := LayBlock(row, columns, k);
      if block.Err? {
        return block;
      }
      LaidOutNext(done, columns[k], row, cells, block.value);
      done, cells := done + [columns[k]], cells + block.value;
    }
    assert done == columns;
    r := Ok(cells);
  }

  /** Fails only for a row that the columns were not made for. */
  method LayRow(row: Row, columns: seq<Column>) returns (r: Result<seq<Value>, LayoutError>)
    requires AreColumns(columns)
    ensures Fits(row, columns) ==> r.Ok?
    ensures r.Ok? ==> IsLaidOut(columns, row, r.value) && row.Keys <= NamesOf(columns)
  {
    if Fits(row, columns) {
      FittingRowHasColumns(row, columns);
    }
    if row.Keys <= set c | c in columns :: c.name {
      r := LayBlocks(row, columns);
    } else {
      r := Err(InputChanged);
    }
  }

  const MAX_DATA_ROWS := 1048575

  type Sheet = seq<seq<Value>>

  function AllRows(sheets: seq<Sheet>): seq<seq<Value>> {
    if sheets == [] then [] else AllRows(sheets[..|sheets| - 1]) + sheets[|sheets| - 1]
  }

  /** All sheets but the last are full, none is overfull, and none but the first may be empty. */
  ghost predicate AreFilled(sheets: seq<Sheet>) {
    && sheets != [] && |sheets[|sheets| - 1]| <= MAX_DATA_ROWS && (|sheets| > 1 ==> sheets[|sheets| - 1] != [])
    && forall i :: 0 <= i < |sheets| - 1 ==> |sheets[i]| == MAX_DATA_ROWS
  }

  method AppendRow(sheets: seq<Sheet>, cells: seq<Value>) returns (after: seq<Sheet>)
    requires AreFilled(sheets)
    ensures AreFilled(after) && AllRows(after) == AllRows(sheets) + [cells]
  {
    var last := |sheets| - 1;
    if |sheets[last]| == MAX_DATA_ROWS {
      after := sheets + [[cells]];
      assert after[..last + 1] == sheets;
    } else {
      after := sheets[last := sheets[last] + [cells]];
      assert after[..last] == sheets[..last];
    }
  }

  ghost predicate AreLaidOut(columns: seq<Column>, rows: seq<Row>, laid: seq<seq<Value>>) {
    |laid| == |rows| && forall i :: 0 <= i < |rows| ==> IsLaidOut(columns, rows[i], laid[i])
  }

  /** The second pass. */
  method LayRows(rows: seq<Row>, columns: seq<Column>) returns (r: Result<seq<Sheet>, LayoutError>)
    requires AreColumns(columns)
    ensures (forall row :: row in rows ==> Fits(row, columns)) ==> r.Ok?
    ensures r.Ok? ==> AreFilled(r.value) && AreLaidOut(columns, rows, AllRows(r.value))
    ensures r.Ok? ==> forall row :: row in rows ==> row.Keys <= NamesOf(columns)
  {
    hide IsLaidOut, Fits, AreColumns;
    var sheets: seq<Sheet> := [[]];
    ghost var laid: seq<seq<Value>> := [];
    for i := 0 to |rows|
      invariant AreFilled(sheets) && AllRows(sheets) == laid && |laid| == i
      invariant forall j :: 0 <= j < i ==> IsLaidOut(columns, rows[j], laid[j])
      invariant forall j :: 0 <= j < i ==> rows[j].Keys <= NamesOf(columns)
    {
      var cells := LayRow(rows[i], columns);
      if cells.Err? {
        return Err(cells.error);
      }
      sheets := AppendRow(sheets, cells.value);
      laid := laid + [cells.value];
    }
    r := Ok(sheets);
  }

  datatype Book = Book(columns: seq<Column>, headers: seq<string>, sheets: seq<Sheet>)

  /** Every record has its row, in order, from which every value can be read back. */
  ghost predicate IsBookOf(book: Book, rows: seq<Row>) {
    && AreColumns(book.columns) && AreTight(book.columns, rows) && TotalParts(book.columns) <= MAX_COLUMNS
    && AreHeaders(book.headers, book.columns, |book.columns|)
    && (forall row :: row in rows ==> row.Keys <= NamesOf(book.columns))
    && AreFilled(book.sheets) && AreLaidOut(book.columns, rows, AllRows(book.sheets))
  }

  lemma {:induction false} TotalWithout(columns: seq<Column>, k: nat)
    requires k < |columns|
    ensures TotalParts(columns) == TotalParts(Without(columns, k)) + columns[k].parts
  {
    var n := |columns| - 1;
    var front, last := columns[..n], columns[n];
    assert columns == front + [last];
    CellsBeforeOfAppend(front, last, n);
    if k < n {
      TotalWithout(front, k);
      assert Without(columns, k) == Without(front, k) + [last];
      CellsBeforeOfAppend(Without(front, k), last, n - 1);
    } else {
      assert Without(columns, k) == front;
    }
  }

  ghost predicate IsWiderIn(c: Column, columns: seq<Column>, k: nat) {
    k < |columns| && columns[k].name == c.name && columns[k].parts >= c.parts
  }

  ghost predicate HaveDistinctNames(columns: seq<Column>) {
    forall i, j :: 0 <= i < j < |columns| ==> columns[i].name != columns[j].name
  }

  /** Columns that each have a wider one of their name among others are no more in total. */
  lemma {:induction false} WiderColumnsTakeMore(some: seq<Column>, columns: seq<Column>)
    requires HaveDistinctNames(some)
    requires forall c :: c in some ==> exists k: nat :: IsWiderIn(c, columns, k)
    ensures TotalParts(some) <= TotalParts(columns)
  {
    if some != [] {
      var n := |some| - 1;
      var front, last := some[..n], some[n];
      assert some == front + [last] && last in some;
      var k: nat :| IsWiderIn(last, columns, k);
      forall c | c in front
        ensures exists m: nat :: IsWiderIn(c, Without(columns, k), m)
      {
        assert c in some;
        var m: nat :| IsWiderIn(c, columns, m);
        assert c.name != last.name;
        assert IsWiderIn(c, Without(columns, k), if m < k then m else m - 1);
      }
      WiderColumnsTakeMore(front, Without(columns, k));
      TotalWithout(columns, k);
      CellsBeforeOfAppend(front, last, n);
    }
  }

  lemma TightColumnsAreNoWider(some: seq<Column>, columns: seq<Column>, rows: seq<Row>)
    requires AreColumns(some) && AreTight(some, rows) && forall row :: row in rows ==> Fits(row, columns)
    ensures TotalParts(some) <= TotalParts(columns)
  {
    forall c | c in some
      ensures exists k: nat :: IsWiderIn(c, columns, k)
    {
      var row :| row in rows && FillsIn(row, c);
      assert FitsIn(c.name, row[c.name], columns);
      var k :| 0 <= k < |columns| && columns[k].name == c.name && IsWideEnough(row[c.name], columns[k].parts);
      assert IsWiderIn(c, columns, k);
    }
    WiderColumnsTakeMore(some, columns);
  }

  lemma FittingRowHasNoFault(row: Row, columns: seq<Column>, error: LayoutError)
    requires AreColumns(columns) && Fits(row, columns)
    ensures !HasFault(row, error)
  {
    hide CanBeHeader;
    if name :| name in row && IsAtFault(name, row[name], error) {
      assert FitsIn(name, row[name], columns);
      var k :| 0 <= k < |columns| && columns[k].name == name && IsWideEnough(row[name], columns[k].parts);
      HeaderIsNoFault(name, row[name], error);
    }
  }

  lemma HeaderIsNoFault(name: string, v: Value, error: LayoutError)
    requires CanBeHeader(name) && IsStorableValue(v)
    ensures !IsAtFault(name, v, error)
  {
  }

  /** Columns that fit all records leave no reason to fail. */
  lemma SurveyedRowsDoNotFail(columns: seq<Column>, rows: seq<Row>, error: LayoutError)
    requires rows != [] && AreColumns(columns) && TotalParts(columns) <= MAX_COLUMNS
    requires forall row :: row in rows ==> Fits(row, columns)
    ensures !IsFailure(rows, error)
  {
    hide HasFault, Fits, AreColumns, AreTight, TotalParts;
    forall row | row in rows
      ensures !HasFault(row, error)
    {
      FittingRowHasNoFault(row, columns, error);
    }
    forall others, n: nat | IsTooWide(others, rows, n)
      ensures false
    {
      TightColumnsAreNoWider(others, columns, rows[..n]);
    }
  }

  /** Fails exactly when there is a reason to, and never because the second pass found the input changed. */
  method Convert(rows: seq<Row>) returns (r: Result<Book, LayoutError>)
    ensures r.Err? <==> exists error :: IsFailure(rows, error)
    ensures r.Err? ==> IsFailure(rows, r.error)
    ensures r.Ok? ==> IsBookOf(r.value, rows)
  {
    hide IsFailure, Fits, AreColumns, AreTight, TotalParts, AreHeaders, AreLaidOut, AreFilled;
    var survey := Survey(rows);
    if survey.Err? {
      return Err(survey.error);
    }
    forall error
      ensures !IsFailure(rows, error)
    {
      SurveyedRowsDoNotFail(survey.value, rows, error);
    }
    var headers := Headers(survey.value);
    var sheets := LayRows(rows, survey.value);
    r := Ok(Book(survey.value, headers, sheets.value));
  }

  /** The block of some column of that name says `v`. */
  ghost predicate SaysUnder(columns: seq<Column>, cells: seq<Value>, name: string, v: Value)
    requires |cells| == TotalParts(columns)
  {
    exists k :: 0 <= k < |columns| && columns[k].name == name
             && Block(columns, cells, k) != [] && Read(Block(columns, cells, k)) == v
  }

  lemma RowSaysValue(columns: seq<Column>, row: Row, cells: seq<Value>, name: string)
    requires IsLaidOut(columns, row, cells) && name in NamesOf(columns)
    ensures SaysUnder(columns, cells, name, NormalisedValue(ValueIn(row, name)))
  {
    hide IsBlock, Block, Read;
    var c :| c in columns && c.name == name;
    var k :| 0 <= k < |columns| && columns[k] == c;
    RowCanBeReadBack(columns, row, cells, k);
  }

  /** Every value of every record can be read back from the book, up to line breaks. */
  lemma BookHoldsEveryValue(book: Book, rows: seq<Row>, i: nat, name: string)
    requires IsBookOf(book, rows) && i < |rows| && name in rows[i]
    ensures |AllRows(book.sheets)| == |rows| && |AllRows(book.sheets)[i]| == TotalParts(book.columns)
    ensures SaysUnder(book.columns, AllRows(book.sheets)[i], name, NormalisedValue(rows[i][name]))
  {
    hide IsBlock, Block, SaysUnder, AreTight, AreFilled;
    var cells := AllRows(book.sheets)[i];
    assert IsLaidOut(book.columns, rows[i], cells);
    assert rows[i] in rows && name in NamesOf(book.columns);
    RowSaysValue(book.columns, rows[i], cells, name);
  }

  // ---------------------------------------------------------------- from documents to cells

  /** A flattened record as it is stored; `store` says what becomes of a leaf. */
  function StoredRow(flat: map<string, ColumnPaths.Json>, store: ColumnPaths.Json -> Value): Row {
    map name | name in flat :: store(flat[name])
  }

  /** The records that the reader yields. */
  ghost predicate AreRecords(rows: seq<Row>, documents: seq<ColumnPaths.Json>, a: ColumnPaths.Alphabet,
                             jsonText: ColumnPaths.Json -> string, store: ColumnPaths.Json -> Value)
  {
    |rows| == |documents| && forall i :: 0 <= i < |rows| ==>
      var parsed := ColumnPaths.Parsed(documents[i]);
      parsed.Some? && rows[i] == StoredRow(ColumnPaths.Flatten(a, parsed.value, "", jsonText), store)
  }

  /** Every leaf of every document that the parser accepted can be read back from the book, in the row of
      its record and under the name of its path. */
  lemma EveryLeafCanBeReadBack(a: ColumnPaths.Alphabet, documents: seq<ColumnPaths.Json>, rows: seq<Row>, book: Book,
                               jsonText: ColumnPaths.Json -> string, store: ColumnPaths.Json -> Value,
                               i: nat, path: ColumnPaths.Path, x: ColumnPaths.Json)
    requires a.IsSensible() && AreRecords(rows, documents, a, jsonText, store) && IsBookOf(book, rows)
    requires i < |documents| && ColumnPaths.Leads(documents[i], path, x)
    ensures |AllRows(book.sheets)| == |rows| && |AllRows(book.sheets)[i]| == TotalParts(book.columns)
    ensures SaysUnder(book.columns, AllRows(book.sheets)[i], ColumnPaths.Name(a, "", path),
                      NormalisedValue(store(ColumnPaths.Cell(x, jsonText))))
  {
    hide SaysUnder, IsBookOf, ColumnPaths.Flatten, ColumnPaths.Leads, ColumnPaths.Name, ColumnPaths.Parsed;
    var document := documents[i];
    ColumnPaths.ParsedExactly(document);
    assert ColumnPaths.Parsed(document) == Some(document);
    ColumnPaths.FlattenKeepsEveryLeaf(a, document, jsonText, path, x);
    BookHoldsEveryValue(book, rows, i, ColumnPaths.Name(a, "", path));
  }
}
