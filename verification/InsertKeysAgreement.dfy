/**
 The extractor agrees with the printer: what it reads from a printed INSERT is what
 the statement says, and the key encoding can be read back.
 */
module InsertKeysAgreement {
  import opened Options
  import opened Decimals
  import opened SqlText
  import opened SqlPrinter
  import opened InsertKeys

  // ----- Reading encoded keys back

  /** The number in front of the first byte that is no digit, and the text from there on. */
  function ReadNumber(s: string, value: nat): (nat, string) {
    if s != "" && '0' <= s[0] <= '9' then ReadNumber(s[1..], 10 * value + (s[0] as int - '0' as int)) else (value, s)
  }

  /** One encoded value and the text behind it. */
  function DecodeValue(s: string): Option<(Value, string)> {
    if s == "" then None
    else if s[0] == 'N' then Some((Null, s[1..]))
    else if s[0] == 'S' then
      var (size, rest) := ReadNumber(s[1..], 0);
      if rest == "" || rest[0] != ':' || |rest| < 1 + size then None
      else Some((Text(rest[1..1 + size]), rest[1 + size..]))
    else None
  }

  lemma {:induction false} ReadNumberIsShorter(s: string, value: nat)
    ensures |ReadNumber(s, value).1| <= |s|
  {
    if s != "" && '0' <= s[0] <= '9' { ReadNumberIsShorter(s[1..], 10 * value + (s[0] as int - '0' as int)); }
  }

  function DecodeKey(s: string): Option<seq<Value>>
    decreases |s|
  {
    if s == "" then Some([]) else
    match DecodeValue(s)
    case None => None
    case Some((v, rest)) =>
      assert |rest| < |s| by { ReadNumberIsShorter(s[1..], 0); }
      match DecodeKey(rest)
      case None => None
      case Some(values) => Some([v] + values)
  }

  function Power10(n: nat): nat {
    if n == 0 then 1 else 10 * Power10(n - 1)
  }

  lemma {:induction false} ReadNumberReads(n: nat, value: nat, rest: string)
    requires rest == "" || !('0' <= rest[0] <= '9')
    ensures ReadNumber(Decimal(n) + rest, value) == (value * Power10(|Decimal(n)|) + n, rest)
  {
    ReadDigits(n, value, rest);
    assert ReadNumber(rest, value * Power10(|Decimal(n)|) + n) == (value * Power10(|Decimal(n)|) + n, rest);
  }

  lemma Shifted(n: nat, value: nat, p: nat, high: nat, low: nat)
    requires n == 10 * high + low
    ensures 10 * (value * p + high) + low == value * (10 * p) + n
  {
  }

  lemma ReadDigit(low: nat, value: nat, rest: string)
    requires low < 10
    ensures ReadNumber([Digit(low)] + rest, value) == ReadNumber(rest, 10 * value + low)
  {
    assert ([Digit(low)] + rest)[1..] == rest;
  }

  /** Reading the digits of n in front of anything. */
  lemma {:induction false} ReadDigits(n: nat, value: nat, rest: string)
    ensures ReadNumber(Decimal(n) + rest, value) == ReadNumber(rest, value * Power10(|Decimal(n)|) + n)
  {
    hide ReadNumber, Digit;
    if n < 10 {
      assert Power10(1) == 10 * Power10(0);
      ReadDigit(n, value, rest);
    } else {
      var high, low := n / 10, n % 10;
      var p := Power10(|Decimal(high)|);
      ReadDigits(high, value, [Digit(low)] + rest);
      ReadDigit(low, value * p + high, rest);
      assert Decimal(high) + [Digit(low)] + rest == Decimal(high) + ([Digit(low)] + rest);
      assert Power10(|Decimal(n)|) == 10 * p;
      Shifted(n, value, p, high, low);
    }
  }

  lemma DecodesValue(v: Value, rest: string)
    ensures DecodeValue(EncodeValue(v) + rest) == Some((v, rest))
  {
    match v
    case Null =>
      assert ("N" + rest)[1..] == rest;
    case Text(text) =>
      var after := ":" + text + rest;
      assert EncodeValue(v) + rest == "S" + (Decimal(|text|) + after);
      assert ("S" + (Decimal(|text|) + after))[1..] == Decimal(|text|) + after;
      ReadNumberReads(|text|, 0, after);
      assert after[1..1 + |text|] == text && after[1 + |text|..] == rest;
  }

  /** A key reads back as the values it was made of. */
  lemma {:induction false} DecodesKey(values: seq<Value>)
    ensures DecodeKey(EncodeKey(values)) == Some(values)
  {
    if values != [] {
      DecodesValue(values[0], EncodeKey(values[1..]));
      DecodesKey(values[1..]);
      assert values == [values[0]] + values[1..];
      assert EncodeKey(values) != "";
    }
  }

  /** Keys of any lengths are equal only if their values are. */
  lemma KeysAreInjective(a: seq<Value>, b: seq<Value>)
    requires EncodeKey(a) == EncodeKey(b)
    ensures a == b
  {
    DecodesKey(a);
    DecodesKey(b);
  }

  /** No key is a proper prefix of another with as many values: text put behind keys of
      one schema never makes them ambiguous. */
  lemma {:induction false} KeysArePrefixFree(a: seq<Value>, b: seq<Value>, x: string, y: string)
    requires |a| == |b| && EncodeKey(a) + x == EncodeKey(b) + y
    ensures a == b && x == y
  {
    hide DecodeValue, EncodeValue;
    if a == [] {
      assert "" + x == x && "" + y == y;
    } else {
      assert EncodeKey(a) + x == EncodeValue(a[0]) + (EncodeKey(a[1..]) + x);
      assert EncodeKey(b) + y == EncodeValue(b[0]) + (EncodeKey(b[1..]) + y);
      DecodesValue(a[0], EncodeKey(a[1..]) + x);
      DecodesValue(b[0], EncodeKey(b[1..]) + y);
      KeysArePrefixFree(a[1..], b[1..], x, y);
      assert a == [a[0]] + a[1..] && b == [b[0]] + b[1..];
    }
  }

  // ----- Statements

  /** A column, bare or between column quotes. */
  datatype Column = Column(name: string, quote: Option<char>)

  /** A placeholder, a quoted literal, a bare word such as a number or NULL, or any other
      expression. */
  datatype Cell = Hole | Literal(body: string) | Bare(text: string) | Other(sql: Sql)

  predicate WordByte(c: char) {
    !IsQuote(c) && !IsSpace(c) && c != '(' && c != ')' && c != ',' && c != '?'
  }

  predicate WordText(s: string) {
    s != "" && forall i :: 0 <= i < |s| ==> WordByte(s[i])
  }

  predicate GoodColumn(c: Column) {
    WordText(c.name) && '\\' !in c.name && (c.quote.Some? ==> IsColumnQuote(c.quote.value))
  }

  predicate GoodCell(c: Cell) {
    match c
    case Hole => true
    case Literal(body) => '\\' !in body
    case Bare(text) => WordText(text)
    case Other(sql) => Item(sql)
  }

  function ColumnSql(c: Column): Sql {
    if c.quote.Some? then Quoted(c.quote.value, c.name, End) else Chars(c.name)
  }

  function CellSql(c: Cell): Sql {
    match c
    case Hole => Plain('?', End)
    case Literal(body) => Quoted('\'', body, End)
    case Bare(text) => Chars(text)
    case Other(sql) => sql
  }

  function ColumnSqls(columns: seq<Column>): (sqls: seq<Sql>)
    ensures |sqls| == |columns|
  {
    if columns == [] then [] else [ColumnSql(columns[0])] + ColumnSqls(columns[1..])
  }

  function CellSqls(row: seq<Cell>): (sqls: seq<Sql>)
    ensures |sqls| == |row|
  {
    if row == [] then [] else [CellSql(row[0])] + CellSqls(row[1..])
  }

  function HolesIn(row: seq<Cell>): nat {
    if row == [] then 0 else Holes(CellSql(row[0])) + HolesIn(row[1..])
  }

  /** What a simple cell stands for, when `offset` placeholders precede it. */
  function CellValue(c: Cell, args: seq<Value>, offset: nat): Value
    requires !c.Other? && (c.Hole? ==> offset < |args|)
  {
    match c
    case Hole => args[offset]
    case Literal(body) => Text(body)
    case Bare(text) => if Upper(text) == "NULL" then Null else Text(text)
  }

  // ----- One cell

  lemma WordSql(s: string)
    requires WordText(s)
    ensures Item(Chars(s)) && Show(Chars(s)) == s && Holes(Chars(s)) == 0
  {
    CharsThen(s, "");
    CharsAre(s);
  }

  lemma {:induction false} EscapeWord(q: char, s: string, rest: string)
    requires q !in s
    ensures EscapeThen(q, s, rest) == s + rest
  {
    if s != "" { EscapeWord(q, s[1..], rest); }
  }

  lemma ShowQuoted(q: char, body: string)
    ensures Show(Quoted(q, body, End)) == [q] + (EscapeThen(q, body, "") + [q])
  {
    EscapeThenIs(q, body, [q]);
    assert [q] + Show(End) == [q];
  }

  lemma CellIsItem(c: Cell)
    requires GoodCell(c)
    ensures Item(CellSql(c))
  {
    match c
    case Hole =>
    case Literal(body) => ShowQuoted('\'', body);
    case Bare(text) => WordSql(text);
    case Other(_) =>
  }

  lemma {:induction false} UndoubleEscaped(body: string)
    ensures Undouble(EscapeThen('\'', body, "")) == body
  {
    if body != "" {
      UndoubleEscaped(body[1..]);
      var rest := EscapeThen('\'', body[1..], "");
      if body[0] == '\'' {
        assert (['\''] + (['\''] + rest))[2..] == rest;
      } else {
        UndoublePlain(body[0], rest);
      }
    }
  }

  lemma UndoublePlain(c: char, s: string)
    requires c != '\''
    ensures Undouble([c] + s) == [c] + Undouble(s)
  {
  }

  lemma LiteralReads(body: string)
    ensures var text := Show(Quoted('\'', body, End));
            Tight(text) && |text| >= 2 && SimpleLiteral(text) == Text(body)
  {
    var text := Show(Quoted('\'', body, End));
    var inner := EscapeThen('\'', body, "");
    ShowQuoted('\'', body);
    TrimTight(text);
    assert Upper(text)[0] == '\'';
    assert text[1..|text| - 1] == inner;
    UndoubleEscaped(body);
  }

  lemma WordReads(text: string)
    requires WordText(text)
    ensures Trim(text) == text && text != "?"
    ensures SimpleLiteral(text) == if Upper(text) == "NULL" then Null else Text(text)
  {
    TrimTight(text);
  }

  /** A simple cell's text is read as what it stands for. */
  lemma BoundReads(c: Cell, args: seq<Value>, offset: nat)
    requires GoodCell(c) && !c.Other? && (c.Hole? ==> offset < |args|)
    ensures Bound(Show(CellSql(c)), args, offset) == Ok(CellValue(c, args, offset))
  {
    CellIsItem(c);
    CountFindsHoles(CellSql(c));
    match c
    case Hole => TrimTight("?");
    case Literal(body) =>
      LiteralReads(body);
      TrimTight(Show(CellSql(c)));
    case Bare(text) =>
      WordSql(text);
      WordReads(text);
  }

  lemma {:induction false} UnquoteRightStops(s: string)
    requires s != "" && !IsColumnQuote(s[|s| - 1])
    ensures UnquoteRight(s) == s
  {
  }

  /** A column's text is read as its name. */
  lemma ColumnReads(c: Column)
    requires GoodColumn(c)
    ensures Item(ColumnSql(c)) && ColumnName(Show(ColumnSql(c))) == c.name
  {
    var n := |c.name|;
    if c.quote.Some? {
      var q := c.quote.value;
      var text := Show(ColumnSql(c));
      EscapeWord(q, c.name, "");
      ShowQuoted(q, c.name);
      assert c.name + "" == c.name;
      TrimTight(text);
      assert text[1..] == c.name + [q];
      assert (c.name + [q])[..n] == c.name;
      assert UnquoteLeft(text) == c.name + [q];
      UnquoteRightStops(c.name);
    } else {
      WordSql(c.name);
      TrimTight(c.name);
      UnquoteRightStops(c.name);
    }
  }

  // ----- Rows

  predicate Named(columns: seq<Column>, k: string) {
    columns != [] && (columns[0].name == k || Named(columns[1..], k))
  }

  predicate Distinct(columns: seq<Column>) {
    columns == [] || (!Named(columns[1..], columns[0].name) && Distinct(columns[1..]))
  }

  /** The value of column k in a row that begins behind `offset` placeholders. */
  function ValueAt(columns: seq<Column>, row: seq<Cell>, args: seq<Value>, offset: nat, k: string): Value
    requires |columns| == |row|
  {
    if columns == [] then Null
    else if columns[0].name == k then
      if row[0].Other? || (row[0].Hole? && offset >= |args|) then Null else CellValue(row[0], args, offset)
    else ValueAt(columns[1..], row[1..], args, offset + Holes(CellSql(row[0])), k)
  }

  /** Every cell is well formed, and the cells of key columns are simple. */
  predicate GoodRow(columns: seq<Column>, keyColumns: seq<string>, row: seq<Cell>) {
    |row| == |columns|
    && (row == [] || (GoodColumn(columns[0]) && GoodCell(row[0]) && (columns[0].name in keyColumns ==> !row[0].Other?)
                      && GoodRow(columns[1..], keyColumns, row[1..])))
  }

  function Texts(sqls: seq<Sql>): (texts: seq<string>)
    ensures |texts| == |sqls|
  {
    if sqls == [] then [] else [Show(sqls[0])] + Texts(sqls[1..])
  }

  /** The scan of a row can forget the cells it has passed. */
  lemma {:induction false} RowValuesFrom(columns: seq<string>, keyColumns: seq<string>, row: seq<string>, args: seq<Value>,
                                         n: nat, index: nat, offset: nat, values: map<string, Value>)
    requires |columns| == |row| && n <= index <= |row|
    ensures RowValues(columns, keyColumns, row, args, index, offset, values)
         == RowValues(columns[n..], keyColumns, row[n..], args, index - n, offset, values)
    decreases |row| - index
  {
    if index < |row| {
      var next := offset + CountPlaceholders(row[index]);
      var column := ColumnName(columns[index]);
      RowValuesFrom(columns, keyColumns, row, args, n, index + 1, next, values);
      if column in keyColumns && Bound(row[index], args, offset).Ok? {
        RowValuesFrom(columns, keyColumns, row, args, n, index + 1, next, values[column := Bound(row[index], args, offset).value]);
      }
    }
  }

  lemma RowValuesStep(columns: seq<string>, keyColumns: seq<string>, row: seq<string>, args: seq<Value>,
                      column: string, text: string, offset: nat, values: map<string, Value>)
    requires |columns| == |row|
    ensures RowValues([column] + columns, keyColumns, [text] + row, args, 0, offset, values)
         == var next := offset + CountPlaceholders(text);
            if ColumnName(column) !in keyColumns then RowValues(columns, keyColumns, row, args, 0, next, values)
            else match Bound(text, args, offset)
                 case Err(e) => Err(e)
                 case Ok(v) => RowValues(columns, keyColumns, row, args, 0, next, values[ColumnName(column) := v])
  {
    var next := offset + CountPlaceholders(text);
    var cs, ts := [column] + columns, [text] + row;
    assert cs[1..] == columns && ts[1..] == row;
    RowValuesFrom(cs, keyColumns, ts, args, 1, 1, next, values);
    if Bound(text, args, offset).Ok? {
      RowValuesFrom(cs, keyColumns, ts, args, 1, 1, next, values[ColumnName(column) := Bound(text, args, offset).value]);
    }
  }

  /** The values of the row's key columns, with everything else the map held before. */
  ghost predicate Collected(columns: seq<Column>, keyColumns: seq<string>, row: seq<Cell>, args: seq<Value>, offset: nat,
                            values: map<string, Value>, found: map<string, Value>)
    requires |columns| == |row|
  {
    forall k :: k in keyColumns ==>
      if Named(columns, k) then k in found && found[k] == ValueAt(columns, row, args, offset, k)
      else (k in found <==> k in values) && (k in values ==> found[k] == values[k])
  }

  /** The key columns' values once the first cell of a row is read. */
  function HeadValues(c: Column, keyColumns: seq<string>, cell: Cell, args: seq<Value>, offset: nat,
                      values: map<string, Value>): map<string, Value>
    requires c.name in keyColumns ==> !cell.Other? && (cell.Hole? ==> offset < |args|)
  {
    if c.name in keyColumns then values[c.name := CellValue(cell, args, offset)] else values
  }

  lemma HeadReads(c: Column, keyColumns: seq<string>, cell: Cell, columns: seq<string>, row: seq<string>, args: seq<Value>,
                  offset: nat, values: map<string, Value>)
    requires GoodColumn(c) && GoodCell(cell) && |columns| == |row|
    requires c.name in keyColumns ==> !cell.Other?
    requires offset + Holes(CellSql(cell)) <= |args|
    ensures RowValues([Show(ColumnSql(c))] + columns, keyColumns, [Show(CellSql(cell))] + row, args, 0, offset, values)
         == RowValues(columns, keyColumns, row, args, 0, offset + Holes(CellSql(cell)),
                      HeadValues(c, keyColumns, cell, args, offset, values))
  {
    hide RowValues, Show, ColumnSql, Bound, ColumnName, CountPlaceholders;
    ColumnReads(c);
    CellIsItem(cell);
    CountFindsHoles(CellSql(cell));
    RowValuesStep(columns, keyColumns, row, args, Show(ColumnSql(c)), Show(CellSql(cell)), offset, values);
    if c.name in keyColumns { BoundReads(cell, args, offset); }
  }

  lemma HeadIsCollected(columns: seq<Column>, keyColumns: seq<string>, row: seq<Cell>, args: seq<Value>, offset: nat,
                        values: map<string, Value>, found: map<string, Value>)
    requires GoodRow(columns, keyColumns, row) && row != [] && Distinct(columns)
    requires offset + HolesIn(row) <= |args|
    requires Collected(columns[1..], keyColumns, row[1..], args, offset + Holes(CellSql(row[0])),
                       HeadValues(columns[0], keyColumns, row[0], args, offset, values), found)
    ensures Collected(columns, keyColumns, row, args, offset, values, found)
  {
    hide CellValue;
  }

  lemma FirstCell(columns: seq<Column>, keyColumns: seq<string>, row: seq<Cell>)
    requires GoodRow(columns, keyColumns, row) && row != [] && Distinct(columns)
    ensures |columns| == |row| && GoodColumn(columns[0]) && GoodCell(row[0])
    ensures columns[0].name in keyColumns ==> !row[0].Other?
    ensures row[0].Hole? ==> Holes(CellSql(row[0])) == 1
    ensures GoodRow(columns[1..], keyColumns, row[1..]) && Distinct(columns[1..])
    ensures HolesIn(row) == Holes(CellSql(row[0])) + HolesIn(row[1..])
    ensures Texts(ColumnSqls(columns)) == [Show(ColumnSql(columns[0]))] + Texts(ColumnSqls(columns[1..]))
    ensures Texts(CellSqls(row)) == [Show(CellSql(row[0]))] + Texts(CellSqls(row[1..]))
  {
    hide Show, ColumnSql, GoodColumn, GoodCell;
  }

  lemma NoCells(columns: seq<Column>, keyColumns: seq<string>, row: seq<Cell>, args: seq<Value>, offset: nat,
                values: map<string, Value>)
    requires GoodRow(columns, keyColumns, row) && row == []
    ensures |columns| == |row| && HolesIn(row) == 0
    ensures RowValues(Texts(ColumnSqls(columns)), keyColumns, Texts(CellSqls(row)), args, 0, offset, values) == Ok((values, offset))
    ensures Collected(columns, keyColumns, row, args, offset, values, values)
  {
  }

  /** In a printed row every placeholder is bound to its own argument. */
  lemma {:induction false} RowReads(columns: seq<Column>, keyColumns: seq<string>, row: seq<Cell>, args: seq<Value>,
                                    offset: nat, values: map<string, Value>)
    returns (found: map<string, Value>)
    requires GoodRow(columns, keyColumns, row) && Distinct(columns)
    requires offset + HolesIn(row) <= |args|
    ensures RowValues(Texts(ColumnSqls(columns)), keyColumns, Texts(CellSqls(row)), args, 0, offset, values)
         == Ok((found, offset + HolesIn(row)))
    ensures Collected(columns, keyColumns, row, args, offset, values, found)
  {
    hide *;
    if row == [] {
      found := values;
      NoCells(columns, keyColumns, row, args, offset, values);
    } else {
      FirstCell(columns, keyColumns, row);
      var next := offset + Holes(CellSql(row[0]));
      HeadReads(columns[0], keyColumns, row[0], Texts(ColumnSqls(columns[1..])), Texts(CellSqls(row[1..])), args, offset, values);
      found := RowReads(columns[1..], keyColumns, row[1..], args, next,
                        HeadValues(columns[0], keyColumns, row[0], args, offset, values));
      HeadIsCollected(columns, keyColumns, row, args, offset, values, found);
    }
  }

  /** The key of a row, column by column. */
  function KeyValues(columns: seq<Column>, keyColumns: seq<string>, row: seq<Cell>, args: seq<Value>, offset: nat): seq<Value>
    requires |columns| == |row|
  {
    if keyColumns == [] then []
    else [ValueAt(columns, row, args, offset, keyColumns[0])] + KeyValues(columns, keyColumns[1..], row, args, offset)
  }

  lemma {:induction false} KeyReads(columns: seq<Column>, keyColumns: seq<string>, row: seq<Cell>, args: seq<Value>, offset: nat,
                                    found: map<string, Value>)
    requires |columns| == |row|
    requires forall k :: k in keyColumns ==> k in found && found[k] == ValueAt(columns, row, args, offset, k)
    ensures KeyOf(keyColumns, found) == Ok(KeyValues(columns, keyColumns, row, args, offset))
  {
    if keyColumns != [] { KeyReads(columns, keyColumns[1..], row, args, offset, found); }
  }

  // ----- Whole statements

  predicate GoodRows(columns: seq<Column>, keyColumns: seq<string>, rows: seq<seq<Cell>>) {
    rows == [] || (GoodRow(columns, keyColumns, rows[0]) && GoodRows(columns, keyColumns, rows[1..]))
  }

  function HolesInRows(rows: seq<seq<Cell>>): nat {
    if rows == [] then 0 else HolesIn(rows[0]) + HolesInRows(rows[1..])
  }

  /** The keys a statement writes: row by row, with every placeholder bound to the argument
      that stands for it. */
  function StatementKeys(columns: seq<Column>, keyColumns: seq<string>, rows: seq<seq<Cell>>, args: seq<Value>, offset: nat): seq<string>
    requires GoodRows(columns, keyColumns, rows)
  {
    if rows == [] then []
    else [EncodeKey(KeyValues(columns, keyColumns, rows[0], args, offset))]
         + StatementKeys(columns, keyColumns, rows[1..], args, offset + HolesIn(rows[0]))
  }

  function RowTexts(rows: seq<seq<Cell>>): (texts: seq<seq<string>>)
    ensures |texts| == |rows|
  {
    if rows == [] then [] else [Texts(CellSqls(rows[0]))] + RowTexts(rows[1..])
  }

  predicate AllNamed(columns: seq<Column>, keyColumns: seq<string>) {
    keyColumns == [] || (Named(columns, keyColumns[0]) && AllNamed(columns, keyColumns[1..]))
  }

  lemma {:induction false} EachIsNamed(columns: seq<Column>, keyColumns: seq<string>, k: string)
    requires AllNamed(columns, keyColumns) && k in keyColumns
    ensures Named(columns, k)
  {
    if keyColumns[0] != k { EachIsNamed(columns, keyColumns[1..], k); }
  }

  lemma RowKeysStep(columns: seq<string>, keyColumns: seq<string>, row: seq<string>, rows: seq<seq<string>>, args: seq<Value>,
                    offset: nat, found: map<string, Value>, next: nat, values: seq<Value>, keys: seq<string>)
    requires |columns| == |row| && RowValues(columns, keyColumns, row, args, 0, offset, map[]) == Ok((found, next))
    requires KeyOf(keyColumns, found) == Ok(values)
    requires RowKeys(columns, keyColumns, rows, args, next) == Ok(keys)
    ensures RowKeys(columns, keyColumns, [row] + rows, args, offset) == Ok([EncodeKey(values)] + keys)
  {
    hide RowValues, KeyOf, EncodeKey;
    assert ([row] + rows)[1..] == rows;
  }

  lemma FirstRow(columns: seq<Column>, keyColumns: seq<string>, rows: seq<seq<Cell>>, args: seq<Value>, offset: nat)
    requires GoodRows(columns, keyColumns, rows) && rows != []
    ensures GoodRow(columns, keyColumns, rows[0]) && |columns| == |rows[0]| && GoodRows(columns, keyColumns, rows[1..])
    ensures HolesInRows(rows) == HolesIn(rows[0]) + HolesInRows(rows[1..])
    ensures RowTexts(rows) == [Texts(CellSqls(rows[0]))] + RowTexts(rows[1..])
    ensures StatementKeys(columns, keyColumns, rows, args, offset)
         == [EncodeKey(KeyValues(columns, keyColumns, rows[0], args, offset))]
            + StatementKeys(columns, keyColumns, rows[1..], args, offset + HolesIn(rows[0]))
  {
  }

  lemma AllCollected(columns: seq<Column>, keyColumns: seq<string>, row: seq<Cell>, args: seq<Value>, offset: nat, found: map<string, Value>)
    requires |columns| == |row| && AllNamed(columns, keyColumns)
    requires Collected(columns, keyColumns, row, args, offset, map[], found)
    ensures KeyOf(keyColumns, found) == Ok(KeyValues(columns, keyColumns, row, args, offset))
  {
    forall k | k in keyColumns ensures k in found && found[k] == ValueAt(columns, row, args, offset, k) {
      EachIsNamed(columns, keyColumns, k);
    }
    KeyReads(columns, keyColumns, row, args, offset, found);
  }

  lemma NoRows(columns: seq<string>, keyColumns: seq<string>, rows: seq<seq<string>>, args: seq<Value>, offset: nat)
    requires rows == []
    ensures RowKeys(columns, keyColumns, rows, args, offset) == Ok([])
  {
  }

  lemma {:induction false} RowsRead(columns: seq<Column>, keyColumns: seq<string>, rows: seq<seq<Cell>>, args: seq<Value>, offset: nat)
    requires GoodRows(columns, keyColumns, rows) && Distinct(columns) && AllNamed(columns, keyColumns)
    requires offset + HolesInRows(rows) <= |args|
    ensures RowKeys(Texts(ColumnSqls(columns)), keyColumns, RowTexts(rows), args, offset)
         == Ok(StatementKeys(columns, keyColumns, rows, args, offset))
    decreases |rows|
  {
    hide RowKeys, RowValues, KeyOf, Texts, ColumnSqls, CellSqls, GoodRow, Collected, Distinct, AllNamed, EncodeKey, KeyValues;
    if rows == [] {
      NoRows(Texts(ColumnSqls(columns)), keyColumns, [], args, offset);
    } else {
      FirstRow(columns, keyColumns, rows, args, offset);
      var found := RowReads(columns, keyColumns, rows[0], args, offset, map[]);
      AllCollected(columns, keyColumns, rows[0], args, offset, found);
      RowsRead(columns, keyColumns, rows[1..], args, offset + HolesIn(rows[0]));
      RowKeysStep(Texts(ColumnSqls(columns)), keyColumns, Texts(CellSqls(rows[0])), RowTexts(rows[1..]), args, offset, found,
                  offset + HolesIn(rows[0]), KeyValues(columns, keyColumns, rows[0], args, offset),
                  StatementKeys(columns, keyColumns, rows[1..], args, offset + HolesIn(rows[0])));
    }
  }

  // ----- The statement's text

  /** The space around one item of a list. */
  datatype Gap = Gap(before: string, after: string)

  function SpacedAll(sqls: seq<Sql>, gaps: seq<Gap>): (items: seq<Spaced>)
    requires |gaps| == |sqls|
    ensures |items| == |sqls|
  {
    if sqls == [] then [] else [Spaced(gaps[0].before, sqls[0], gaps[0].after)] + SpacedAll(sqls[1..], gaps[1..])
  }

  predicate GoodGaps(gaps: seq<Gap>) {
    gaps == [] || (Spaces(gaps[0].before) && Spaces(gaps[0].after) && GoodGaps(gaps[1..]))
  }

  /** The outer space of a list is printed with what stands around it. */
  predicate FlushGaps(gaps: seq<Gap>) {
    gaps != [] && gaps[0].before == "" && gaps[|gaps| - 1].after == ""
  }

  predicate SqlItems(sqls: seq<Sql>) {
    sqls == [] || (Item(sqls[0]) && SqlItems(sqls[1..]))
  }

  lemma {:induction false} SpacedItems(sqls: seq<Sql>, gaps: seq<Gap>)
    requires |gaps| == |sqls| && SqlItems(sqls) && GoodGaps(gaps)
    ensures Items(SpacedAll(sqls, gaps))
  {
    hide Item, Spaces;
    if sqls != [] { SpacedItems(sqls[1..], gaps[1..]); }
  }

  lemma {:induction false} TextsAreShown(sqls: seq<Sql>, gaps: seq<Gap>)
    requires |gaps| == |sqls|
    ensures Texts(sqls) == Shown(SpacedAll(sqls, gaps))
  {
    hide Show;
    if sqls != [] { TextsAreShown(sqls[1..], gaps[1..]); }
  }

  lemma {:induction false} SpacedFlush(sqls: seq<Sql>, gaps: seq<Gap>)
    requires |gaps| == |sqls| && gaps != []
    ensures var items := SpacedAll(sqls, gaps);
            items[0].before == gaps[0].before && items[|items| - 1].after == gaps[|gaps| - 1].after
  {
    if |sqls| > 1 { SpacedFlush(sqls[1..], gaps[1..]); }
  }

  lemma {:induction false} ColumnsAreItems(columns: seq<Column>, keyColumns: seq<string>, row: seq<Cell>)
    requires GoodRow(columns, keyColumns, row)
    ensures SqlItems(ColumnSqls(columns)) && SqlItems(CellSqls(row))
  {
    if row != [] {
      ColumnReads(columns[0]);
      CellIsItem(row[0]);
      ColumnsAreItems(columns[1..], keyColumns, row[1..]);
    }
  }

  /** The items of a row's list, as a list. */
  lemma {:induction false} RowItems(columns: seq<Column>, keyColumns: seq<string>, row: seq<Cell>, gaps: seq<Gap>)
    requires GoodRow(columns, keyColumns, row) && columns != [] && |gaps| == |row| && GoodGaps(gaps)
    ensures Items(SpacedAll(CellSqls(row), gaps)) && SpacedAll(CellSqls(row), gaps) != []
    ensures Shown(SpacedAll(CellSqls(row), gaps)) == Texts(CellSqls(row))
  {
    hide *;
    NotEmpty(columns, keyColumns, row);
    ColumnsAreItems(columns, keyColumns, row);
    SpacedItems(CellSqls(row), gaps);
    TextsAreShown(CellSqls(row), gaps);
  }

  /** One row in parentheses. */
  function RowSql(row: seq<Cell>, gaps: seq<Gap>): Sql
    requires |gaps| == |row|
  {
    Paren(Listed(SpacedAll(CellSqls(row), gaps)), End)
  }

  /** Every row has its own space around each of its cells. */
  predicate Fit(rows: seq<seq<Cell>>, inner: seq<seq<Gap>>) {
    |inner| == |rows|
    && (rows == [] || (|inner[0]| == |rows[0]| && GoodGaps(inner[0]) && Fit(rows[1..], inner[1..])))
  }

  function RowSqls(rows: seq<seq<Cell>>, inner: seq<seq<Gap>>): (sqls: seq<Sql>)
    requires Fit(rows, inner)
    ensures |sqls| == |rows|
  {
    if rows == [] then [] else [RowSql(rows[0], inner[0])] + RowSqls(rows[1..], inner[1..])
  }

  /** The column list, and a source behind it. */
  function PrintHeader(columns: seq<Column>, gaps: seq<Gap>, lead: string, source: string): string
    requires |gaps| == |columns|
  {
    lead + ("(" + ShowThen(Listed(SpacedAll(ColumnSqls(columns), gaps)), ")" + source))
  }

  /** The space in a VALUES statement: in front of the column list, around each column, in front of
      and behind the keyword, around each cell, around each row, and at the end. */
  datatype Layout = Layout(lead: string, columns: seq<Gap>, behind: string, mid: string, cells: seq<seq<Gap>>, rows: seq<Gap>, tail: string)

  predicate GoodLayout(columns: seq<Column>, rows: seq<seq<Cell>>, l: Layout) {
    && |l.columns| == |columns| && GoodGaps(l.columns) && Fit(rows, l.cells)
    && |l.rows| == |rows| && GoodGaps(l.rows) && FlushGaps(l.rows)
    && Spaces(l.lead) && Spaces(l.behind) && Spaces(l.mid) && Spaces(l.tail)
  }

  /** The rows of a VALUES statement, as a list. */
  function RowList(columns: seq<Column>, rows: seq<seq<Cell>>, l: Layout): seq<Spaced>
    requires GoodLayout(columns, rows, l)
  {
    SpacedAll(RowSqls(rows, l.cells), l.rows)
  }

  /** INSERT ... (columns) VALUES (row), (row), ... */
  function PrintValues(columns: seq<Column>, rows: seq<seq<Cell>>, l: Layout, keyword: string): string
    requires GoodLayout(columns, rows, l)
  {
    PrintHeader(columns, l.columns, l.lead, l.behind + (keyword + (l.mid + (Show(Listed(RowList(columns, rows, l))) + l.tail))))
  }

  /** A condition behind a selection: the keyword as written, and the text after it. */
  datatype Condition = Always | Where(keyword: string, tail: string)

  function PrintCondition(condition: Condition, gap: string): string {
    match condition
    case Always => ""
    case Where(keyword, tail) => gap + (keyword + tail)
  }

  /** The space in a SELECT statement; `gap` stands in front of the condition. */
  datatype Spacing = Spacing(lead: string, columns: seq<Gap>, behind: string, mid: string, cells: seq<Gap>, gap: string, tail: string)

  predicate GoodSpacing(columns: seq<Column>, row: seq<Cell>, l: Spacing) {
    && |l.columns| == |columns| && GoodGaps(l.columns)
    && |l.cells| == |row| && GoodGaps(l.cells) && FlushGaps(l.cells)
    && Spaces(l.lead) && Spaces(l.behind) && Spaces(l.mid) && Spaces(l.gap) && Spaces(l.tail)
  }

  function CellList(row: seq<Cell>, gaps: seq<Gap>): seq<Spaced>
    requires |gaps| == |row|
  {
    SpacedAll(CellSqls(row), gaps)
  }

  /** INSERT ... (columns) SELECT expressions [WHERE ...] */
  function PrintSelect(columns: seq<Column>, row: seq<Cell>, l: Spacing, keyword: string, condition: Condition): string
    requires GoodSpacing(columns, row, l)
  {
    PrintHeader(columns, l.columns, l.lead,
                l.behind + (keyword + (l.mid + (ShowThen(Listed(CellList(row, l.cells)), PrintCondition(condition, l.gap)) + l.tail))))
  }

  lemma {:induction false} IndexBehind(gap: string, c: char, rest: string)
    requires c !in gap
    ensures IndexOf(gap + ([c] + rest), c) == Some(|gap|)
  {
    if gap == "" {
      assert gap + ([c] + rest) == [c] + rest;
    } else {
      assert (gap + ([c] + rest))[1..] == gap[1..] + ([c] + rest);
      IndexBehind(gap[1..], c, rest);
    }
  }

  /** The pieces of a text around a parenthesised part. */
  lemma Slices(gap: string, inner: string, source: string)
    ensures var text := gap + ("(" + (inner + (")" + source)));
            var end := |gap| + (1 + |inner|);
            && end < |text|
            && text[|gap|..] == "(" + (inner + (")" + source))
            && text[|gap| + 1..end] == inner
            && text[end + 1..] == source
  {
  }

  lemma HeaderSlices(gap: string, list: Sql, source: string)
    ensures var text := gap + ("(" + ShowThen(list, ")" + source));
            var end := |gap| + (1 + Size(list));
            && end < |text|
            && text[|gap|..] == "(" + ShowThen(list, ")" + source)
            && text[|gap| + 1..end] == Show(list)
            && text[end + 1..] == source
  {
    hide *;
    ShowThenIs(list, ")" + source);
    Slices(gap, Show(list), source);
  }

  lemma HeaderIs(text: string, start: nat, size: nat, columns: string, source: string)
    requires IndexOf(text, '(') == Some(start) && start + size < |text| && size > 0
    requires MatchParenthesis(text[start..]) == Some(size)
    requires text[start + 1..start + size] == columns && text[start + size + 1..] == source
    ensures Header(text) == Ok((SplitList(columns), Trim(source)))
  {
    hide IndexOf, MatchParenthesis, SplitList, Trim;
  }

  lemma {:induction false} PrintHeaderIs(columns: seq<Column>, gaps: seq<Gap>, lead: string, source: string)
    requires |gaps| == |columns| && Spaces(lead)
    ensures PrintHeader(columns, gaps, lead, source)
         == lead + ("(" + ShowThen(Listed(SpacedAll(ColumnSqls(columns), gaps)), ")" + source))
    ensures '(' !in lead
  {
  }

  lemma {:induction false} NotEmpty(columns: seq<Column>, keyColumns: seq<string>, row: seq<Cell>)
    requires GoodRow(columns, keyColumns, row) && columns != []
    ensures ColumnSqls(columns) != [] && CellSqls(row) != []
  {
  }

  /** The header of a printed statement is read as its columns and its source. */
  lemma {:induction false} HeaderReads(columns: seq<Column>, keyColumns: seq<string>, row: seq<Cell>, gaps: seq<Gap>, lead: string, source: string)
    requires GoodRow(columns, keyColumns, row) && columns != []
    requires |gaps| == |columns| && GoodGaps(gaps) && Spaces(lead)
    ensures Header(PrintHeader(columns, gaps, lead, source)) == Ok((Texts(ColumnSqls(columns)), Trim(source)))
  {
    hide *;
    var items := SpacedAll(ColumnSqls(columns), gaps);
    var list := Listed(items);
    PrintHeaderIs(columns, gaps, lead, source);
    NotEmpty(columns, keyColumns, row);
    ColumnsAreItems(columns, keyColumns, row);
    SpacedItems(ColumnSqls(columns), gaps);
    ListedBalanced(items);
    IndexBehind(lead, '(', ShowThen(list, ")" + source));
    MatchFindsCloser(list, source);
    SplitReadsList(items);
    TextsAreShown(ColumnSqls(columns), gaps);
    HeaderSlices(lead, list, source);
    HeaderIs(PrintHeader(columns, gaps, lead, source), |lead|, 1 + Size(list), Show(list), source);
  }

  // ----- VALUES

  lemma GroupIs(text: string, size: nat, inner: string)
    requires text != "" && text[0] == '(' && 0 < size < |text|
    requires MatchParenthesis(text) == Some(size) && text[1..size] == inner
    ensures Group(text) == Ok(SplitList(inner))
  {
    hide MatchParenthesis, SplitList;
    assert text[0..] == text;
  }

  lemma ParenShows(list: Sql)
    ensures var text := Show(Paren(list, End));
            && text == "(" + ShowThen(list, ")" + "") && |text| == 2 + Size(list)
            && text[1..1 + Size(list)] == Show(list)
            && text[0] == '(' && text[|text| - 1] == ')'
  {
    ShowThenIs(list, ")");
    assert ")" + "" == ")" && ShowThen(End, "") == "";
    assert Show(Paren(list, End)) == "(" + ShowThen(list, ")" + ShowThen(End, ""));
  }

  lemma RowSqlIs(row: seq<Cell>, gaps: seq<Gap>)
    requires |gaps| == |row|
    ensures RowSql(row, gaps) == Paren(Listed(SpacedAll(CellSqls(row), gaps)), End)
  {
  }

  lemma {:induction false} GroupReads(columns: seq<Column>, keyColumns: seq<string>, row: seq<Cell>, gaps: seq<Gap>)
    requires GoodRow(columns, keyColumns, row) && columns != [] && |gaps| == |row| && GoodGaps(gaps)
    ensures Group(Show(RowSql(row, gaps))) == Ok(Texts(CellSqls(row)))
  {
    hide *;
    var items := SpacedAll(CellSqls(row), gaps);
    var list := Listed(items);
    RowItems(columns, keyColumns, row, gaps);
    ListedBalanced(items);
    RowSqlIs(row, gaps);
    ParenShows(list);
    MatchFindsCloser(list, "");
    SplitReadsList(items);
    GroupIs(Show(RowSql(row, gaps)), 1 + Size(list), Show(list));
  }

  lemma ParenIsItem(list: Sql)
    requires Balanced(list)
    ensures Item(Paren(list, End))
  {
    hide ShowThen;
    ParenShows(list);
    ParenIsBalanced(list);
  }

  lemma {:induction false} RowIsItem(columns: seq<Column>, keyColumns: seq<string>, row: seq<Cell>, gaps: seq<Gap>)
    requires GoodRow(columns, keyColumns, row) && columns != [] && |gaps| == |row| && GoodGaps(gaps)
    ensures Item(RowSql(row, gaps))
  {
    hide *;
    RowItems(columns, keyColumns, row, gaps);
    ListedBalanced(SpacedAll(CellSqls(row), gaps));
    ParenIsItem(Listed(SpacedAll(CellSqls(row), gaps)));
    RowSqlIs(row, gaps);
  }

  lemma ParenIsBalanced(t: Sql)
    requires Balanced(t)
    ensures Balanced(Paren(t, End)) && NoComma(Paren(t, End))
  {
  }

  lemma {:induction false} RowsAreItems(columns: seq<Column>, keyColumns: seq<string>, rows: seq<seq<Cell>>, inner: seq<seq<Gap>>)
    requires GoodRows(columns, keyColumns, rows) && columns != [] && Fit(rows, inner)
    ensures SqlItems(RowSqls(rows, inner))
  {
    hide Item, RowSql, GoodRow, GoodGaps;
    if rows != [] {
      RowIsItem(columns, keyColumns, rows[0], inner[0]);
      RowsAreItems(columns, keyColumns, rows[1..], inner[1..]);
    }
  }

  lemma {:induction false} GroupsRead(columns: seq<Column>, keyColumns: seq<string>, rows: seq<seq<Cell>>, inner: seq<seq<Gap>>)
    requires GoodRows(columns, keyColumns, rows) && columns != [] && Fit(rows, inner)
    ensures Groups(Texts(RowSqls(rows, inner))) == Ok(RowTexts(rows))
  {
    hide Group, RowSql, GoodRow, Show, CellSqls, GoodGaps;
    if rows != [] {
      GroupReads(columns, keyColumns, rows[0], inner[0]);
      GroupsRead(columns, keyColumns, rows[1..], inner[1..]);
      assert Texts(RowSqls(rows, inner))[1..] == Texts(RowSqls(rows[1..], inner[1..]));
    }
  }

  /** A source's keyword, and the text behind it. */
  lemma SourceParts(behind: string, keyword: string, mid: string, body: string, tail: string, word: string)
    requires Spaces(behind) && Spaces(mid) && Spaces(tail) && Letters(word) && |word| == 6 && Upper(keyword) == word && Tight(body)
    ensures var source := Trim(behind + (keyword + (mid + (body + tail))));
            && |source| >= 6 && word <= Upper(source) && Trim(source[6..]) == body
            && Upper(source)[0] == word[0]
  {
    var source := keyword + (mid + body);
    KeywordLetters(keyword, word);
    assert keyword + (mid + (body + tail)) == source + tail;
    TrimBoth(behind, source, tail);
    assert source[6..] == mid + body;
    assert Upper(source)[..6] == word;
    TrimBoth(mid, body, "");
    assert body + "" == body;
  }

  lemma KeywordLetters(keyword: string, word: string)
    requires Letters(word) && Upper(keyword) == word
    ensures keyword != "" && !IsSpace(keyword[0])
  {
    assert UpperChar(keyword[0]) == word[0];
  }

  lemma ValuesSource(source: string, body: string, parts: seq<string>, rows: seq<seq<string>>)
    requires |source| >= 6 && "VALUES" <= Upper(source) && Trim(source[6..]) == body
    requires SplitList(body) == parts && Groups(parts) == Ok(rows)
    ensures ExpressionRows(source) == Ok(rows)
  {
    hide Upper, Trim, SplitList, Groups;
  }

  lemma KeysIs(keyColumns: seq<string>, text: string, args: seq<Value>, columns: seq<string>, source: string, rows: seq<seq<string>>, keys: seq<string>)
    requires Header(text) == Ok((columns, source)) && ExpressionRows(source) == Ok(rows) && rows != []
    requires RowKeys(columns, keyColumns, rows, args, 0) == Ok(keys)
    ensures KeysOf(keyColumns, text, args) == Ok(keys)
  {
    hide Header, ExpressionRows, RowKeys;
  }

  lemma SixLetters()
    ensures Letters("VALUES") && Letters("SELECT") && |"VALUES"| == 6 && |"SELECT"| == 6
  {
  }

  lemma {:induction false} RowCounts(columns: seq<Column>, keyColumns: seq<string>, rows: seq<seq<Cell>>)
    requires GoodRows(columns, keyColumns, rows) && rows != []
    ensures GoodRow(columns, keyColumns, rows[0])
  {
  }

  lemma PrintValuesIs(columns: seq<Column>, rows: seq<seq<Cell>>, l: Layout, keyword: string)
    requires GoodLayout(columns, rows, l)
    ensures PrintValues(columns, rows, l, keyword)
         == PrintHeader(columns, l.columns, l.lead, l.behind + (keyword + (l.mid + (Show(Listed(RowList(columns, rows, l))) + l.tail))))
    ensures GoodGaps(l.columns) && |l.columns| == |columns| && Fit(rows, l.cells)
    ensures Spaces(l.lead) && Spaces(l.behind) && Spaces(l.mid) && Spaces(l.tail)
  {
  }

  /** The rows as a list. */
  lemma {:induction false} RowListReads(columns: seq<Column>, keyColumns: seq<string>, rows: seq<seq<Cell>>, l: Layout)
    requires GoodRows(columns, keyColumns, rows) && columns != [] && rows != [] && GoodLayout(columns, rows, l)
    ensures var items := RowList(columns, rows, l);
            Items(items) && Flush(items) && items != [] && Shown(items) == Texts(RowSqls(rows, l.cells))
  {
    hide GoodGaps, GoodRows, GoodRow, SqlItems, Items, Fit, Shown, Texts, SpacedAll, RowSqls, Spaces;
    RowsAreItems(columns, keyColumns, rows, l.cells);
    SpacedItems(RowSqls(rows, l.cells), l.rows);
    TextsAreShown(RowSqls(rows, l.cells), l.rows);
    SpacedFlush(RowSqls(rows, l.cells), l.rows);
  }

  /** The extractor returns, row by row, exactly the keys a VALUES statement writes, whatever its space. */
  lemma {:induction false} ValuesAgree(columns: seq<Column>, keyColumns: seq<string>, rows: seq<seq<Cell>>, args: seq<Value>, l: Layout, keyword: string)
    requires GoodRows(columns, keyColumns, rows) && Distinct(columns) && AllNamed(columns, keyColumns)
    requires columns != [] && rows != [] && HolesInRows(rows) <= |args|
    requires GoodLayout(columns, rows, l) && Upper(keyword) == "VALUES"
    ensures KeysOf(keyColumns, PrintValues(columns, rows, l, keyword), args)
         == Ok(StatementKeys(columns, keyColumns, rows, args, 0))
  {
    hide *;
    var items := RowList(columns, rows, l);
    var body := Show(Listed(items));
    var source := l.behind + (keyword + (l.mid + (body + l.tail)));
    SixLetters();
    RowCounts(columns, keyColumns, rows);
    PrintValuesIs(columns, rows, l, keyword);
    HeaderReads(columns, keyColumns, rows[0], l.columns, l.lead, source);
    RowListReads(columns, keyColumns, rows, l);
    ListedTight(items);
    SourceParts(l.behind, keyword, l.mid, body, l.tail, "VALUES");
    SplitReadsList(items);
    GroupsRead(columns, keyColumns, rows, l.cells);
    ValuesSource(Trim(source), body, Texts(RowSqls(rows, l.cells)), RowTexts(rows));
    RowsRead(columns, keyColumns, rows, args, 0);
    KeysIs(keyColumns, PrintValues(columns, rows, l, keyword), args, Texts(ColumnSqls(columns)), Trim(source), RowTexts(rows),
           StatementKeys(columns, keyColumns, rows, args, 0));
  }

  // ----- SELECT

  /** A condition may follow a selection: its keyword reads WHERE, and its text ends tight. */
  predicate GoodCondition(condition: Condition, gap: string) {
    condition.Where? ==>
      Upper(condition.keyword) == "WHERE" && gap != "" && EndsWord(condition.tail)
      && (condition.tail == "" || !IsSpace(condition.tail[|condition.tail| - 1]))
  }

  /** No expression has the keyword outside its parentheses. */
  predicate NoWhere(row: seq<Cell>) { SqlsLack(CellSqls(row), "WHERE") }

  predicate SqlsLack(sqls: seq<Sql>, word: string) {
    sqls == [] || (Lacks(sqls[0], word) && SqlsLack(sqls[1..], word))
  }

  lemma {:induction false} SpacedLacks(sqls: seq<Sql>, gaps: seq<Gap>, word: string)
    requires |gaps| == |sqls| && SqlsLack(sqls, word)
    ensures AllLack(SpacedAll(sqls, gaps), word)
  {
    hide Lacks;
    if sqls != [] { SpacedLacks(sqls[1..], gaps[1..], word); }
  }

  /** A last separator changes nothing. */
  lemma {:induction false} NoneBeforeComma(u: string, word: string, depth: nat, before: Option<char>)
    requires Letters(word) && FirstWord(u + ",", word, depth, before).None?
    ensures FirstWord(u, word, depth, before).None?
  {
    if u != "" {
      assert (u + ",")[1..] == u[1..] + ",";
      StartsInside(u, ",", word);
      NoneBeforeComma(u[1..], word, Deeper(u[0], depth), Some(u[0]));
    }
  }

  lemma NoWordInComma(word: string, before: Option<char>)
    requires Letters(word)
    ensures FirstWord(",", word, 0, before).None? && Separates(",")
  {
  }

  lemma ShiftNone(n: nat, i: Option<nat>)
    requires i.None?
    ensures Shift(n, i).None?
  {
  }

  /** A list of expressions without the keyword has none either. */
  lemma ListLacks(items: seq<Spaced>, word: string)
    requires items != [] && Letters(word) && Items(items) && AllLack(items, word)
    ensures FirstWord(Masked(Listed(items)), word, 0, None).None?
  {
    hide *;
    NoWordInComma(word, None);
    var last := ListPasses(items, ",", word, None);
    NoWordInComma(word, last);
    ShiftNone(Size(Listed(items)), FirstWord(",", word, 0, last));
    MaskedThenIs(Listed(items), ",");
    NoneBeforeComma(Masked(Listed(items)), word, 0, None);
  }

  lemma FindIs(t: Sql, word: string)
    requires Balanced(t)
    ensures FindKeyword(Show(t), word) == FirstWord(Masked(t), word, 0, None)
  {
    MaskWhole(t, true);
  }

  /** What stands in front of the condition. */
  lemma SelectionIs(list: Sql, gap: string, rest: string, text: string)
    requires Spaces(gap) && Tight(Show(list)) && text == ShowThen(list, gap + rest)
    requires FindKeyword(text, "WHERE") == Some(Size(list) + |gap|)
    ensures SelectedText(text) == Show(list)
  {
    hide FindKeyword, ShowThen, Trim;
    ShowThenIs(list, gap + rest);
    assert text[..Size(list) + |gap|] == Show(list) + gap;
    TrimBoth("", Show(list), gap);
    assert "" + (Show(list) + gap) == Show(list) + gap;
  }

  lemma {:induction false} CellListReads(columns: seq<Column>, keyColumns: seq<string>, row: seq<Cell>, l: Spacing)
    requires GoodRow(columns, keyColumns, row) && columns != [] && GoodSpacing(columns, row, l)
    ensures var items := CellList(row, l.cells);
            Items(items) && Flush(items) && items != [] && Shown(items) == Texts(CellSqls(row))
    ensures NoWhere(row) ==> AllLack(CellList(row, l.cells), "WHERE")
  {
    hide GoodGaps, GoodRow, SqlItems, Items, Shown, Texts, SpacedAll, CellSqls, Spaces, SqlsLack, AllLack;
    RowItems(columns, keyColumns, row, l.cells);
    SpacedFlush(CellSqls(row), l.cells);
    if NoWhere(row) { SpacedLacks(CellSqls(row), l.cells, "WHERE"); }
  }

  /** The selection in front of a condition, or the whole text without one, is the list. */
  lemma SelectionReads(items: seq<Spaced>, gap: string, condition: Condition)
    requires Items(items) && Flush(items) && AllLack(items, "WHERE") && Spaces(gap) && GoodCondition(condition, gap)
    ensures SelectedText(ShowThen(Listed(items), PrintCondition(condition, gap))) == Show(Listed(items))
  {
    hide Listed, ShowThen, FindKeyword, Trim, Size, Masked, Items, AllLack;
    var list := Listed(items);
    ListedBalanced(items);
    ListedTight(items);
    match condition
    case Always =>
      ListLacks(items, "WHERE");
      FindIs(list, "WHERE");
    case Where(keyword, tail) =>
      FindSkipsList(items, gap, keyword, tail, "WHERE");
      SelectionIs(list, gap, keyword + tail, ShowThen(list, gap + (keyword + tail)));
  }

  lemma WhereEnds(keyword: string, tail: string)
    requires Upper(keyword) == "WHERE" && (tail == "" || !IsSpace(tail[|tail| - 1]))
    ensures keyword + tail != "" && !IsSpace((keyword + tail)[|keyword + tail| - 1])
  {
    assert |keyword| == |Upper(keyword)| == 5;
    assert UpperChar(keyword[4]) == Upper(keyword)[4] == "WHERE"[4];
  }

  lemma SelectionTight(list: Sql, gap: string, condition: Condition)
    requires Tight(Show(list)) && GoodCondition(condition, gap)
    ensures Tight(ShowThen(list, PrintCondition(condition, gap)))
  {
    hide ShowThen, Size, Upper;
    ShowThenIs(list, PrintCondition(condition, gap));
    if condition.Where? {
      WhereEnds(condition.keyword, condition.tail);
    }
  }

  lemma SelectSource(source: string, body: string, list: string, row: seq<string>)
    requires |source| >= 6 && "SELECT" <= Upper(source) && Trim(source[6..]) == body && Upper(source)[0] == 'S'
    requires SelectedText(body) == list && SplitList(list) == row
    ensures ExpressionRows(source) == Ok([row])
  {
    hide Upper, Trim, SplitList, SelectedText;
  }

  lemma CellsFit(columns: seq<Column>, row: seq<Cell>, l: Spacing)
    requires GoodSpacing(columns, row, l)
    ensures |l.cells| == |row|
  {
  }

  lemma PrintSelectIs(columns: seq<Column>, row: seq<Cell>, l: Spacing, keyword: string, condition: Condition)
    requires GoodSpacing(columns, row, l)
    ensures PrintSelect(columns, row, l, keyword, condition)
         == PrintHeader(columns, l.columns, l.lead,
              l.behind + (keyword + (l.mid + (ShowThen(Listed(CellList(row, l.cells)), PrintCondition(condition, l.gap)) + l.tail))))
    ensures GoodGaps(l.columns) && |l.columns| == |columns|
    ensures Spaces(l.lead) && Spaces(l.behind) && Spaces(l.mid) && Spaces(l.gap) && Spaces(l.tail)
  {
  }

  lemma OneRow(columns: seq<Column>, keyColumns: seq<string>, row: seq<Cell>)
    requires GoodRow(columns, keyColumns, row)
    ensures GoodRows(columns, keyColumns, [row]) && HolesInRows([row]) == HolesIn(row)
    ensures RowTexts([row]) == [Texts(CellSqls(row))]
  {
    hide GoodRow, Texts, CellSqls, HolesIn;
    assert [row][1..] == [];
  }

  /** The extractor returns exactly the key a SELECT statement writes, with or without a condition,
      whatever its space. */
  lemma {:induction false} SelectAgrees(columns: seq<Column>, keyColumns: seq<string>, row: seq<Cell>, args: seq<Value>, l: Spacing, keyword: string, condition: Condition)
    requires GoodRow(columns, keyColumns, row) && Distinct(columns) && AllNamed(columns, keyColumns)
    requires columns != [] && HolesIn(row) <= |args|
    requires GoodSpacing(columns, row, l) && Upper(keyword) == "SELECT" && GoodCondition(condition, l.gap) && NoWhere(row)
    ensures KeysOf(keyColumns, PrintSelect(columns, row, l, keyword, condition), args)
         == Ok([EncodeKey(KeyValues(columns, keyColumns, row, args, 0))])
  {
    hide *;
    CellsFit(columns, row, l);
    var items := CellList(row, l.cells);
    var list := Listed(items);
    var body := ShowThen(list, PrintCondition(condition, l.gap));
    var source := l.behind + (keyword + (l.mid + (body + l.tail)));
    SixLetters();
    PrintSelectIs(columns, row, l, keyword, condition);
    HeaderReads(columns, keyColumns, row, l.columns, l.lead, source);
    CellListReads(columns, keyColumns, row, l);
    ListedTight(items);
    SelectionTight(list, l.gap, condition);
    SourceParts(l.behind, keyword, l.mid, body, l.tail, "SELECT");
    SelectionReads(items, l.gap, condition);
    SplitReadsList(items);
    SelectSource(Trim(source), body, Show(list), Texts(CellSqls(row)));
    OneRow(columns, keyColumns, row);
    RowsRead(columns, keyColumns, [row], args, 0);
    OneKey(columns, keyColumns, row, args);
    KeysIs(keyColumns, PrintSelect(columns, row, l, keyword, condition), args, Texts(ColumnSqls(columns)), Trim(source),
           [Texts(CellSqls(row))], [EncodeKey(KeyValues(columns, keyColumns, row, args, 0))]);
  }

  lemma OneKey(columns: seq<Column>, keyColumns: seq<string>, row: seq<Cell>, args: seq<Value>)
    requires GoodRow(columns, keyColumns, row)
    ensures GoodRows(columns, keyColumns, [row]) && |columns| == |row|
    ensures StatementKeys(columns, keyColumns, [row], args, 0) == [EncodeKey(KeyValues(columns, keyColumns, row, args, 0))]
  {
    OneRow(columns, keyColumns, row);
    assert [row][1..] == [];
  }
}
