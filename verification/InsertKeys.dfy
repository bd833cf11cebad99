/**
 The transaction keys of a ClickHouse INSERT: which rows a statement writes, told
 from its text and its arguments.
 */
module InsertKeys {
  import opened Options
  import opened Decimals
  import opened SqlText

  /** A bound or literal value: SQL NULL, or the text it prints as. */
  datatype Value = Null | Text(text: string)

  datatype Failure =
    | NoColumns
    | BadColumns
    | BadValues
    | UnsupportedSource
    | NoValues
    | CountMismatch
    | UnsupportedExpression
    | OmittedColumn

  datatype Result<+T> = Ok(value: T) | Err(failure: Failure)

  /** The results of the first elements in front of those of the rest. */
  function Prepend<T>(head: seq<T>, tail: Result<seq<T>>): Result<seq<T>> {
    match tail
    case Err(e) => Err(e)
    case Ok(rest) => Ok(head + rest)
  }

  lemma PrependNothing<T>(tail: Result<seq<T>>)
    ensures Prepend([], tail) == tail
  {
    if tail.Ok? { assert [] + tail.value == tail.value; }
  }

  lemma PrependMore<T>(a: seq<T>, b: seq<T>, tail: Result<seq<T>>)
    ensures Prepend(a, Prepend(b, tail)) == Prepend(a + b, tail)
  {
    if tail.Ok? { assert a + (b + tail.value) == a + b + tail.value; }
  }

  // ----- Key encoding

  function EncodeValue(v: Value): string {
    match v
    case Null => "N"
    case Text(text) => "S" + Decimal(|text|) + ":" + text
  }

  function EncodeKey(values: seq<Value>): string {
    if values == [] then "" else EncodeValue(values[0]) + EncodeKey(values[1..])
  }

  method EncodeClickHouseKey(values: seq<Value>) returns (result: string)
    ensures result == EncodeKey(values)
  {
    result := "";
    var i := 0;
    assert values[0..] == values;
    while i < |values|
      invariant 0 <= i <= |values|
      invariant result + EncodeKey(values[i..]) == EncodeKey(values)
    {
      assert values[i..][1..] == values[i + 1..];
      ghost var written := result;
      if values[i].Null? {
        result := result + "N";
      } else {
        var text := values[i].text;
        result := result + ("S" + Decimal(|text|) + ":" + text);
      }
      Associative(written, EncodeValue(values[i]), EncodeKey(values[i + 1..]));
      i := i + 1;
    }
  }

  lemma Associative(a: string, b: string, c: string)
    ensures a + b + c == a + (b + c)
  {
  }

  // ----- Literals

  /** ReplaceAll of doubled single quotes. */
  function Undouble(s: string): string {
    if |s| < 2 then s
    else if s[0] == '\'' && s[1] == '\'' then ['\''] + Undouble(s[2..])
    else [s[0]] + Undouble(s[1..])
  }

  function SimpleLiteral(expression: string): Value {
    var trimmed := Trim(expression);
    if Upper(trimmed) == "NULL" then Null
    else if |trimmed| >= 2 && trimmed[0] == '\'' && trimmed[|trimmed| - 1] == '\'' then
      Text(Undouble(trimmed[1..|trimmed| - 1]))
    else Text(trimmed)
  }

  // ----- The statement's columns and rows

  function IsColumnQuote(c: char): bool { c == '`' || c == '"' }

  /** Trim of quote bytes on both sides. */
  function UnquoteLeft(s: string): string {
    if s != "" && IsColumnQuote(s[0]) then UnquoteLeft(s[1..]) else s
  }

  function UnquoteRight(s: string): string {
    if s != "" && IsColumnQuote(s[|s| - 1]) then UnquoteRight(s[..|s| - 1]) else s
  }

  function ColumnName(column: string): string {
    UnquoteRight(UnquoteLeft(Trim(column)))
  }

  /** The expressions of one parenthesised group. */
  function Group(part: string): Result<seq<string>> {
    var start := IndexOf(part, '(');
    if start.None? then Err(BadValues) else
    var end := MatchParenthesis(part[start.value..]);
    if end.None? then Err(BadValues)
    else Ok(SplitList(part[start.value + 1..start.value + end.value]))
  }

  function Groups(parts: seq<string>): Result<seq<seq<string>>> {
    if parts == [] then Ok([]) else
    match Group(parts[0])
    case Err(e) => Err(e)
    case Ok(row) => Prepend([row], Groups(parts[1..]))
  }

  function SelectedText(text: string): string {
    match FindKeyword(text, "WHERE")
    case Some(where) => Trim(text[..where])
    case None => text
  }

  function ExpressionRows(source: string): Result<seq<seq<string>>> {
    if "VALUES" <= Upper(source) then Groups(SplitList(Trim(source[6..])))
    else if "SELECT" <= Upper(source) then Ok([SplitList(SelectedText(Trim(source[6..])))])
    else Err(UnsupportedSource)
  }

  // ----- Aligning expressions with columns and arguments

  /** The value a key column's expression stands for, when `offset` placeholders precede it. */
  function Bound(expression: string, args: seq<Value>, offset: nat): Result<Value> {
    if Trim(expression) == "?" && offset < |args| then Ok(args[offset])
    else if CountPlaceholders(expression) == 0 then Ok(SimpleLiteral(expression))
    else Err(UnsupportedExpression)
  }

  /** The key columns' values in the expressions from `index` on, and the placeholders seen. */
  function RowValues(columns: seq<string>, keyColumns: seq<string>, row: seq<string>, args: seq<Value>,
                     index: nat, offset: nat, values: map<string, Value>): Result<(map<string, Value>, nat)>
    requires |columns| == |row| && index <= |row|
    decreases |row| - index
  {
    if index == |row| then Ok((values, offset)) else
    var next := offset + CountPlaceholders(row[index]);
    var column := ColumnName(columns[index]);
    if column !in keyColumns then RowValues(columns, keyColumns, row, args, index + 1, next, values)
    else match Bound(row[index], args, offset)
         case Err(e) => Err(e)
         case Ok(v) => RowValues(columns, keyColumns, row, args, index + 1, next, values[column := v])
  }

  function KeyOf(keyColumns: seq<string>, values: map<string, Value>): Result<seq<Value>> {
    if keyColumns == [] then Ok([])
    else if keyColumns[0] !in values then Err(OmittedColumn)
    else Prepend([values[keyColumns[0]]], KeyOf(keyColumns[1..], values))
  }

  function RowKeys(columns: seq<string>, keyColumns: seq<string>, rows: seq<seq<string>>, args: seq<Value>,
                   offset: nat): Result<seq<string>>
    decreases |rows|
  {
    if rows == [] then Ok([])
    else if |columns| != |rows[0]| then Err(CountMismatch)
    else
      match RowValues(columns, keyColumns, rows[0], args, 0, offset, map[])
      case Err(e) => Err(e)
      case Ok(found) =>
        match KeyOf(keyColumns, found.0)
        case Err(e) => Err(e)
        case Ok(values) => Prepend([EncodeKey(values)], RowKeys(columns, keyColumns, rows[1..], args, found.1))
  }

  /** The column list, and the text after it. */
  function Header(remainder: string): Result<(seq<string>, string)> {
    var start := IndexOf(remainder, '(');
    if start.None? then Err(NoColumns) else
    var end := MatchParenthesis(remainder[start.value..]);
    if end.None? then Err(BadColumns) else
    Ok((SplitList(remainder[start.value + 1..start.value + end.value]), Trim(remainder[start.value + end.value + 1..])))
  }

  /** The keys an INSERT writes; `remainder` is its text after the table's name. */
  function KeysOf(keyColumns: seq<string>, remainder: string, args: seq<Value>): Result<seq<string>> {
    match Header(remainder)
    case Err(e) => Err(e)
    case Ok(header) =>
      match ExpressionRows(header.1)
      case Err(e) => Err(e)
      case Ok(rows) => if rows == [] then Err(NoValues) else RowKeys(header.0, keyColumns, rows, args, 0)
  }

  // ----- The extractor

  method ReadGroups(parts: seq<string>) returns (result: Result<seq<seq<string>>>)
    ensures result == Groups(parts)
  {
    var rows: seq<seq<string>> := [];
    var i := 0;
    assert parts[0..] == parts;
    PrependNothing(Groups(parts));
    while i < |parts|
      invariant 0 <= i <= |parts|
      invariant Groups(parts) == Prepend(rows, Groups(parts[i..]))
    {
      assert parts[i..][1..] == parts[i + 1..];
      var group := parts[i];
      var start := IndexOf(group, '(');
      if start.None? { return Err(BadValues); }
      var end := MatchingParenthesis(group, start.value);
      if end < 0 { return Err(BadValues); }
      var row := SplitTopLevelList(group[start.value + 1..end]);
      PrependMore(rows, [row], Groups(parts[i + 1..]));
      rows := rows + [row];
      i := i + 1;
    }
    assert rows + [] == rows;
    result := Ok(rows);
  }

  method ReadRows(source: string) returns (result: Result<seq<seq<string>>>)
    ensures result == ExpressionRows(source)
  {
    var upper := Upper(source);
    if "VALUES" <= upper {
      var parts := SplitTopLevelList(Trim(source[6..]));
      result := ReadGroups(parts);
    } else if "SELECT" <= upper {
      var selected := Trim(source[6..]);
      var at := FindTopLevelKeyword(selected, "WHERE");
      if at >= 0 { selected := Trim(selected[..at]); }
      var row := SplitTopLevelList(selected);
      result := Ok([row]);
    } else {
      result := Err(UnsupportedSource);
    }
  }

  /** The inner loops of the extractor, over one row. */
  method ReadRow(columns: seq<string>, keyColumns: seq<string>, row: seq<string>, args: seq<Value>, argumentIndex: nat)
    returns (result: Result<(map<string, Value>, nat)>)
    requires |columns| == |row|
    ensures result == RowValues(columns, keyColumns, row, args, 0, argumentIndex, map[])
  {
    var values: map<string, Value> := map[];
    var offset: nat := argumentIndex;
    var index := 0;
    while index < |row|
      invariant 0 <= index <= |row|
      invariant RowValues(columns, keyColumns, row, args, 0, argumentIndex, map[])
             == RowValues(columns, keyColumns, row, args, index, offset, values)
    {
      var expression := row[index];
      var placeholders := CountSqlPlaceholders(expression);
      var column := ColumnName(columns[index]);
      ghost var before := values;
      for j := 0 to |keyColumns|
        invariant column in keyColumns[..j] ==>
                    Bound(expression, args, offset).Ok? && values == before[column := Bound(expression, args, offset).value]
        invariant column !in keyColumns[..j] ==> values == before
      {
        assert keyColumns[..j + 1] == keyColumns[..j] + [keyColumns[j]];
        if column != keyColumns[j] { continue; }
        if Trim(expression) == "?" && offset < |args| {
          values := values[keyColumns[j] := args[offset]];
        } else if placeholders == 0 {
          values := values[keyColumns[j] := SimpleLiteral(expression)];
        } else {
          return Err(UnsupportedExpression);
        }
      }
      assert keyColumns[..|keyColumns|] == keyColumns;
      offset := offset + placeholders;
      index := index + 1;
    }
    result := Ok((values, offset));
  }

  method ReadKey(keyColumns: seq<string>, values: map<string, Value>) returns (result: Result<seq<Value>>)
    ensures result == KeyOf(keyColumns, values)
  {
    var keyValues: seq<Value> := [];
    assert keyColumns[0..] == keyColumns;
    PrependNothing(KeyOf(keyColumns, values));
    for i := 0 to |keyColumns|
      invariant KeyOf(keyColumns, values) == Prepend(keyValues, KeyOf(keyColumns[i..], values))
    {
      assert keyColumns[i..][1..] == keyColumns[i + 1..];
      if keyColumns[i] !in values { return Err(OmittedColumn); }
      PrependMore(keyValues, [values[keyColumns[i]]], KeyOf(keyColumns[i + 1..], values));
      keyValues := keyValues + [values[keyColumns[i]]];
    }
    assert keyValues + [] == keyValues;
    result := Ok(keyValues);
  }

  /** The outer loop of the extractor, over the rows. */
  method ReadKeys(columns: seq<string>, keyColumns: seq<string>, rows: seq<seq<string>>, args: seq<Value>)
    returns (result: Result<seq<string>>)
    ensures result == RowKeys(columns, keyColumns, rows, args, 0)
  {
    var keys: seq<string> := [];
    var argumentIndex: nat := 0;
    var i := 0;
    assert rows[0..] == rows;
    PrependNothing(RowKeys(columns, keyColumns, rows, args, 0));
    while i < |rows|
      invariant 0 <= i <= |rows|
      invariant RowKeys(columns, keyColumns, rows, args, 0)
             == Prepend(keys, RowKeys(columns, keyColumns, rows[i..], args, argumentIndex))
    {
      assert rows[i..][1..] == rows[i + 1..];
      if |columns| != |rows[i]| { return Err(CountMismatch); }
      var found := ReadRow(columns, keyColumns, rows[i], args, argumentIndex);
      if found.Err? { return Err(found.failure); }
      var key := ReadKey(keyColumns, found.value.0);
      if key.Err? { return Err(key.failure); }
      var encoded := EncodeClickHouseKey(key.value);
      PrependMore(keys, [encoded], RowKeys(columns, keyColumns, rows[i + 1..], args, found.value.1));
      keys := keys + [encoded];
      argumentIndex := found.value.1;
      i := i + 1;
    }
    assert keys + [] == keys;
    result := Ok(keys);
  }

  method ReadHeader(remainder: string) returns (result: Result<(seq<string>, string)>)
    ensures result == Header(remainder)
  {
    var start := IndexOf(remainder, '(');
    if start.None? { return Err(NoColumns); }
    var end := MatchingParenthesis(remainder, start.value);
    if end < 0 { return Err(BadColumns); }
    var columns := SplitTopLevelList(remainder[start.value + 1..end]);
    result := Ok((columns, Trim(remainder[end + 1..])));
  }

  method ClickHouseInsertKeys(keyColumns: seq<string>, remainder: string, args: seq<Value>) returns (result: Result<seq<string>>)
    ensures result == KeysOf(keyColumns, remainder, args)
  {
    var header := ReadHeader(remainder);
    if header.Err? { return Err(header.failure); }
    var rows := ReadRows(header.value.1);
    if rows.Err? { return Err(rows.failure); }
    if rows.value == [] { return Err(NoValues); }
    result := ReadKeys(header.value.0, keyColumns, rows.value, args);
  }
}
