/**
 * The CSV writer of the export action (generateCSV): fields are quoted when
 * they hold a comma, a double quote or a line feed, with inner quotes
 * doubled, as in rules 5-7 of section 2 of RFC 4180; unlike RFC 4180,
 * records are separated by a bare line feed and a carriage return does not
 * cause quoting. A reader for that format is defined alongside, and the
 * writer is proved to round-trip through it.
 */
module Csv {
  import opened Wrappers
  import opened Text

  /** An exported object: its keys in order, each with its value printed, or `None` for null/undefined. */
  type Record = seq<(string, Option<string>)>

  predicate NeedsQuoting(v: string)
  {
    ',' in v || '"' in v || '\n' in v
  }

  /** `v.replace(/"/g, '""')`. */
  function DoubleQuotes(v: string): (r: string)
    ensures '"' !in v ==> r == v
    ensures |r| >= |v|
  {
    if v == [] then []
    else (if v[0] == '"' then "\"\"" else [v[0]]) + DoubleQuotes(v[1..])
  }

  /** The escaping of one field. */
  function EscapeField(v: string): (r: string)
    ensures NeedsQuoting(v) <==> (r != [] && r[0] == '"')
    ensures !NeedsQuoting(v) ==> r == v
  {
    if NeedsQuoting(v) then "\"" + DoubleQuotes(v) + "\"" else v
  }

  /** Turns each `""` back into `"`. */
  function UndoubleQuotes(f: string): string
  {
    if f == [] then []
    else if |f| >= 2 && f[0] == '"' && f[1] == '"' then "\"" + UndoubleQuotes(f[2..])
    else [f[0]] + UndoubleQuotes(f[1..])
  }

  /** Strips the outer quotes of a quoted field and un-doubles its inner quotes. */
  function UnescapeField(f: string): string
  {
    if |f| >= 2 && f[0] == '"' && f[|f| - 1] == '"' then UndoubleQuotes(f[1..|f| - 1]) else f
  }

  lemma {:induction false} UndoubleDouble(v: string)
    ensures UndoubleQuotes(DoubleQuotes(v)) == v
  {
    if v != [] {
      UndoubleDouble(v[1..]);
      if v[0] == '"' {
        assert DoubleQuotes(v)[2..] == DoubleQuotes(v[1..]);
      } else {
        assert DoubleQuotes(v)[1..] == DoubleQuotes(v[1..]);
      }
    }
  }

  /** Escaping is undone by stripping the quotes and un-doubling: a quoted field is not ambiguous. */
  lemma EscapeRoundTrip(v: string)
    ensures UnescapeField(EscapeField(v)) == v
  {
    var e := EscapeField(v);
    if NeedsQuoting(v) {
      assert e[1..|e| - 1] == DoubleQuotes(v);
      UndoubleDouble(v);
    }
  }

  /** `item[key]`: the value of the first pair with that key; `None` for a missing key. */
  function Lookup(item: Record, key: string): Option<string>
  {
    if item == [] then None
    else if item[0].0 == key then item[0].1
    else Lookup(item[1..], key)
  }

  /** The value found for a key is that of its first pair. */
  lemma {:induction false} LookupFirst(item: Record, k: nat, key: string)
    requires k < |item| && item[k].0 == key
    requires forall j :: 0 <= j < k ==> item[j].0 != key
    ensures Lookup(item, key) == item[k].1
  {
    if k > 0 {
      LookupFirst(item[1..], k - 1, key);
    }
  }

  /** A value as the writer prints it: `null` and `undefined` print as the empty string. */
  function ValueText(v: Option<string>): string
  {
    if v.Some? then v.value else ""
  }

  /** With distinct keys, the values under an item's own keys are its values, in order. */
  lemma CellsOfDistinctKeys(item: Record)
    requires forall i, j :: 0 <= i < j < |item| ==> item[i].0 != item[j].0
    ensures RowValues(item, Keys(item)) == seq(|item|, k requires 0 <= k < |item| => ValueText(item[k].1))
  {
    var values := RowValues(item, Keys(item));
    forall k | 0 <= k < |item|
      ensures values[k] == ValueText(item[k].1)
    {
      CellAt(item, k);
    }
  }

  /** Under a key that no earlier pair has, the cell is that pair's value. */
  lemma CellAt(item: Record, k: nat)
    requires k < |item| && forall j :: 0 <= j < k ==> item[j].0 != item[k].0
    ensures Cell(item, Keys(item)[k]) == ValueText(item[k].1)
  {
    LookupFirst(item, k, item[k].0);
  }

  /** An object literal: each key paired with its value, in order. */
  function Zip(keys: seq<string>, values: seq<Option<string>>): (item: Record)
    requires |keys| == |values|
    ensures |item| == |keys| && forall i :: 0 <= i < |keys| ==> item[i] == (keys[i], values[i])
  {
    if keys == [] then [] else [(keys[0], values[0])] + Zip(keys[1..], values[1..])
  }

  lemma ZipKeys(keys: seq<string>, values: seq<Option<string>>)
    requires |keys| == |values|
    ensures Keys(Zip(keys, values)) == keys
  {
    var k := Keys(Zip(keys, values));
    assert |k| == |keys|;
    forall i | 0 <= i < |keys|
      ensures k[i] == keys[i]
    {
    }
  }

  /** Over distinct keys, an object literal's cells are its values, printed. */
  lemma ZipCells(keys: seq<string>, values: seq<Option<string>>)
    requires |keys| == |values| && forall i, j :: 0 <= i < j < |keys| ==> keys[i] != keys[j]
    ensures RowValues(Zip(keys, values), keys) == seq(|values|, k requires 0 <= k < |values| => ValueText(values[k]))
  {
    var item := Zip(keys, values);
    ZipKeys(keys, values);
    CellsOfDistinctKeys(item);
  }

  /** `item[key]?.toString() || ''`. */
  function Cell(item: Record, key: string): string
  {
    match Lookup(item, key)
    case None => ""
    case Some(v) => v
  }

  function Keys(item: Record): (keys: seq<string>)
    ensures |keys| == |item| && forall i :: 0 <= i < |item| ==> keys[i] == item[i].0
  {
    if item == [] then [] else [item[0].0] + Keys(item[1..])
  }

  /** The values of one data row, one per header, before escaping. */
  function RowValues(item: Record, headers: seq<string>): (values: seq<string>)
    ensures |values| == |headers|
    ensures forall i :: 0 <= i < |headers| ==> values[i] == Cell(item, headers[i])
  {
    if headers == [] then [] else [Cell(item, headers[0])] + RowValues(item, headers[1..])
  }

  function EscapeAll(values: seq<string>): (fields: seq<string>)
    ensures |fields| == |values|
    ensures forall i :: 0 <= i < |values| ==> fields[i] == EscapeField(values[i])
  {
    if values == [] then [] else [EscapeField(values[0])] + EscapeAll(values[1..])
  }

  /** One CSV line: the escaped values joined by commas. */
  function Line(values: seq<string>): string
  {
    Join(EscapeAll(values), ",")
  }

  function Lines(rows: seq<seq<string>>): (lines: seq<string>)
    ensures |lines| == |rows|
    ensures forall i :: 0 <= i < |rows| ==> lines[i] == Line(rows[i])
  {
    if rows == [] then [] else [Line(rows[0])] + Lines(rows[1..])
  }

  /** The values of the data rows: every row has one value per header. */
  function Table(data: seq<Record>, headers: seq<string>): (rows: seq<seq<string>>)
    ensures |rows| == |data|
    ensures forall i :: 0 <= i < |data| ==> rows[i] == RowValues(data[i], headers) && |rows[i]| == |headers|
  {
    if data == [] then [] else [RowValues(data[0], headers)] + Table(data[1..], headers)
  }

  /**
   * generateCSV: the keys of the first record joined by `,` (not escaped),
   * then one line per record, joined by line feeds; nothing for no records.
   */
  function GenerateCsv(data: seq<Record>): (csv: string)
    ensures data == [] <==> csv == []
  {
    if data == [] then ""
    else
      var headers := Keys(data[0]);
      var lines := [Join(headers, ",")] + Lines(Table(data, headers));
      JoinNonEmpty(lines, "\n");
      Join(lines, "\n")
  }

  lemma JoinNonEmpty(parts: seq<string>, sep: string)
    requires |parts| >= 2 && sep != []
    ensures Join(parts, sep) != []
  {
  }

  /** Reads the body of a quoted field, after its opening quote, through its closing quote. */
  function ReadQuoted(s: string): (r: (string, string))
    ensures |r.1| <= |s|
  {
    if s == [] then ([], [])
    else if s[0] == '"' then
      if |s| >= 2 && s[1] == '"' then
        var r := ReadQuoted(s[2..]);
        ("\"" + r.0, r.1)
      else ([], s[1..])
    else
      var r := ReadQuoted(s[1..]);
      ([s[0]] + r.0, r.1)
  }

  /** Reads an unquoted field, up to the next comma or line feed. */
  function ReadPlain(s: string): (r: (string, string))
    ensures |r.1| <= |s|
  {
    if s == [] || s[0] == ',' || s[0] == '\n' then ([], s)
    else
      var r := ReadPlain(s[1..]);
      ([s[0]] + r.0, r.1)
  }

  /** Reads one field: its value and the text after it. */
  function ReadField(s: string): (r: (string, string))
    ensures |r.1| <= |s|
  {
    if s != [] && s[0] == '"' then ReadQuoted(s[1..]) else ReadPlain(s)
  }

  /** Reads the fields of one record, up to a line feed or the end. */
  function ReadRecord(s: string): (r: (seq<string>, string))
    ensures |r.1| <= |s|
    decreases |s|
  {
    var field := ReadField(s);
    var rest := field.1;
    if rest != [] && rest[0] == ',' then
      var more := ReadRecord(rest[1..]);
      ([field.0] + more.0, more.1)
    else ([field.0], rest)
  }

  /** A CSV reader for the format written above: the records of `s`, each a list of values. */
  function ReadCsv(s: string): seq<seq<string>>
    decreases |s|
  {
    var record := ReadRecord(s);
    var rest := record.1;
    if rest != [] && rest[0] == '\n' then [record.0] + ReadCsv(rest[1..]) else [record.0]
  }

  /** What may follow a field: nothing, a comma or a line feed. */
  predicate FieldEnd(rest: string)
  {
    rest == [] || rest[0] == ',' || rest[0] == '\n'
  }

  lemma {:induction false} ReadPlainOf(v: string, rest: string)
    requires ',' !in v && '\n' !in v && FieldEnd(rest)
    ensures ReadPlain(v + rest) == (v, rest)
  {
    if v != [] {
      assert (v + rest)[1..] == v[1..] + rest;
      ReadPlainOf(v[1..], rest);
      assert [v[0]] + v[1..] == v;
    } else {
      assert v + rest == rest;
    }
  }

  /** The body of a quoted field, with its inner quotes doubled, reads back through its closing quote. */
  lemma {:induction false} ReadQuotedOf(v: string, rest: string)
    requires rest == [] || rest[0] != '"'
    ensures ReadQuoted(DoubleQuotes(v) + "\"" + rest) == (v, rest)
  {
    if v == [] {
      var s := DoubleQuotes(v) + "\"" + rest;
      assert s == "\"" + rest;
      assert s[1..] == rest;
    } else {
      var body := DoubleQuotes(v[1..]) + "\"" + rest;
      ReadQuotedOf(v[1..], rest);
      DoubleQuotesSplit(v, rest);
      if v[0] == '"' {
        ReadDoubledQuote(body, v[1..], rest);
      } else {
        ReadQuotedChar(v[0], body, v[1..], rest);
      }
      assert v == [v[0]] + v[1..];
    }
  }

  /** Doubling the quotes of a value works character by character. */
  lemma DoubleQuotesSplit(v: string, rest: string)
    requires v != []
    ensures DoubleQuotes(v) + "\"" + rest
      == (if v[0] == '"' then "\"\"" else [v[0]]) + (DoubleQuotes(v[1..]) + "\"" + rest)
  {
    var p := if v[0] == '"' then "\"\"" else [v[0]];
    assert DoubleQuotes(v) == p + DoubleQuotes(v[1..]);
    ConcatAssoc(p, DoubleQuotes(v[1..]), "\"", rest);
  }

  lemma ConcatAssoc<T>(a: seq<T>, b: seq<T>, c: seq<T>, d: seq<T>)
    ensures a + b + c + d == a + (b + c + d)
  {
  }

  /** A doubled quote in a quoted field's body reads as one quote. */
  lemma ReadDoubledQuote(body: string, v: string, rest: string)
    requires ReadQuoted(body) == (v, rest)
    ensures ReadQuoted("\"\"" + body) == ("\"" + v, rest)
  {
    assert ("\"\"" + body)[2..] == body;
  }

  /** Any other character of a quoted field's body reads as itself. */
  lemma ReadQuotedChar(c: char, body: string, v: string, rest: string)
    requires c != '"' && ReadQuoted(body) == (v, rest)
    ensures ReadQuoted([c] + body) == ([c] + v, rest)
  {
    assert ([c] + body)[1..] == body;
  }

  /** Reading an escaped field gives back its value and stops where the field ends. */
  lemma ReadFieldOf(v: string, rest: string)
    requires FieldEnd(rest)
    ensures ReadField(EscapeField(v) + rest) == (v, rest)
  {
    if NeedsQuoting(v) {
      ReadFieldQuoted(v, rest);
    } else {
      ReadFieldPlain(v, rest);
    }
  }

  lemma ReadFieldQuoted(v: string, rest: string)
    requires NeedsQuoting(v) && FieldEnd(rest)
    ensures ReadField(EscapeField(v) + rest) == (v, rest)
  {
    var body := DoubleQuotes(v) + "\"" + rest;
    var s := EscapeField(v) + rest;
    assert s == "\"" + body;
    assert s[1..] == body;
    ReadQuotedOf(v, rest);
  }

  lemma ReadFieldPlain(v: string, rest: string)
    requires !NeedsQuoting(v) && FieldEnd(rest)
    ensures ReadField(EscapeField(v) + rest) == (v, rest)
  {
    ReadPlainOf(v, rest);
    if v == [] {
      assert v + rest == rest;
    } else {
      assert (v + rest)[0] == v[0];
    }
  }

  /** The fields of a line are read back one by one, up to the line's end. */
  lemma {:induction false} ReadRecordOf(values: seq<string>, rest: string)
    requires values != [] && (rest == [] || rest[0] == '\n')
    ensures ReadRecord(Line(values) + rest) == (values, rest)
    decreases |values|
  {
    if |values| == 1 {
      ReadRecordLast(values, rest);
    } else {
      var tail := Line(values[1..]) + rest;
      ReadRecordOf(values[1..], rest);
      ReadRecordNext(values[0], tail, values[1..], rest);
      LineSplit(values, rest);
      assert values == [values[0]] + values[1..];
    }
  }

  lemma ReadRecordLast(values: seq<string>, rest: string)
    requires |values| == 1 && (rest == [] || rest[0] == '\n')
    ensures ReadRecord(Line(values) + rest) == (values, rest)
  {
    assert EscapeAll(values) == [EscapeField(values[0])];
    assert Line(values) == EscapeField(values[0]);
    ReadFieldOf(values[0], rest);
    assert values == [values[0]];
  }

  /** A line of several values is the first field, a comma and the line of the others. */
  lemma LineSplit(values: seq<string>, rest: string)
    requires |values| >= 2
    ensures Line(values) + rest == EscapeField(values[0]) + ("," + (Line(values[1..]) + rest))
  {
    var fields := EscapeAll(values);
    assert fields[0] == EscapeField(values[0]);
    assert fields[1..] == EscapeAll(values[1..]);
    assert Line(values) == EscapeField(values[0]) + "," + Line(values[1..]);
  }

  /** A field and a comma before the text of a record add the field in front of that record. */
  lemma ReadRecordNext(v: string, tail: string, values: seq<string>, rest: string)
    requires ReadRecord(tail) == (values, rest)
    ensures ReadRecord(EscapeField(v) + ("," + tail)) == ([v] + values, rest)
  {
    var after := "," + tail;
    ReadFieldOf(v, after);
    assert after[1..] == tail;
  }

  /** The reader recovers every record the writer's lines hold, field for field. */
  lemma {:induction false} ReadCsvOf(rows: seq<seq<string>>)
    requires rows != [] && forall i :: 0 <= i < |rows| ==> rows[i] != []
    ensures ReadCsv(Join(Lines(rows), "\n")) == rows
    decreases |rows|
  {
    if |rows| == 1 {
      assert Line(rows[0]) + [] == Line(rows[0]);
      ReadRecordOf(rows[0], []);
      assert Join(Lines(rows), "\n") == Line(rows[0]);
    } else {
      var tail := Join(Lines(rows[1..]), "\n");
      ReadCsvOf(rows[1..]);
      ReadRecordOf(rows[0], "\n" + tail);
      ReadCsvNext(Line(rows[0]) + ("\n" + tail), rows[0], tail, rows[1..]);
      LinesSplit(rows);
      assert rows == [rows[0]] + rows[1..];
    }
  }

  /** Text of several lines is the first line, a line feed and the others. */
  lemma LinesSplit(rows: seq<seq<string>>)
    requires |rows| >= 2
    ensures Join(Lines(rows), "\n") == Line(rows[0]) + ("\n" + Join(Lines(rows[1..]), "\n"))
  {
    var lines := Lines(rows);
    assert lines[0] == Line(rows[0]) && lines[1..] == Lines(rows[1..]);
    JoinSplit(lines, "\n");
  }

  /** Joining several parts puts the separator after the first. */
  lemma JoinSplit(parts: seq<string>, sep: string)
    requires |parts| >= 2
    ensures Join(parts, sep) == parts[0] + (sep + Join(parts[1..], sep))
  {
    assert parts[0] + sep + Join(parts[1..], sep) == parts[0] + (sep + Join(parts[1..], sep));
  }

  /** A record ending in a line feed is followed by the records of the text after it. */
  lemma ReadCsvNext(s: string, record: seq<string>, tail: string, records: seq<seq<string>>)
    requires ReadRecord(s) == (record, "\n" + tail) && ReadCsv(tail) == records
    ensures ReadCsv(s) == [record] + records
  {
    assert ("\n" + tail)[1..] == tail;
  }

  /** Values that need no quoting are written as they are. */
  lemma EscapeAllPlain(values: seq<string>)
    requires forall i :: 0 <= i < |values| ==> !NeedsQuoting(values[i])
    ensures EscapeAll(values) == values
  {
  }

  /** With plain keys, generateCSV's header line is the line the writer would escape them into. */
  lemma GenerateCsvLines(data: seq<Record>)
    requires data != []
    requires forall i :: 0 <= i < |data[0]| ==> !NeedsQuoting(data[0][i].0)
    ensures GenerateCsv(data) == Join(Lines([Keys(data[0])] + Table(data, Keys(data[0]))), "\n")
  {
    var headers := Keys(data[0]);
    var rows := [headers] + Table(data, headers);
    EscapeAllPlain(headers);
    assert rows[0] == headers && rows[1..] == Table(data, headers);
    assert Lines(rows) == [Join(headers, ",")] + Lines(Table(data, headers));
  }

  /**
   * The CSV round trip: reading generateCSV's output gives the header row
   * and then, for each record, one value per header, when the first record
   * has keys and none of them needs quoting (the header row is written
   * unescaped).
   */
  lemma GenerateCsvRoundTrip(data: seq<Record>)
    requires data != [] && data[0] != []
    requires forall i :: 0 <= i < |data[0]| ==> !NeedsQuoting(data[0][i].0)
    ensures ReadCsv(GenerateCsv(data)) == [Keys(data[0])] + Table(data, Keys(data[0]))
  {
    var headers := Keys(data[0]);
    var rows := [headers] + Table(data, headers);
    GenerateCsvLines(data);
    RowsNonEmpty(headers, Table(data, headers));
    ReadCsvOf(rows);
  }

  /** The header row and rows of one value per header are never empty. */
  lemma RowsNonEmpty(headers: seq<string>, table: seq<seq<string>>)
    requires headers != [] && forall i :: 0 <= i < |table| ==> |table[i]| == |headers|
    ensures forall i :: 0 <= i < |[headers] + table| ==> ([headers] + table)[i] != []
  {
    var rows := [headers] + table;
    forall i | 0 <= i < |rows|
      ensures rows[i] != []
    {
      if i > 0 {
        assert rows[i] == table[i - 1];
      }
    }
  }
}
