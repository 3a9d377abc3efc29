/** The CSV conversion of the export: a header line from the first record's
    keys, then one line per record with its values in the header's order.
    A string value that holds a comma is wrapped in double quotes; nothing else
    is escaped, so this is not the full quoting of RFC 4180. */
module Csv {
  import opened Text

  /** A field of an exported record: a string, an integer, or `null`. */
  datatype Value = Str(s: string) | Num(n: int) | Null

  /** A record as its keys and values, in the order the object's keys were created. */
  type Record = seq<(string, Value)>

  /** `Object.keys(record)`. */
  function Keys(r: Record): (ks: seq<string>)
    ensures |ks| == |r| && forall i :: 0 <= i < |r| ==> ks[i] == r[i].0
  {
    seq(|r|, i requires 0 <= i < |r| => r[i].0)
  }

  /** `record[key]`; a key the record lacks reads as `undefined`, which `join`
      prints as the empty string, just like `null`. */
  function Lookup(r: Record, key: string): Value
  {
    if r == [] then Null else if r[0].0 == key then r[0].1 else Lookup(r[1..], key)
  }

  /** How `join` prints one value after the quoting rule. */
  function FieldText(v: Value): string
  {
    match v
    case Str(s) => if Contains(s, ",") then "\"" + s + "\"" else s
    case Num(n) => IntToString(n)
    case Null => ""
  }

  function Fields(headers: seq<string>, row: Record): (fs: seq<string>)
    ensures |fs| == |headers|
    ensures forall k :: 0 <= k < |fs| ==> fs[k] == FieldText(Lookup(row, headers[k]))
  {
    seq(|headers|, i requires 0 <= i < |headers| => FieldText(Lookup(row, headers[i])))
  }

  function RowText(headers: seq<string>, row: Record): string
  {
    Join(Fields(headers, row), ',')
  }

  function Rows(headers: seq<string>, data: seq<Record>): (lines: seq<string>)
    ensures |lines| == |data|
  {
    seq(|data|, i requires 0 <= i < |data| => RowText(headers, data[i]))
  }

  /** The text `convertToCSV` produces. */
  function CsvText(data: seq<Record>): string
  {
    if data == [] then ""
    else
      var headers := Keys(data[0]);
      Join([Join(headers, ',')] + Rows(headers, data), '\n')
  }

  /** `convertToCSV`: the empty list gives the empty text; otherwise the header
      line and one line per record, pushed in a loop and joined by newlines. */
  method ConvertToCsv(data: seq<Record>) returns (csv: string)
    ensures |data| == 0 ==> csv == ""
    ensures csv == CsvText(data)
  {
    if |data| == 0 {
      return "";
    }
    var headers := Keys(data[0]);
    var csvRows := [Join(headers, ',')];
    for i := 0 to |data|
      invariant csvRows == [Join(headers, ',')] + Rows(headers, data[..i])
    {
      var values := Fields(headers, data[i]);
      csvRows := csvRows + [Join(values, ',')];
      assert Rows(headers, data[..i + 1]) == Rows(headers, data[..i]) + [RowText(headers, data[i])];
    }
    assert data[..|data|] == data;
    csv := Join(csvRows, '\n');
  }

  /** A string value is wrapped in quotes exactly when it holds a comma. */
  lemma QuoteRule(s: string)
    ensures FieldText(Str(s)) == if ',' in s then "\"" + s + "\"" else s
  {
    ContainsChar(s, ',');
  }

  /** No record key and no string value holds a line break. */
  ghost predicate NoLineBreaks(data: seq<Record>)
  {
    forall r: Record, i :: r in data && 0 <= i < |r| ==>
      '\n' !in r[i].0 && (r[i].1.Str? ==> '\n' !in r[i].1.s)
  }

  lemma {:induction false} LookupFrom(r: Record, key: string)
    ensures Lookup(r, key) == Null || exists i :: 0 <= i < |r| && Lookup(r, key) == r[i].1
  {
    if r != [] && r[0].0 != key {
      LookupFrom(r[1..], key);
      if Lookup(r[1..], key) != Null {
        var i :| 0 <= i < |r[1..]| && Lookup(r[1..], key) == r[1..][i].1;
        assert r[i + 1].1 == Lookup(r, key);
      }
    }
  }

  lemma FieldWithoutLineBreak(v: Value)
    requires v.Str? ==> '\n' !in v.s
    ensures '\n' !in FieldText(v)
  {
  }

  lemma RowWithoutLineBreak(headers: seq<string>, row: Record, data: seq<Record>)
    requires row in data && NoLineBreaks(data)
    ensures '\n' !in RowText(headers, row)
  {
    var fs := Fields(headers, row);
    forall k | 0 <= k < |fs| ensures '\n' !in fs[k] {
      LookupFrom(row, headers[k]);
      FieldWithoutLineBreak(Lookup(row, headers[k]));
    }
    JoinAvoids(fs, ',', '\n');
  }

  /** For N records without line breaks in their keys or values, the text has
      N + 1 lines: the header, the first record's keys joined by commas, then
      each record's line in order. */
  lemma {:induction false} CsvLines(data: seq<Record>)
    requires data != [] && NoLineBreaks(data)
    ensures var lines := Split(CsvText(data), '\n');
      && |lines| == |data| + 1
      && lines[0] == Join(Keys(data[0]), ',')
      && forall i :: 0 <= i < |data| ==> lines[i + 1] == RowText(Keys(data[0]), data[i])
  {
    var headers := Keys(data[0]);
    var all := [Join(headers, ',')] + Rows(headers, data);
    forall k | 0 <= k < |all| ensures '\n' !in all[k] {
      if k == 0 {
        JoinAvoids(headers, ',', '\n');
      } else {
        RowWithoutLineBreak(headers, data[k - 1], data);
      }
    }
    SplitJoin(all, '\n');
  }

  /** When no string value holds a comma, every line splits back into exactly one
      field per header, in the header's order. */
  lemma RowColumns(headers: seq<string>, row: Record)
    requires |headers| >= 1
    requires forall i :: 0 <= i < |row| && row[i].1.Str? ==> ',' !in row[i].1.s
    ensures Split(RowText(headers, row), ',') == Fields(headers, row)
    ensures forall k :: 0 <= k < |headers| ==>
      Split(RowText(headers, row), ',')[k] == FieldText(Lookup(row, headers[k]))
  {
    var fs := Fields(headers, row);
    forall k | 0 <= k < |fs| ensures ',' !in fs[k] {
      FieldNoComma(row, headers[k]);
    }
    SplitJoin(fs, ',');
  }

  /** A field printed from a row whose strings hold no comma holds no comma. */
  lemma FieldNoComma(row: Record, key: string)
    requires forall i :: 0 <= i < |row| && row[i].1.Str? ==> ',' !in row[i].1.s
    ensures ',' !in FieldText(Lookup(row, key))
  {
    var v := Lookup(row, key);
    LookupFrom(row, key);
    if v.Str? {
      QuoteRule(v.s);
    }
  }
}
