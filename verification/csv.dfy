/**
 * The CSV import and export of the bookkeeping front end: a record is the list of
 * its properties in insertion order, `parseCSV` splits lines on `\n` and cells on
 * `,` with every double quote deleted, and `exportToCSV` writes the first record's
 * keys as the header line and every value between double quotes.
 */
module Csv {
  import opened Wrappers
  import opened Text

  // ---------------------------------------------------------------- records

  /** The values a record holds: a string, a whole number, or null/undefined. */
  datatype JsValue = Str(s: string) | Whole(n: int) | Missing

  /** One property of a record. */
  datatype Field = Field(key: string, value: JsValue)

  /** A plain object: its properties in the order `Object.keys` lists them. */
  type Record = seq<Field>

  /** `Object.keys(record)` */
  function Keys(r: Record): (keys: seq<string>)
    ensures |keys| == |r|
    ensures forall k :: 0 <= k < |r| ==> keys[k] == r[k].key
  {
    if r == [] then [] else [r[0].key] + Keys(r[1..])
  }

  /** `record[key]`, undefined when the record has no such property. */
  function Get(r: Record, key: string): JsValue
  {
    if r == [] then Missing else if r[0].key == key then r[0].value else Get(r[1..], key)
  }

  /** No key occurs twice, as in every JavaScript object. */
  predicate Distinct(keys: seq<string>) {
    forall i, j :: 0 <= i < j < |keys| ==> keys[i] != keys[j]
  }

  /** `record[key] = value`: an existing property keeps its place, a new one goes last. */
  function Put(r: Record, key: string, value: JsValue): (out: Record)
    ensures |r| <= |out| <= |r| + 1
  {
    if r == [] then [Field(key, value)]
    else if r[0].key == key then [Field(key, value)] + r[1..]
    else [r[0]] + Put(r[1..], key, value)
  }

  /** Reading after setting: the new value for the set key, the old one for every other key. */
  lemma GetAfterPut(r: Record, key: string, value: JsValue, other: string)
    ensures Get(Put(r, key, value), other) == if other == key then value else Get(r, other)
  {
    if other == key {
      PutGet(r, key, value);
    } else {
      PutKeepsOthers(r, key, value, other);
    }
  }

  /** Setting a property adds its key at the end unless the record already has it. */
  lemma {:induction false} PutKeys(r: Record, key: string, value: JsValue)
    ensures Keys(Put(r, key, value)) == if key in Keys(r) then Keys(r) else Keys(r) + [key]
  {
    if r != [] {
      assert Keys(r) == [r[0].key] + Keys(r[1..]);
      if r[0].key != key {
        PutKeys(r[1..], key, value);
        assert Keys(Put(r, key, value)) == [r[0].key] + Keys(Put(r[1..], key, value));
      }
    }
  }

  /** A property reads back as the value it was set to. */
  lemma {:induction false} PutGet(r: Record, key: string, value: JsValue)
    ensures Get(Put(r, key, value), key) == value
  {
    if r != [] && r[0].key != key {
      PutGet(r[1..], key, value);
    }
  }

  /** Setting one property leaves every other property's value alone. */
  lemma {:induction false} PutKeepsOthers(r: Record, key: string, value: JsValue, other: string)
    requires other != key
    ensures Get(Put(r, key, value), other) == Get(r, other)
  {
    if r != [] && r[0].key != key {
      PutKeepsOthers(r[1..], key, value, other);
    }
  }

  /** With distinct keys, looking up a record's own key finds that field's value. */
  lemma {:induction false} GetOwnKey(r: Record, k: nat)
    requires k < |r| && Distinct(Keys(r))
    ensures Get(r, r[k].key) == r[k].value
  {
    if k > 0 {
      assert Keys(r)[0] != Keys(r)[k];
      assert Distinct(Keys(r[1..])) by {
        assert forall i :: 0 <= i < |r| - 1 ==> Keys(r[1..])[i] == Keys(r)[i + 1];
      }
      GetOwnKey(r[1..], k - 1);
    }
  }

  // ----------------------------------------------------------------- export

  /** `${value || ''}`: the falsy values (empty string, 0, null, undefined) print as nothing. */
  function Cell(v: JsValue): string {
    match v
    case Str(s) => s
    case Whole(n) => if n == 0 then "" else IntToString(n)
    case Missing => ""
  }

  /** JavaScript's falsy values among the cell values. */
  predicate Falsy(v: JsValue) {
    v == Str("") || v == Whole(0) || v == Missing
  }

  /** `item[header] || ''`: a cell is empty exactly when its value is falsy. */
  lemma CellEmpty(v: JsValue)
    ensures Cell(v) == "" <==> Falsy(v)
  {
  }

  /** The cells of one data line: each header's value between double quotes. */
  function QuotedCells(headers: seq<string>, r: Record): (cells: seq<string>)
    ensures |cells| == |headers|
  {
    seq(|headers|, j requires 0 <= j < |headers| => "\"" + Cell(Get(r, headers[j])) + "\"")
  }

  /** The data lines, one per record. */
  function DataLines(headers: seq<string>, data: seq<Record>): (lines: seq<string>)
    ensures |lines| == |data|
  {
    seq(|data|, i requires 0 <= i < |data| => Join(QuotedCells(headers, data[i]), ','))
  }

  /** The lines of the file: the first record's keys, then one line per record. */
  function CsvLines(data: seq<Record>): (lines: seq<string>)
    requires data != []
    ensures |lines| == 1 + |data|
  {
    var headers := Keys(data[0]);
    [Join(headers, ',')] + DataLines(headers, data)
  }

  /** The CSV content `exportToCSV` builds; nothing when there is no data to export. */
  function ExportCsv(data: seq<Record>): (content: Option<string>)
    ensures content.None? <==> data == []
  {
    if data == [] then None else Some(Join(CsvLines(data), '\n'))
  }

  // ------------------------------------------------------------------ parse

  /** `s.replace(/"/g, '')` */
  function Unquote(s: string): string {
    if s == [] then [] else (if s[0] == '"' then [] else [s[0]]) + Unquote(s[1..])
  }

  /** A string without double quotes is left alone. */
  lemma {:induction false} UnquoteNoQuotes(s: string)
    requires '"' !in s
    ensures Unquote(s) == s
  {
    if s != [] {
      assert '"' !in s[1..] by { assert forall k :: 0 <= k < |s| - 1 ==> s[1..][k] == s[k + 1]; }
      UnquoteNoQuotes(s[1..]);
    }
  }

  /** What `parseCSV` makes of each cell and header: trimmed, then without double quotes. */
  function Clean(s: string): string {
    Unquote(Trim(s))
  }

  /** `lines.filter(line => line.trim())`: the lines that are not all whitespace. */
  function NonBlank(lines: seq<string>): (r: seq<string>)
    ensures |r| <= |lines|
  {
    if lines == [] then []
    else (if Trim(lines[0]) != "" then [lines[0]] else []) + NonBlank(lines[1..])
  }

  /** A line is kept exactly when it has content once trimmed. */
  lemma {:induction false} NonBlankMembers(lines: seq<string>, x: string)
    ensures x in NonBlank(lines) <==> x in lines && Trim(x) != ""
  {
    if lines != [] {
      NonBlankMembers(lines[1..], x);
      assert lines == [lines[0]] + lines[1..];
    }
  }

  /** `values[index] || ''`: a missing cell reads as the empty string. */
  function ValueAt(values: seq<string>, j: nat): string {
    if j < |values| then values[j] else ""
  }

  /** The row built from the first `n` headers: each lower-cased header gets its cell. */
  function BuildRow(headers: seq<string>, values: seq<string>, n: nat): Record
    requires n <= |headers|
  {
    if n == 0 then []
    else Put(BuildRow(headers, values, n - 1), Lower(headers[n - 1]), Str(ValueAt(values, n - 1)))
  }

  /** `xs.map(f)` */
  function MapAll<A, B>(f: A -> B, xs: seq<A>): (ys: seq<B>)
    ensures |ys| == |xs|
  {
    seq(|xs|, i requires 0 <= i < |xs| => f(xs[i]))
  }

  lemma MapAllAt<A, B>(f: A -> B, xs: seq<A>, i: nat)
    requires i < |xs|
    ensures MapAll(f, xs)[i] == f(xs[i])
  {
  }

  /** `line.split(',').map(v => v.trim().replace(/"/g, ''))` */
  function LineCells(line: string): seq<string> {
    MapAll(Clean, Split(line, ','))
  }

  /** One row per line of cells, in line order. */
  function BuildRows(headers: seq<string>, cells: seq<seq<string>>): (rows: seq<Record>)
    ensures |rows| == |cells|
  {
    seq(|cells|, i requires 0 <= i < |cells| => BuildRow(headers, cells[i], |headers|))
  }

  /** Row `i` comes from line `i`'s cells. */
  lemma BuildRowsAt(headers: seq<string>, cells: seq<seq<string>>, i: nat)
    requires i < |cells|
    ensures BuildRows(headers, cells)[i] == BuildRow(headers, cells[i], |headers|)
  {
  }

  /** The keys a row gets from the first `n` headers: each lower-cased header once, where it first appears. */
  function HeaderKeys(headers: seq<string>, n: nat): seq<string>
    requires n <= |headers|
  {
    if n == 0 then []
    else
      var keys := HeaderKeys(headers, n - 1);
      if Lower(headers[n - 1]) in keys then keys else keys + [Lower(headers[n - 1])]
  }

  /** A row's keys depend on the headers alone, not on the cells of its line. */
  lemma {:induction false} RowKeys(headers: seq<string>, values: seq<string>, n: nat)
    requires n <= |headers|
    ensures Keys(BuildRow(headers, values, n)) == HeaderKeys(headers, n)
  {
    if n > 0 {
      RowKeys(headers, values, n - 1);
      RowKeysStep(headers, values, n);
    }
  }

  /** The step of `RowKeys`: setting the next header's key extends the keys as the header keys do. */
  lemma RowKeysStep(headers: seq<string>, values: seq<string>, n: nat)
    requires 0 < n <= |headers|
    requires Keys(BuildRow(headers, values, n - 1)) == HeaderKeys(headers, n - 1)
    ensures Keys(BuildRow(headers, values, n)) == HeaderKeys(headers, n)
  {
    var before := BuildRow(headers, values, n - 1);
    PutKeys(before, Lower(headers[n - 1]), Str(ValueAt(values, n - 1)));
  }

  /** The header keys are exactly the lower-cased headers, each once. */
  lemma {:induction false} HeaderKeysExact(headers: seq<string>, n: nat)
    requires n <= |headers|
    ensures forall key :: key in HeaderKeys(headers, n) <==> exists j :: 0 <= j < n && key == Lower(headers[j])
    ensures Distinct(HeaderKeys(headers, n))
  {
    if n > 0 {
      HeaderKeysExact(headers, n - 1);
      forall key
        ensures key in HeaderKeys(headers, n) <==> exists j :: 0 <= j < n && key == Lower(headers[j])
      {
        if key == Lower(headers[n - 1]) {
          assert key in HeaderKeys(headers, n);
        } else if exists j :: 0 <= j < n && key == Lower(headers[j]) {
          var j :| 0 <= j < n && key == Lower(headers[j]);
          assert j < n - 1;
        }
      }
    }
  }

  /** Headers whose lower-cased forms are all different. */
  predicate DistinctHeaders(headers: seq<string>) {
    forall a, b :: 0 <= a < b < |headers| ==> Lower(headers[a]) != Lower(headers[b])
  }

  /** With distinct headers, each header's key holds its own cell, or '' when the line is short. */
  lemma {:induction false} RowValues(headers: seq<string>, values: seq<string>, n: nat, j: nat)
    requires j < n <= |headers|
    requires DistinctHeaders(headers)
    ensures Get(BuildRow(headers, values, n), Lower(headers[j])) == Str(ValueAt(values, j))
  {
    var before := BuildRow(headers, values, n - 1);
    var key, other := Lower(headers[n - 1]), Lower(headers[j]);
    assert BuildRow(headers, values, n) == Put(before, key, Str(ValueAt(values, n - 1)));
    if j < n - 1 {
      RowValues(headers, values, n - 1, j);
      assert other != key;
    }
    GetAfterPut(before, key, Str(ValueAt(values, n - 1)), other);
  }

  /** One field per header, in header order: each lower-cased header with its cell. */
  function HeaderFields(headers: seq<string>, values: seq<string>, n: nat): (r: Record)
    requires n <= |headers|
    ensures |r| == n
  {
    if n == 0 then []
    else HeaderFields(headers, values, n - 1) + [Field(Lower(headers[n - 1]), Str(ValueAt(values, n - 1)))]
  }

  lemma {:induction false} HeaderFieldsAt(headers: seq<string>, values: seq<string>, n: nat, j: nat)
    requires j < n <= |headers|
    ensures HeaderFields(headers, values, n)[j] == Field(Lower(headers[j]), Str(ValueAt(values, j)))
  {
    if j < n - 1 {
      HeaderFieldsAt(headers, values, n - 1, j);
    }
  }

  /** With distinct headers, every setting appends: the row is the header fields in order. */
  lemma {:induction false} RowFields(headers: seq<string>, values: seq<string>, n: nat)
    requires n <= |headers|
    requires DistinctHeaders(headers)
    ensures BuildRow(headers, values, n) == HeaderFields(headers, values, n)
  {
    if n > 0 {
      RowFields(headers, values, n - 1);
      NextKeyIsNew(headers, values, n - 1);
      RowFieldsStep(headers, values, n);
    }
  }

  /** The step of `RowFields`: a new key appends the next header's field. */
  lemma RowFieldsStep(headers: seq<string>, values: seq<string>, n: nat)
    requires 0 < n <= |headers|
    requires BuildRow(headers, values, n - 1) == HeaderFields(headers, values, n - 1)
    requires Lower(headers[n - 1]) !in Keys(BuildRow(headers, values, n - 1))
    ensures BuildRow(headers, values, n) == HeaderFields(headers, values, n)
  {
    var before := BuildRow(headers, values, n - 1);
    var field := Field(Lower(headers[n - 1]), Str(ValueAt(values, n - 1)));
    PutAppends(before, field.key, field.value);
  }

  /** With distinct headers, the next header's key is not yet in the row. */
  lemma NextKeyIsNew(headers: seq<string>, values: seq<string>, n: nat)
    requires n < |headers|
    requires DistinctHeaders(headers)
    ensures Lower(headers[n]) !in Keys(BuildRow(headers, values, n))
  {
    RowKeys(headers, values, n);
    HeaderKeysExact(headers, n);
    forall j | 0 <= j < n
      ensures Lower(headers[n]) != Lower(headers[j])
    {
    }
  }

  /** Setting a new property appends it. */
  lemma {:induction false} PutAppends(r: Record, key: string, value: JsValue)
    requires key !in Keys(r)
    ensures Put(r, key, value) == r + [Field(key, value)]
  {
    if r != [] {
      assert Keys(r) == [r[0].key] + Keys(r[1..]);
      assert Put(r, key, value) == [r[0]] + Put(r[1..], key, value);
      PutAppends(r[1..], key, value);
      assert [r[0]] + (r[1..] + [Field(key, value)]) == r + [Field(key, value)];
    }
  }

  /** Every parsed row has the same keys: the header keys. */
  lemma ParsedRowKeys(text: string, i: nat)
    requires ParseCsv(text).Success? && i < |ParseCsv(text).value|
    ensures var headers := LineCells(NonBlank(Split(text, '\n'))[0]);
      Keys(ParseCsv(text).value[i]) == HeaderKeys(headers, |headers|)
  {
    var lines := NonBlank(Split(text, '\n'));
    var headers := LineCells(lines[0]);
    var cells := MapAll(LineCells, lines[1..]);
    BuildRowsAt(headers, cells, i);
    RowKeys(headers, cells[i], |headers|);
  }

  /** The message `lines[0].split` throws when there is no line at all. */
  const NoLinesError: string := "Cannot read properties of undefined (reading 'split')"

  /** `parseCSV`: the header line names the properties, every later line is a row. */
  function ParseCsv(text: string): (r: Result<seq<Record>, string>)
    ensures r.Failure? ==> r.error == NoLinesError
  {
    var lines := NonBlank(Split(text, '\n'));
    if lines == [] then Failure(NoLinesError)
    else Success(BuildRows(LineCells(lines[0]), MapAll(LineCells, lines[1..])))
  }

  /** Parsing fails exactly when no line has content; otherwise every line but the header is a row. */
  lemma ParseCsvOutcome(text: string)
    ensures var r := ParseCsv(text);
      (r.Failure? <==> NonBlank(Split(text, '\n')) == [])
      && (r.Failure? ==> r.error == NoLinesError)
      && (r.Success? ==> |r.value| == |NonBlank(Split(text, '\n'))| - 1)
  {
  }

  /** The `headers.forEach` that fills one row. */
  method FillRow(headers: seq<string>, values: seq<string>) returns (row: Record)
    ensures row == BuildRow(headers, values, |headers|)
  {
    row := [];
    for index := 0 to |headers|
      invariant row == BuildRow(headers, values, index)
    {
      row := Put(row, Lower(headers[index]), Str(if index < |values| then values[index] else ""));
    }
  }

  /** The `onload` body of `parseCSV`: the header line, then a loop pushing one row per later line. */
  method ParseCsvText(text: string) returns (r: Result<seq<Record>, string>)
    ensures r == ParseCsv(text)
  {
    var lines := NonBlank(Split(text, '\n'));
    if |lines| == 0 {
      return Failure(NoLinesError);
    }
    var headers := LineCells(lines[0]);
    var data := ParseDataLines(headers, lines[1..]);
    r := Success(data);
  }

  /** The loop of `parseCSV` over the lines after the header line. */
  method ParseDataLines(headers: seq<string>, lines: seq<string>) returns (data: seq<Record>)
    ensures data == BuildRows(headers, MapAll(LineCells, lines))
  {
    data := [];
    for i := 0 to |lines|
      invariant |data| == i
      invariant forall k :: 0 <= k < i ==> data[k] == BuildRow(headers, LineCells(lines[k]), |headers|)
    {
      var values := LineCells(lines[i]);
      var row := FillRow(headers, values);
      data := data + [row];
    }
    ParsedLines(headers, lines, data);
  }

  /** Rows built one per line, in line order, are the rows `BuildRows` describes. */
  lemma ParsedLines(headers: seq<string>, lines: seq<string>, data: seq<Record>)
    requires |data| == |lines|
    requires forall k :: 0 <= k < |lines| ==> data[k] == BuildRow(headers, LineCells(lines[k]), |headers|)
    ensures data == BuildRows(headers, MapAll(LineCells, lines))
  {
    var cells := MapAll(LineCells, lines);
    forall k | 0 <= k < |lines|
      ensures BuildRow(headers, cells[k], |headers|) == data[k]
    {
      MapAllAt(LineCells, lines, k);
    }
    BuildRowsOf(headers, cells, data);
  }


  // ----------------------------------------------------------------- round trip

  /** A key that comes back from an export and an import as it was. */
  predicate PlainKey(key: string) {
    key != [] && IsLowerCased(key) && !IsSpace(key[0]) && !IsSpace(key[|key| - 1])
    && ',' !in key && '"' !in key && '\n' !in key
  }

  /** A value that comes back: a string without commas, double quotes or line breaks. */
  predicate PlainValue(v: JsValue) {
    v.Str? && ',' !in v.s && '"' !in v.s && '\n' !in v.s
  }

  /** Records with the first record's keys, in its order, all plain, holding plain values. */
  predicate Exportable(data: seq<Record>) {
    data != [] && |data[0]| >= 1 && Distinct(Keys(data[0]))
    && (forall k :: 0 <= k < |data[0]| ==> PlainKey(data[0][k].key))
    && (forall i :: 0 <= i < |data| ==> Keys(data[i]) == Keys(data[0]))
    && (forall i, j :: 0 <= i < |data| && 0 <= j < |data[i]| ==> PlainValue(data[i][j].value))
  }

  lemma {:induction false} UnquoteConcat(a: string, b: string)
    ensures Unquote(a + b) == Unquote(a) + Unquote(b)
  {
    if a == [] {
      assert a + b == b;
    } else {
      assert (a + b)[1..] == a[1..] + b;
      UnquoteConcat(a[1..], b);
    }
  }

  /** A cell the export wrapped in double quotes loses them again. */
  lemma CleanQuoted(v: string)
    requires '"' !in v
    ensures Clean("\"" + v + "\"") == v
  {
    var quote := "\"";
    assert Unquote(quote) == [] by {
      assert quote[1..] == [];
    }
    TrimUnchanged(quote + v + quote);
    calc {
      Clean(quote + v + quote);
      Unquote(quote + v + quote);
      { UnquoteConcat(quote + v, quote); }
      Unquote(quote + v) + Unquote(quote);
      { UnquoteConcat(quote, v); }
      Unquote(quote) + Unquote(v) + Unquote(quote);
      { UnquoteNoQuotes(v); }
      v;
    }
  }

  lemma CleanPlainKey(key: string)
    requires PlainKey(key)
    ensures Clean(key) == key
  {
    TrimUnchanged(key);
    UnquoteNoQuotes(key);
  }

  lemma CleanAllFixed(parts: seq<string>)
    requires forall k :: 0 <= k < |parts| ==> Clean(parts[k]) == parts[k]
    ensures MapAll(Clean, parts) == parts
  {
    forall k | 0 <= k < |parts|
      ensures MapAll(Clean, parts)[k] == parts[k]
    {
      MapAllAt(Clean, parts, k);
    }
  }

  /** Lines that all have a non-blank character are all kept. */
  lemma {:induction false} NonBlankAll(lines: seq<string>)
    requires forall k :: 0 <= k < |lines| ==> Trim(lines[k]) != ""
    ensures NonBlank(lines) == lines
  {
    if lines != [] {
      var rest := lines[1..];
      forall k | 0 <= k < |rest|
        ensures Trim(rest[k]) != ""
      {
        assert rest[k] == lines[k + 1];
      }
      NonBlankAll(rest);
      NonBlankKeeps(lines);
    }
  }

  /** A line with content is kept in front of the rest. */
  lemma NonBlankKeeps(lines: seq<string>)
    requires lines != [] && Trim(lines[0]) != ""
    ensures NonBlank(lines) == [lines[0]] + NonBlank(lines[1..])
  {
  }

  lemma NotBlank(line: string)
    requires line != [] && !IsSpace(line[0])
    ensures Trim(line) != ""
  {
    TrimEmpty(line);
  }

  lemma QuotedFree(v: string, c: char)
    requires c != '"' && c !in v
    ensures c !in "\"" + v + "\""
  {
  }

  /** In exportable data, the cell under the `j`-th header is the row's `j`-th value, quoted. */
  lemma ExportedCells(data: seq<Record>, i: nat)
    requires Exportable(data) && i < |data|
    ensures |QuotedCells(Keys(data[0]), data[i])| == |data[i]|
    ensures forall j :: 0 <= j < |data[i]| ==>
      QuotedCells(Keys(data[0]), data[i])[j] == "\"" + data[i][j].value.s + "\""
  {
    var headers := Keys(data[0]);
    assert Keys(data[i]) == headers;
    forall j | 0 <= j < |data[i]|
      ensures Get(data[i], headers[j]) == data[i][j].value
    {
      assert headers[j] == data[i][j].key;
      GetOwnKey(data[i], j);
    }
  }

  /** The cells of an exported data line hold no comma and no line break; the first opens with a quote. */
  lemma QuotedCellsPlain(data: seq<Record>, i: nat)
    requires Exportable(data) && i < |data|
    ensures var cells := QuotedCells(Keys(data[0]), data[i]);
      |cells| == |data[i]| >= 1 && cells[0] != [] && cells[0][0] == '"'
      && forall k :: 0 <= k < |cells| ==> ',' !in cells[k] && '\n' !in cells[k]
  {
    var cells := QuotedCells(Keys(data[0]), data[i]);
    ExportedCells(data, i);
    assert |Keys(data[i])| == |Keys(data[0])|;
    forall k | 0 <= k < |cells|
      ensures ',' !in cells[k] && '\n' !in cells[k]
    {
      assert PlainValue(data[i][k].value);
      QuotedFree(data[i][k].value.s, ',');
      QuotedFree(data[i][k].value.s, '\n');
    }
  }

  /** An exported data line is one line and opens with a quote. */
  lemma DataLineShape(data: seq<Record>, i: nat)
    requires Exportable(data) && i < |data|
    ensures var line := DataLines(Keys(data[0]), data)[i];
      '\n' !in line && line != [] && line[0] == '"'
  {
    var cells := QuotedCells(Keys(data[0]), data[i]);
    var line := DataLines(Keys(data[0]), data)[i];
    assert line == Join(cells, ',');
    QuotedCellsPlain(data, i);
    JoinFree(cells, ',', '\n');
    JoinHead(cells, ',');
    assert line[0] == line[..|cells[0]|][0];
  }

  /** The cells of an exported data line parse back to the row's values. */
  lemma DataLineCells(data: seq<Record>, i: nat)
    requires Exportable(data) && i < |data|
    ensures var line := DataLines(Keys(data[0]), data)[i];
      |LineCells(line)| == |data[i]|
      && forall j :: 0 <= j < |data[i]| ==> LineCells(line)[j] == data[i][j].value.s
  {
    var cells := QuotedCells(Keys(data[0]), data[i]);
    var line := DataLines(Keys(data[0]), data)[i];
    assert line == Join(cells, ',');
    QuotedCellsPlain(data, i);
    ExportedCells(data, i);
    SplitJoin(cells, ',');
    forall j | 0 <= j < |data[i]|
      ensures LineCells(line)[j] == data[i][j].value.s
    {
      MapAllAt(Clean, cells, j);
      CleanQuoted(data[i][j].value.s);
    }
  }

  /** The exported header line is one line and opens with the first key. */
  lemma HeaderLineShape(data: seq<Record>)
    requires Exportable(data)
    ensures var line := Join(Keys(data[0]), ',');
      '\n' !in line && line != [] && !IsSpace(line[0])
  {
    var keys := Keys(data[0]);
    assert forall k :: 0 <= k < |keys| ==> PlainKey(keys[k]);
    JoinFree(keys, ',', '\n');
    JoinHead(keys, ',');
    assert Join(keys, ',')[0] == Join(keys, ',')[..|keys[0]|][0];
  }

  /** The exported header line parses back to the keys. */
  lemma HeaderLineCells(data: seq<Record>)
    requires Exportable(data)
    ensures LineCells(Join(Keys(data[0]), ',')) == Keys(data[0])
  {
    var keys := Keys(data[0]);
    assert forall k :: 0 <= k < |keys| ==> PlainKey(keys[k]);
    SplitJoin(keys, ',');
    forall k | 0 <= k < |keys|
      ensures Clean(keys[k]) == keys[k]
    {
      CleanPlainKey(keys[k]);
    }
    CleanAllFixed(keys);
  }

  /** Each exported line is a single line opening with a character that is not whitespace. */
  lemma ExportedLine(data: seq<Record>, k: nat)
    requires Exportable(data) && k < |CsvLines(data)|
    ensures var line := CsvLines(data)[k];
      '\n' !in line && line != [] && !IsSpace(line[0])
  {
    var lines := CsvLines(data);
    if k == 0 {
      HeaderLineShape(data);
    } else {
      assert lines[k] == DataLines(Keys(data[0]), data)[k - 1];
      DataLineShape(data, k - 1);
    }
  }

  /** Splitting the exported text at line breaks and dropping blank lines gives the exported lines. */
  lemma ExportedLines(data: seq<Record>)
    requires Exportable(data)
    ensures NonBlank(Split(Join(CsvLines(data), '\n'), '\n')) == CsvLines(data)
  {
    var lines := CsvLines(data);
    forall k | 0 <= k < |lines|
      ensures '\n' !in lines[k] && Trim(lines[k]) != ""
    {
      ExportedLine(data, k);
      NotBlank(lines[k]);
    }
    SplitJoin(lines, '\n');
    assert Split(Join(lines, '\n'), '\n') == lines;
    NonBlankAll(lines);
  }

  /** Plain keys are already lower-cased, so distinct keys make distinct headers. */
  lemma PlainKeysDistinct(data: seq<Record>)
    requires Exportable(data)
    ensures DistinctHeaders(Keys(data[0]))
  {
    var headers := Keys(data[0]);
    forall a, b | 0 <= a < b < |headers|
      ensures Lower(headers[a]) != Lower(headers[b])
    {
      assert PlainKey(headers[a]) && PlainKey(headers[b]);
      LowerOfLowerCased(headers[a]);
      LowerOfLowerCased(headers[b]);
    }
  }

  /** The `j`-th field of an exported row: the `j`-th key, with a string value. */
  lemma ExportedField(data: seq<Record>, i: nat, j: nat)
    requires Exportable(data) && i < |data| && j < |data[i]|
    ensures j < |data[0]| && PlainKey(data[0][j].key)
    ensures data[i][j] == Field(data[0][j].key, Str(data[i][j].value.s))
  {
    assert Keys(data[i]) == Keys(data[0]);
    assert Keys(data[i])[j] == data[i][j].key;
    assert PlainValue(data[i][j].value);
  }

  lemma SameRecord(a: Record, b: Record)
    requires |a| == |b| && forall j :: 0 <= j < |a| ==> a[j] == b[j]
    ensures a == b
  {
  }

  /** The row parsed from an exported data line is the row that was exported. */
  lemma ParsedRow(data: seq<Record>, i: nat)
    requires Exportable(data) && i < |data|
    ensures BuildRow(Keys(data[0]), LineCells(CsvLines(data)[i + 1]), |Keys(data[0])|) == data[i]
  {
    var headers := Keys(data[0]);
    assert CsvLines(data)[i + 1] == DataLines(headers, data)[i];
    var values := LineCells(DataLines(headers, data)[i]);
    var fields := HeaderFields(headers, values, |headers|);
    DataLineCells(data, i);
    PlainKeysDistinct(data);
    RowFields(headers, values, |headers|);
    assert |Keys(data[i])| == |headers|;
    forall j | 0 <= j < |headers|
      ensures fields[j] == data[i][j]
    {
      HeaderFieldsAt(headers, values, |headers|, j);
      ExportedField(data, i, j);
      LowerOfLowerCased(headers[j]);
    }
    SameRecord(fields, data[i]);
  }

  lemma BuildRowsOf(headers: seq<string>, cells: seq<seq<string>>, rows: seq<Record>)
    requires |cells| == |rows|
    requires forall i :: 0 <= i < |rows| ==> BuildRow(headers, cells[i], |headers|) == rows[i]
    ensures BuildRows(headers, cells) == rows
  {
    forall i | 0 <= i < |rows|
      ensures BuildRows(headers, cells)[i] == rows[i]
    {
      BuildRowsAt(headers, cells, i);
    }
  }

  /** The data lines of an export parse back to the records. */
  lemma ExportedRows(data: seq<Record>)
    requires Exportable(data)
    ensures BuildRows(Keys(data[0]), MapAll(LineCells, CsvLines(data)[1..])) == data
  {
    var headers := Keys(data[0]);
    var lines := CsvLines(data)[1..];
    var cells := MapAll(LineCells, lines);
    forall i | 0 <= i < |data|
      ensures BuildRow(headers, cells[i], |headers|) == data[i]
    {
      MapAllAt(LineCells, lines, i);
      ParsedRow(data, i);
    }
    BuildRowsOf(headers, cells, data);
  }

  /**
   * Importing an export gives back the records, when every record has the first record's
   * keys and the keys and values are plain.
   */
  lemma ExportThenParse(data: seq<Record>)
    requires Exportable(data)
    ensures ExportCsv(data).Some? && ParseCsv(ExportCsv(data).value) == Success(data)
  {
    var lines := CsvLines(data);
    var text := Join(lines, '\n');
    assert ExportCsv(data) == Some(text);
    ExportedLines(data);
    HeaderLineCells(data);
    assert LineCells(lines[0]) == Keys(data[0]);
    ExportedRows(data);
  }
}
