/** The comma-separated-values format shared by the GitHub storage service
    and the CSV file service: the quote-aware line parser, the quoting rule
    of the serialiser, the mapping of parsed values onto header names, and
    the line-level round trip between the two. */
module CsvCodec {
  import opened Text

  // ---------------------------------------------------------------------------
  // the line parser
  // ---------------------------------------------------------------------------

  /** The parser's state machine run over the rest `s` of a line: `current`
      is the field being read, `inQuotes` whether a quote is open and
      `values` the fields already closed. Inside quotes a doubled quote
      stands for one quote; any other quote toggles the quote state; a
      comma outside quotes closes the field; every other character
      (commas inside quotes included) is kept. */
  function Scan(s: string, current: string, inQuotes: bool, values: seq<string>): (r: seq<string>)
    ensures |r| >= |values| + 1 && r[..|values|] == values
    decreases |s|
  {
    if s == [] then values + [current]
    else if s[0] == '"' then
      if inQuotes && |s| > 1 && s[1] == '"' then Scan(s[2..], current + ['"'], inQuotes, values)
      else Scan(s[1..], current, !inQuotes, values)
    else if s[0] == ',' && !inQuotes then Scan(s[1..], "", inQuotes, values + [current])
    else Scan(s[1..], current + [s[0]], inQuotes, values)
  }

  /** The fields of one line, as the parser returns them. */
  function ParseLine(line: string): (r: seq<string>)
    ensures |r| >= 1
  {
    Scan(line, "", false, [])
  }

  /** The character loop of `parseCsvLine` (identical in both services):
      `i` walks the line, `current` collects a field, `inQuotes` tracks the
      quote state and `values` receives each closed field. */
  method ParseCsvLine(line: string) returns (values: seq<string>)
    ensures values == ParseLine(line)
  {
    values := [];
    var current := "";
    var inQuotes := false;
    var i := 0;
    while i < |line|
      invariant 0 <= i <= |line|
      invariant Scan(line[i..], current, inQuotes, values) == ParseLine(line)
      decreases |line| - i
    {
      var c := line[i];
      assert line[i..][1..] == line[i + 1..];
      if c == '"' {
        if inQuotes && i + 1 < |line| && line[i + 1] == '"' {
          assert line[i..][2..] == line[i + 2..];
          current := current + ['"'];
          i := i + 2;
        } else {
          inQuotes := !inQuotes;
          i := i + 1;
        }
      } else if c == ',' && !inQuotes {
        values := values + [current];
        current := "";
        i := i + 1;
      } else {
        current := current + [c];
        i := i + 1;
      }
    }
    values := values + [current];
  }

  /** The commas of `s` that the parser meets outside quotes, when it
      starts in quote state `inQuotes`. */
  function UnquotedCommas(s: string, inQuotes: bool): nat
    decreases |s|
  {
    if s == [] then 0
    else if s[0] == '"' then
      if inQuotes && |s| > 1 && s[1] == '"' then UnquotedCommas(s[2..], inQuotes)
      else UnquotedCommas(s[1..], !inQuotes)
    else if s[0] == ',' && !inQuotes then 1 + UnquotedCommas(s[1..], inQuotes)
    else UnquotedCommas(s[1..], inQuotes)
  }

  lemma {:induction false} ScanLength(s: string, current: string, inQuotes: bool, values: seq<string>)
    ensures |Scan(s, current, inQuotes, values)| == |values| + 1 + UnquotedCommas(s, inQuotes)
    decreases |s|
  {
    if s == [] {
    } else if s[0] == '"' {
      if inQuotes && |s| > 1 && s[1] == '"' {
        ScanLength(s[2..], current + ['"'], inQuotes, values);
      } else {
        ScanLength(s[1..], current, !inQuotes, values);
      }
    } else if s[0] == ',' && !inQuotes {
      ScanLength(s[1..], "", inQuotes, values + [current]);
    } else {
      ScanLength(s[1..], current + [s[0]], inQuotes, values);
    }
  }

  /** A line has one field more than it has commas outside quotes. */
  lemma {:induction false} FieldCount(line: string)
    ensures |ParseLine(line)| == UnquotedCommas(line, false) + 1
  {
    ScanLength(line, "", false, []);
  }

  lemma {:induction false} ScanWithoutQuotes(s: string, current: string, values: seq<string>)
    requires '"' !in s
    ensures var parts := Split(s, ',');
            Scan(s, current, false, values) == values + [current + parts[0]] + parts[1..]
    decreases |s|
  {
    if s == [] {
      assert current + "" == current;
    } else {
      var rest := Split(s[1..], ',');
      assert s[0] != '"';
      if s[0] == ',' {
        calc {
          Scan(s, current, false, values);
          Scan(s[1..], "", false, values + [current]);
          { ScanWithoutQuotes(s[1..], "", values + [current]); }
          values + [current] + ["" + rest[0]] + rest[1..];
          { assert "" + rest[0] == rest[0]; }
          (values + [current]) + ([rest[0]] + rest[1..]);
          { assert [rest[0]] + rest[1..] == rest; }
          values + [current] + rest;
        }
        assert Split(s, ',') == [""] + rest;
        assert current + "" == current;
      } else {
        calc {
          Scan(s, current, false, values);
          Scan(s[1..], current + [s[0]], false, values);
          { ScanWithoutQuotes(s[1..], current + [s[0]], values); }
          values + [current + [s[0]] + rest[0]] + rest[1..];
          { assert current + [s[0]] + rest[0] == current + ([s[0]] + rest[0]); }
          values + [current + ([s[0]] + rest[0])] + rest[1..];
        }
      }
    }
  }

  /** On a line without quotes the parser is a plain `split(',')`. */
  lemma {:induction false} ParseLineWithoutQuotes(line: string)
    requires '"' !in line
    ensures ParseLine(line) == Split(line, ',')
  {
    ScanWithoutQuotes(line, "", []);
    var parts := Split(line, ',');
    assert "" + parts[0] == parts[0];
    assert [] + [parts[0]] + parts[1..] == parts;
  }

  // ---------------------------------------------------------------------------
  // the serialiser's quoting rule
  // ---------------------------------------------------------------------------

  /** A value is quoted when it contains a comma, a quote or a newline. */
  predicate NeedsQuotes(s: string)
  {
    ',' in s || '"' in s || '\n' in s
  }

  /** `replace(/"/g, '""')`: every quote doubled. */
  function DoubleQuotes(s: string): (r: string)
    ensures |r| == |s| + Count(s, '"')
    ensures forall c :: c != '"' ==> (c in r <==> c in s)
  {
    if s == [] then ""
    else if s[0] == '"' then "\"\"" + DoubleQuotes(s[1..])
    else [s[0]] + DoubleQuotes(s[1..])
  }

  /** The text written for a string value. */
  function Escape(s: string): (r: string)
    ensures !NeedsQuotes(s) ==> r == s
    ensures NeedsQuotes(s) ==> |r| >= 2 && r[0] == '"' && r[|r| - 1] == '"'
    ensures '\n' in r <==> '\n' in s
  {
    if NeedsQuotes(s) then "\"" + DoubleQuotes(s) + "\"" else s
  }

  lemma {:induction false} ScanPlain(f: string, s: string, current: string, values: seq<string>)
    requires ',' !in f && '"' !in f
    ensures Scan(f + s, current, false, values) == Scan(s, current + f, false, values)
    decreases |f|
  {
    if f != [] {
      assert (f + s)[1..] == f[1..] + s;
      ScanPlain(f[1..], s, current + [f[0]], values);
      assert current + [f[0]] + f[1..] == current + f;
    } else {
      assert f + s == s;
      assert current + f == current;
    }
  }

  lemma {:induction false} ScanQuotedBody(f: string, s: string, current: string, values: seq<string>)
    requires s == [] || s[0] != '"'
    ensures Scan(DoubleQuotes(f) + "\"" + s, current, true, values) == Scan(s, current + f, false, values)
    decreases |f|
  {
    var w := DoubleQuotes(f) + "\"" + s;
    if f == [] {
      assert w == "\"" + s;
      assert w[1..] == s;
      assert current + f == current;
    } else if f[0] == '"' {
      assert w == "\"\"" + (DoubleQuotes(f[1..]) + "\"" + s);
      assert w[2..] == DoubleQuotes(f[1..]) + "\"" + s;
      ScanQuotedBody(f[1..], s, current + ['"'], values);
      assert current + ['"'] + f[1..] == current + f;
    } else {
      assert w == [f[0]] + (DoubleQuotes(f[1..]) + "\"" + s);
      assert w[1..] == DoubleQuotes(f[1..]) + "\"" + s;
      ScanQuotedBody(f[1..], s, current + [f[0]], values);
      assert current + [f[0]] + f[1..] == current + f;
    }
  }

  /** Reading an escaped value outside quotes yields the value itself, as
      long as the next character is not a quote. */
  lemma {:induction false} ScanEscaped(f: string, s: string, current: string, values: seq<string>)
    requires s == [] || s[0] != '"'
    ensures Scan(Escape(f) + s, current, false, values) == Scan(s, current + f, false, values)
  {
    if NeedsQuotes(f) {
      var w := Escape(f) + s;
      assert w == "\"" + (DoubleQuotes(f) + "\"" + s);
      assert w[1..] == DoubleQuotes(f) + "\"" + s;
      ScanQuotedBody(f, s, current, values);
    } else {
      ScanPlain(f, s, current, values);
    }
  }

  /** The escaped text of each value, in order (`headers.map(...)`). */
  function EscapeAll(fs: seq<string>): (r: seq<string>)
    ensures |r| == |fs|
    ensures forall j :: 0 <= j < |fs| ==> r[j] == Escape(fs[j])
  {
    if fs == [] then [] else [Escape(fs[0])] + EscapeAll(fs[1..])
  }

  /** One serialised row: the escaped values joined with commas. */
  function RowLine(fs: seq<string>): string
  {
    Join(EscapeAll(fs), ',')
  }

  lemma {:induction false} RowLineCons(fs: seq<string>)
    requires |fs| >= 2
    ensures RowLine(fs) == Escape(fs[0]) + ([','] + RowLine(fs[1..]))
  {
    var es := EscapeAll(fs);
    assert es[1..] == EscapeAll(fs[1..]);
  }

  lemma {:induction false} ScanComma(tail: string, f: string, values: seq<string>)
    ensures Scan([','] + tail, f, false, values) == Scan(tail, "", false, values + [f])
  {
    assert ([','] + tail)[1..] == tail;
  }

  lemma {:induction false} ScanRow(fs: seq<string>, values: seq<string>)
    requires |fs| >= 1
    ensures Scan(RowLine(fs), "", false, values) == values + fs
    decreases |fs|
  {
    assert "" + fs[0] == fs[0];
    if |fs| == 1 {
      assert RowLine(fs) == Escape(fs[0]) + "";
      ScanEscaped(fs[0], "", "", values);
    } else {
      var tail := RowLine(fs[1..]);
      RowLineCons(fs);
      ScanEscaped(fs[0], [','] + tail, "", values);
      ScanComma(tail, fs[0], values);
      ScanRow(fs[1..], values + [fs[0]]);
      assert values + [fs[0]] + fs[1..] == values + fs;
    }
  }

  /** Round trip: parsing a serialised row of string values gives back the
      values, in order, whatever characters they contain. */
  lemma {:induction false} RowRoundTrip(fs: seq<string>)
    requires |fs| >= 1
    ensures ParseLine(RowLine(fs)) == fs
  {
    ScanRow(fs, []);
  }

  /** A row of newline-free values is written on one line. */
  lemma {:induction false} RowLineOneLine(fs: seq<string>)
    requires forall j :: 0 <= j < |fs| ==> '\n' !in fs[j]
    ensures '\n' !in RowLine(fs)
  {
    JoinAvoids(EscapeAll(fs), ',', '\n');
  }

  // ---------------------------------------------------------------------------
  // objects
  // ---------------------------------------------------------------------------

  /** A property value of an object being written: absent (`undefined`,
      `null`), a string, an integer or a boolean. */
  datatype Cell = Absent | Str(s: string) | Num(n: int) | Bool(b: bool)

  /** The values `value || ''` replaces by the empty string. */
  predicate Falsy(c: Cell)
  {
    c.Absent? || c == Str("") || c == Num(0) || c == Bool(false)
  }

  /** The text a value contributes to its row: falsy values are empty,
      strings are escaped, other values are written as JavaScript prints
      them, unquoted. */
  function CellText(c: Cell): (r: string)
    ensures Falsy(c) ==> r == ""
    ensures c.Str? ==> r == Escape(c.s)
  {
    if Falsy(c) then ""
    else match c
      case Str(s) => Escape(s)
      case Num(n) => IntToString(n)
      case Bool(b) => if b then "true" else "false"
      case Absent => ""
  }

  type Object = map<string, Cell>

  /** `obj[header]`. */
  function Get(obj: Object, header: string): Cell
  {
    if header in obj then obj[header] else Absent
  }

  /** The row line written for one object. */
  function ObjectLine(obj: Object, headers: seq<string>): string
  {
    Join(seq(|headers|, j requires 0 <= j < |headers| => CellText(Get(obj, headers[j]))), ',')
  }

  /** Every header of the object holds a string. */
  predicate StringValued(obj: Object, headers: seq<string>)
  {
    forall j :: 0 <= j < |headers| ==> Get(obj, headers[j]).Str?
  }

  /** The strings an all-string object holds, in header order. */
  function Strings(obj: Object, headers: seq<string>): (r: seq<string>)
    requires StringValued(obj, headers)
    ensures |r| == |headers|
  {
    seq(|headers|, j requires 0 <= j < |headers| => Get(obj, headers[j]).s)
  }

  lemma {:induction false} ObjectLineIsRowLine(obj: Object, headers: seq<string>)
    requires StringValued(obj, headers)
    ensures ObjectLine(obj, headers) == RowLine(Strings(obj, headers))
  {
    var cells := seq(|headers|, j requires 0 <= j < |headers| => CellText(Get(obj, headers[j])));
    assert cells == EscapeAll(Strings(obj, headers));
  }

  /** Round trip for one object: the line written for an object whose
      header fields are all strings parses back to those strings in header
      order. */
  lemma {:induction false} ObjectRoundTrip(obj: Object, headers: seq<string>)
    requires |headers| >= 1
    requires StringValued(obj, headers)
    ensures ParseLine(ObjectLine(obj, headers)) == Strings(obj, headers)
  {
    ObjectLineIsRowLine(obj, headers);
    RowRoundTrip(Strings(obj, headers));
  }

  /** `values[index] || ''`. */
  function At(values: seq<string>, i: nat): string
  {
    if i < |values| then values[i] else ""
  }

  /** The object built by `headers.forEach((h, i) => obj[h] = values[i] || '')`:
      it has exactly the given headers, and a header takes the value at its
      last position (a later duplicate overwrites an earlier one). */
  function ToObject(headers: seq<string>, values: seq<string>): (r: map<string, string>)
    ensures forall h :: h in r <==> h in headers
  {
    if headers == [] then map[]
    else
      var n := |headers| - 1;
      assert forall h :: h in headers <==> h in headers[..n] || h == headers[n];
      ToObject(headers[..n], values)[headers[n] := At(values, n)]
  }

  lemma {:induction false} ToObjectAt(headers: seq<string>, values: seq<string>, i: nat)
    requires i < |headers| && headers[i] !in headers[i + 1..]
    ensures ToObject(headers, values)[headers[i]] == At(values, i)
    decreases |headers|
  {
    var n := |headers| - 1;
    if i < n {
      assert headers[n] in headers[i + 1..];
      assert headers[..n][i + 1..] == headers[i + 1..n];
      ToObjectAt(headers[..n], values, i);
    }
  }

  /** Headers without repetitions. */
  predicate Distinct(headers: seq<string>)
  {
    forall i, j :: 0 <= i < j < |headers| ==> headers[i] != headers[j]
  }

  /** The object an all-string object reads back as. */
  function ReadBack(obj: Object, headers: seq<string>): (r: map<string, string>)
    requires StringValued(obj, headers)
    ensures forall h :: h in r <==> h in headers
  {
    ToObject(headers, Strings(obj, headers))
  }

  /** With distinct headers, each header reads back the string it held. */
  lemma {:induction false} ReadBackAt(obj: Object, headers: seq<string>, j: nat)
    requires StringValued(obj, headers) && Distinct(headers)
    requires j < |headers|
    ensures ReadBack(obj, headers)[headers[j]] == Get(obj, headers[j]).s
  {
    ToObjectAt(headers, Strings(obj, headers), j);
  }

  /** `lines.map(...)`: one object per line, each with exactly the given
      headers. */
  function ObjectsOf(lines: seq<string>, headers: seq<string>): (r: seq<map<string, string>>)
    ensures |r| == |lines|
    ensures forall k :: 0 <= k < |r| ==> r[k] == ToObject(headers, ParseLine(lines[k]))
  {
    seq(|lines|, k requires 0 <= k < |lines| => ToObject(headers, ParseLine(lines[k])))
  }

  /** Every object holds a string under every header. */
  predicate AllStrings(objects: seq<Object>, headers: seq<string>)
  {
    forall k :: 0 <= k < |objects| ==> StringValued(objects[k], headers)
  }

  /** What an all-string sequence of objects reads back as: each object restricted to the
      headers, in order. */
  function ReadBackAll(objects: seq<Object>, headers: seq<string>): (r: seq<map<string, string>>)
    requires AllStrings(objects, headers)
    ensures |r| == |objects|
  {
    seq(|objects|, k requires 0 <= k < |objects| => ReadBack(objects[k], headers))
  }

  /** Plain header names: none needs quoting. */
  predicate PlainHeaders(headers: seq<string>)
  {
    forall j :: 0 <= j < |headers| ==> !NeedsQuotes(headers[j])
  }

  // ---------------------------------------------------------------------------
  // whole texts
  // ---------------------------------------------------------------------------

  /** The lines of a non-empty table: the header line, then one line per
      object, in order. */
  function TableLines(data: seq<Object>, headers: seq<string>): (r: seq<string>)
    ensures |r| == |data| + 1
    ensures r[0] == Join(headers, ',')
    ensures forall k :: 0 <= k < |data| ==> r[k + 1] == ObjectLine(data[k], headers)
  {
    [Join(headers, ',')] + seq(|data|, k requires 0 <= k < |data| => ObjectLine(data[k], headers))
  }

  /** The loop both serialisers run: push the header line onto `csvRows`,
      then the line of each object in turn. */
  method BuildRows(data: seq<Object>, headers: seq<string>) returns (csvRows: seq<string>)
    ensures csvRows == TableLines(data, headers)
  {
    csvRows := [Join(headers, ',')];
    var k := 0;
    while k < |data|
      invariant 0 <= k <= |data|
      invariant csvRows == TableLines(data[..k], headers)
    {
      csvRows := csvRows + [ObjectLine(data[k], headers)];
      k := k + 1;
      assert data[..k][..k - 1] == data[..k - 1];
    }
    assert data[..k] == data;
  }

  /** Every header and every string value is free of newlines. */
  predicate OneLineEach(data: seq<Object>, headers: seq<string>)
  {
    (forall j :: 0 <= j < |headers| ==> '\n' !in headers[j]) &&
    forall k, j :: 0 <= k < |data| && 0 <= j < |headers| ==> CellOneLine(Get(data[k], headers[j]))
  }

  predicate CellOneLine(c: Cell)
  {
    c.Str? ==> '\n' !in c.s
  }

  lemma {:induction false} CellTextOneLine(c: Cell)
    requires CellOneLine(c)
    ensures '\n' !in CellText(c)
  {
    if !Falsy(c) && c.Num? {
      var ds := NatToString(if c.n < 0 then -c.n else c.n);
      assert forall i :: 0 <= i < |ds| ==> ds[i] != '\n';
    }
  }

  /** With newline-free headers and values, every table line is one line,
      so splitting the joined table on newlines gives the lines back. */
  lemma {:induction false} TableSplits(data: seq<Object>, headers: seq<string>)
    requires OneLineEach(data, headers)
    ensures Split(Join(TableLines(data, headers), '\n'), '\n') == TableLines(data, headers)
  {
    var lines := TableLines(data, headers);
    JoinAvoids(headers, ',', '\n');
    forall k | 0 <= k < |data|
      ensures '\n' !in ObjectLine(data[k], headers)
    {
      var cells := seq(|headers|, j requires 0 <= j < |headers| => CellText(Get(data[k], headers[j])));
      forall j | 0 <= j < |headers|
        ensures '\n' !in cells[j]
      {
        CellTextOneLine(Get(data[k], headers[j]));
      }
      JoinAvoids(cells, ',', '\n');
    }
    assert forall i :: 0 <= i < |lines| ==> '\n' !in lines[i] by {
      forall i | 0 <= i < |lines|
        ensures '\n' !in lines[i]
      {
        if i > 0 {
          assert lines[(i - 1) + 1] == lines[i];
        }
      }
    }
    SplitJoin(lines, '\n');
  }

  /** A text that `trim` leaves as it is. */
  predicate Trimmed(s: string)
  {
    Trim(s) == s
  }

  lemma {:induction false} TrimmedStartsSolid(s: string)
    requires Trimmed(s) && s != ""
    ensures !IsSpace(s[0]) && !IsSpace(s[|s| - 1])
    ensures TrimStart(s) == s && TrimEnd(s) == s
  {
    var t := TrimStart(s);
    assert |TrimEnd(t)| <= |t| <= |s|;
  }

  /** Appending a newline to a trimmed, non-empty text changes nothing
      once the result is trimmed again. */
  lemma {:induction false} TrimDropsFinalNewline(s: string)
    requires Trimmed(s) && s != ""
    ensures Trim(s + "\n") == s
  {
    TrimmedStartsSolid(s);
    var w := s + "\n";
    assert w[0] == s[0];
    assert TrimStart(w) == w;
    assert w[..|w| - 1] == s;
  }
}
