/** The CSV helpers of the GitHub storage service: the configuration test,
    the serialiser (an empty array writes nothing at all) and the reader
    (always drops the first line), together with their round trip. */
module GitHubCsv {
  import opened Wrappers
  import opened Text
  import opened CsvCodec

  /** The stored configuration; a field the stored object lacks is the
      empty string. */
  datatype Config = Config(token: string, owner: string, repo: string)

  /** `isConfigured`: a configuration is stored and its token, owner and
      repository are all non-empty. */
  function IsConfigured(config: Option<Config>): (r: bool)
    ensures r <==> config.Some? && config.value.token != "" && config.value.owner != "" && config.value.repo != ""
  {
    match config
    case None => false
    case Some(c) => c.token != "" && c.owner != "" && c.repo != ""
  }

  /** The text `arrayToCsv` produces. */
  function Written(objects: seq<Object>, headers: seq<string>): string
  {
    if objects == [] then "" else Join(TableLines(objects, headers), '\n')
  }

  /** `arrayToCsv`: nothing for an empty array; otherwise the header line
      and one line per object, joined with newlines. */
  method ArrayToCsv(objects: seq<Object>, headers: seq<string>) returns (csv: string)
    ensures objects == [] ==> csv == ""
    ensures objects != [] ==> csv == Join(TableLines(objects, headers), '\n')
    ensures csv == Written(objects, headers)
  {
    if |objects| == 0 {
      return "";
    }
    var csvRows := BuildRows(objects, headers);
    csv := Join(csvRows, '\n');
  }

  /** `csvToArray`: nothing for blank text or a single line; otherwise the
      first line is dropped whatever it holds and every other line becomes
      an object with exactly the given headers. */
  function CsvToArray(csv: string, headers: seq<string>): (r: seq<map<string, string>>)
    ensures IsBlank(csv) ==> r == []
    ensures !IsBlank(csv) ==> |r| == |Split(Trim(csv), '\n')| - 1
    ensures forall k :: 0 <= k < |r| ==> forall h :: h in r[k] <==> h in headers
  {
    if IsBlank(csv) then []
    else
      var lines := Split(Trim(csv), '\n');
      if |lines| <= 1 then [] else ObjectsOf(lines[1..], headers)
  }

  lemma {:induction false} TableTextSolid(objects: seq<Object>, headers: seq<string>)
    requires objects != []
    ensures Written(objects, headers) != ""
  {
    var lines := TableLines(objects, headers);
    var text := Written(objects, headers);
    assert text == lines[0] + ['\n'] + Join(lines[1..], '\n');
    assert text != "";
  }

  /** Round trip: an array of objects whose header fields are newline-free
      strings reads back as those objects, when the written text has no
      white space at either end for `trim` to remove. */
  lemma {:induction false} CsvRoundTrip(objects: seq<Object>, headers: seq<string>)
    requires objects != [] && |headers| >= 1
    requires AllStrings(objects, headers) && OneLineEach(objects, headers)
    requires Trimmed(Written(objects, headers))
    ensures CsvToArray(Written(objects, headers), headers) == ReadBackAll(objects, headers)
  {
    var lines := TableLines(objects, headers);
    TableTextSolid(objects, headers);
    TableSplits(objects, headers);
    var r := CsvToArray(Written(objects, headers), headers);
    forall k | 0 <= k < |objects|
      ensures r[k] == ReadBack(objects[k], headers)
    {
      ObjectRoundTrip(objects[k], headers);
    }
  }

  // ---------------------------------------------------------------------------
  // a value holding a newline
  // ---------------------------------------------------------------------------

  lemma {:induction false} NoteLine()
    ensures ObjectLine(map["note" := Str("a\nb")], ["note"]) == "\"a\nb\""
  {
    var obj := map["note" := Str("a\nb")];
    var headers := ["note"];
    assert NeedsQuotes("a\nb");
    assert DoubleQuotes("a\nb") == "a\nb" by {
      assert DoubleQuotes("b") == "b";
      assert "a\nb"[1..] == "\nb" && "\nb"[1..] == "b";
      assert DoubleQuotes("\nb") == "\nb";
    }
    var cells := seq(|headers|, j requires 0 <= j < |headers| => CellText(Get(obj, headers[j])));
    assert Get(obj, "note") == Str("a\nb");
    assert Escape("a\nb") == "\"a\nb\"";
    assert cells[0] == CellText(Str("a\nb")) == "\"a\nb\"";
    assert cells == ["\"a\nb\""];
  }

  lemma {:induction false} NoteWritten()
    ensures Written([map["note" := Str("a\nb")]], ["note"]) == "note\n\"a\nb\""
  {
    var quoted := "\"a\nb\"";
    NoteLine();
    assert TableLines([map["note" := Str("a\nb")]], ["note"]) == ["note", quoted];
    assert ["note", quoted][1..] == [quoted];
    assert Join(["note", quoted], '\n') == "note" + ['\n'] + Join([quoted], '\n');
  }

  /** A value holding a newline is quoted by the serialiser, but the reader
      splits the text on every newline before looking at quotes: one object
      comes back as two. */
  lemma {:induction false} NewlineValueSplitsObject()
    ensures var obj := map["note" := Str("a\nb")];
            |CsvToArray(Written([obj], ["note"]), ["note"])| == 2
  {
    NoteWritten();
    NoteTextTrimmed();
    NoteTextSplits();
  }

  /** The written text has no white space at either end. */
  lemma {:induction false} NoteTextTrimmed()
    ensures Trim("note\n\"a\nb\"") == "note\n\"a\nb\""
  {
    var text := "note\n\"a\nb\"";
    assert text[0] == 'n' && text[|text| - 1] == '"';
    TrimSolid(text);
  }

  /** The written text splits into three lines at its two newlines. */
  lemma {:induction false} NoteTextSplits()
    ensures Split("note\n\"a\nb\"", '\n') == ["note", "\"a", "b\""]
  {
    var lines := ["note", "\"a", "b\""];
    SplitJoin(lines, '\n');
    assert Join(lines, '\n') == "note\n\"a\nb\"" by {
      assert lines[1..] == ["\"a", "b\""];
      assert lines[1..][1..] == ["b\""];
    }
  }

  /** The record splitter the serialiser needs: a newline ends a record
      only outside quotes. Quotes toggle the state one by one (a doubled
      quote toggles it twice) and stay in the record text for the line
      parser. */
  function Records(s: string, current: string, inQuotes: bool, acc: seq<string>): (r: seq<string>)
    ensures |r| >= |acc| + 1
    decreases |s|
  {
    if s == [] then acc + [current]
    else if s[0] == '\n' && !inQuotes then Records(s[1..], "", inQuotes, acc + [current])
    else Records(s[1..], current + [s[0]], if s[0] == '"' then !inQuotes else inQuotes, acc)
  }

  function SplitRecords(s: string): (r: seq<string>)
    ensures |r| >= 1
  {
    Records(s, "", false, [])
  }

  lemma {:induction false} RecordsWithoutQuotes(s: string, current: string, acc: seq<string>)
    requires '"' !in s
    ensures var parts := Split(s, '\n');
            Records(s, current, false, acc) == acc + [current + parts[0]] + parts[1..]
    decreases |s|
  {
    if s == [] {
      assert current + "" == current;
    } else {
      var rest := Split(s[1..], '\n');
      if s[0] == '\n' {
        RecordsWithoutQuotes(s[1..], "", acc + [current]);
        assert Split(s, '\n') == [""] + rest;
        assert "" + rest[0] == rest[0];
        assert current + "" == current;
        assert [rest[0]] + rest[1..] == rest;
        assert acc + [current] + [rest[0]] + rest[1..] == acc + [current + ""] + rest;
      } else {
        RecordsWithoutQuotes(s[1..], current + [s[0]], acc);
        assert Split(s, '\n') == [[s[0]] + rest[0]] + rest[1..];
        assert current + [s[0]] + rest[0] == current + ([s[0]] + rest[0]);
      }
    }
  }

  /** Without quotes the record splitter is the plain newline split. */
  lemma {:induction false} SplitRecordsWithoutQuotes(s: string)
    requires '"' !in s
    ensures SplitRecords(s) == Split(s, '\n')
  {
    RecordsWithoutQuotes(s, "", []);
    var parts := Split(s, '\n');
    assert "" + parts[0] == parts[0];
    assert [] + [parts[0]] + parts[1..] == parts;
  }

  lemma {:induction false} RecordsPlain(f: string, s: string, current: string, acc: seq<string>)
    requires '"' !in f && '\n' !in f
    ensures Records(f + s, current, false, acc) == Records(s, current + f, false, acc)
    decreases |f|
  {
    if f == [] {
      assert f + s == s;
      assert current + f == current;
    } else {
      assert (f + s)[1..] == f[1..] + s;
      RecordsPlain(f[1..], s, current + [f[0]], acc);
      assert current + [f[0]] + f[1..] == current + f;
    }
  }

  lemma {:induction false} RecordsQuotedBody(f: string, s: string, current: string, acc: seq<string>)
    ensures Records(DoubleQuotes(f) + s, current, true, acc) == Records(s, current + DoubleQuotes(f), true, acc)
    decreases |f|
  {
    var w := DoubleQuotes(f) + s;
    if f == [] {
      assert w == s;
      assert current + DoubleQuotes(f) == current;
    } else if f[0] == '"' {
      var rest := DoubleQuotes(f[1..]);
      assert w == "\"\"" + (rest + s);
      assert w[1..] == "\"" + (rest + s);
      assert w[1..][1..] == rest + s;
      RecordsQuotedBody(f[1..], s, current + "\"\"", acc);
      assert current + ['"'] + ['"'] == current + "\"\"";
      assert current + "\"\"" + rest == current + DoubleQuotes(f);
    } else {
      var rest := DoubleQuotes(f[1..]);
      assert w == [f[0]] + (rest + s);
      assert w[1..] == rest + s;
      RecordsQuotedBody(f[1..], s, current + [f[0]], acc);
      assert current + [f[0]] + rest == current + DoubleQuotes(f);
    }
  }

  /** An escaped value passes through the record splitter whole, and the
      quote state is closed again after it. */
  lemma {:induction false} RecordsEscaped(f: string, s: string, current: string, acc: seq<string>)
    ensures Records(Escape(f) + s, current, false, acc) == Records(s, current + Escape(f), false, acc)
  {
    if NeedsQuotes(f) {
      var body := DoubleQuotes(f);
      var w := Escape(f) + s;
      assert w == "\"" + (body + ("\"" + s));
      assert w[1..] == body + ("\"" + s);
      RecordsQuotedBody(f, "\"" + s, current + "\"", acc);
      assert ("\"" + s)[1..] == s;
      assert current + "\"" + body + "\"" == current + Escape(f);
    } else {
      RecordsPlain(f, s, current, acc);
    }
  }

  lemma {:induction false} RecordsComma(s: string, current: string, acc: seq<string>)
    ensures Records([','] + s, current, false, acc) == Records(s, current + [','], false, acc)
  {
    assert ([','] + s)[1..] == s;
  }

  /** A serialised row passes through the record splitter whole. */
  lemma {:induction false} RecordsRow(fs: seq<string>, s: string, current: string, acc: seq<string>)
    requires |fs| >= 1
    ensures Records(RowLine(fs) + s, current, false, acc) == Records(s, current + RowLine(fs), false, acc)
    decreases |fs|
  {
    if |fs| == 1 {
      assert RowLine(fs) == Escape(fs[0]) + "";
      assert RowLine(fs) + s == Escape(fs[0]) + s;
      RecordsEscaped(fs[0], s, current, acc);
    } else {
      var tail := RowLine(fs[1..]);
      RowLineCons(fs);
      assert RowLine(fs) + s == Escape(fs[0]) + ([','] + (tail + s));
      RecordsEscaped(fs[0], [','] + (tail + s), current, acc);
      RecordsComma(tail + s, current + Escape(fs[0]), acc);
      RecordsRow(fs[1..], s, current + Escape(fs[0]) + [','], acc);
      assert current + Escape(fs[0]) + [','] + tail == current + RowLine(fs);
    }
  }

  /** The lines of a sequence of rows. */
  function RowLines(rows: seq<seq<string>>): (r: seq<string>)
    ensures |r| == |rows|
    ensures forall k :: 0 <= k < |rows| ==> r[k] == RowLine(rows[k])
  {
    if rows == [] then [] else [RowLine(rows[0])] + RowLines(rows[1..])
  }

  lemma {:induction false} RowLinesCons(rows: seq<seq<string>>)
    requires |rows| >= 2
    ensures Join(RowLines(rows), '\n') == RowLine(rows[0]) + (['\n'] + Join(RowLines(rows[1..]), '\n'))
    ensures RowLines(rows) == [RowLine(rows[0])] + RowLines(rows[1..])
  {
    assert RowLines(rows)[1..] == RowLines(rows[1..]);
  }

  lemma {:induction false} RecordsNewline(s: string, current: string, acc: seq<string>)
    ensures Records(['\n'] + s, current, false, acc) == Records(s, "", false, acc + [current])
  {
    assert (['\n'] + s)[1..] == s;
  }

  lemma {:induction false} RecordsOfRows(rows: seq<seq<string>>, acc: seq<string>)
    requires |rows| >= 1
    requires forall k :: 0 <= k < |rows| ==> |rows[k]| >= 1
    ensures Records(Join(RowLines(rows), '\n'), "", false, acc) == acc + RowLines(rows)
    decreases |rows|
  {
    var lines := RowLines(rows);
    var first := RowLine(rows[0]);
    assert "" + first == first;
    if |rows| == 1 {
      RecordsRow(rows[0], "", "", acc);
      assert first + "" == first;
    } else {
      var tail := Join(RowLines(rows[1..]), '\n');
      RowLinesCons(rows);
      RecordsRow(rows[0], ['\n'] + tail, "", acc);
      RecordsNewline(tail, first, acc);
      RecordsOfRows(rows[1..], acc + [first]);
      assert acc + [first] + RowLines(rows[1..]) == acc + lines;
    }
  }

  lemma {:induction false} TableIsRows(objects: seq<Object>, headers: seq<string>)
    requires AllStrings(objects, headers) && PlainHeaders(headers)
    ensures TableLines(objects, headers) == RowLines([headers] + seq(|objects|, k requires 0 <= k < |objects| => Strings(objects[k], headers)))
  {
    var rows := [headers] + seq(|objects|, k requires 0 <= k < |objects| => Strings(objects[k], headers));
    assert EscapeAll(headers) == headers;
    forall k | 0 <= k < |objects|
      ensures ObjectLine(objects[k], headers) == RowLine(rows[k + 1])
    {
      ObjectLineIsRowLine(objects[k], headers);
    }
  }

  /** Splitting a written table into records gives its lines back, newlines
      inside values included. */
  lemma {:induction false} SplitRecordsOfTable(objects: seq<Object>, headers: seq<string>)
    requires |headers| >= 1 && AllStrings(objects, headers) && PlainHeaders(headers)
    ensures SplitRecords(Join(TableLines(objects, headers), '\n')) == TableLines(objects, headers)
  {
    var rows := [headers] + seq(|objects|, k requires 0 <= k < |objects| => Strings(objects[k], headers));
    TableIsRows(objects, headers);
    RecordsOfRows(rows, []);
    assert [] + RowLines(rows) == RowLines(rows);
  }

  /** `csvToArray` with the quote-aware record splitter in place of
      `split('\n')`. */
  function CsvToArrayQuoteAware(csv: string, headers: seq<string>): (r: seq<map<string, string>>)
    ensures IsBlank(csv) ==> r == []
    ensures !IsBlank(csv) ==> |r| == |SplitRecords(Trim(csv))| - 1
    ensures forall k :: 0 <= k < |r| ==> forall h :: h in r[k] <==> h in headers
  {
    if IsBlank(csv) then []
    else
      var lines := SplitRecords(Trim(csv));
      if |lines| <= 1 then [] else ObjectsOf(lines[1..], headers)
  }

  /** On text without quotes the quote-aware reader is the reader as
      written. */
  lemma {:induction false} QuoteAwareAgreesWithoutQuotes(csv: string, headers: seq<string>)
    requires '"' !in csv
    ensures CsvToArrayQuoteAware(csv, headers) == CsvToArray(csv, headers)
  {
    var t := Trim(csv);
    assert '"' !in t by {
      var u := TrimStart(csv);
      assert forall i :: 0 <= i < |t| ==> t[i] == csv[|csv| - |u| + i];
    }
    SplitRecordsWithoutQuotes(t);
  }

  /** Round trip with the quote-aware reader: string values read back
      whatever they contain, newlines included. */
  lemma {:induction false} QuoteAwareRoundTrip(objects: seq<Object>, headers: seq<string>)
    requires objects != [] && |headers| >= 1 && PlainHeaders(headers)
    requires AllStrings(objects, headers)
    requires Trimmed(Written(objects, headers))
    ensures CsvToArrayQuoteAware(Written(objects, headers), headers) == ReadBackAll(objects, headers)
  {
    TableTextSolid(objects, headers);
    SplitRecordsOfTable(objects, headers);
    var r := CsvToArrayQuoteAware(Written(objects, headers), headers);
    forall k | 0 <= k < |objects|
      ensures r[k] == ReadBack(objects[k], headers)
    {
      ObjectRoundTrip(objects[k], headers);
    }
  }
}
