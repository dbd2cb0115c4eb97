/** The CSV file service: its serialiser (an empty table still writes the
    header line), its reader (drops the first line only when it is the
    header line and more lines follow) and the mapping from file names to
    the three stored tables. */
module CsvFiles {
  import opened Wrappers
  import opened Text
  import opened CsvCodec

  /** The text `arrayToCSV` produces. */
  function Written(data: seq<Object>, headers: seq<string>): string
  {
    if data == [] then Join(headers, ',') + "\n" else Join(TableLines(data, headers), '\n')
  }

  /** `arrayToCSV`: the header line and a newline for an empty table;
      otherwise the header line and one line per object, joined with
      newlines. */
  method ArrayToCSV(data: seq<Object>, headers: seq<string>) returns (csv: string)
    ensures data == [] ==> csv == Join(headers, ',') + "\n"
    ensures data != [] ==> csv == Join(TableLines(data, headers), '\n')
    ensures csv == Written(data, headers)
  {
    if |data| == 0 {
      return Join(headers, ',') + "\n";
    }
    var csvRows := BuildRows(data, headers);
    csv := Join(csvRows, '\n');
  }

  /** The lines that hold data: the first line is skipped only when more
      lines follow and it is exactly the header line. */
  function DataLines(lines: seq<string>, headers: seq<string>): (r: seq<string>)
    ensures r == lines || (|lines| > 1 && r == lines[1..])
    ensures r != lines <==> |lines| > 1 && lines[0] == Join(headers, ',')
  {
    if |lines| > 1 && lines[0] == Join(headers, ',') then lines[1..] else lines
  }

  /** `csvToArray`: nothing for blank text; otherwise one object per data
      line, each with exactly the given headers. */
  function CsvToArray(csvData: string, headers: seq<string>): (r: seq<map<string, string>>)
    ensures IsBlank(csvData) ==> r == []
    ensures !IsBlank(csvData) ==>
      var lines := Split(Trim(csvData), '\n');
      (|r| == |lines| - 1 <==> |lines| > 1 && lines[0] == Join(headers, ',')) &&
      (|r| == |lines| || |r| == |lines| - 1)
    ensures forall k :: 0 <= k < |r| ==> forall h :: h in r[k] <==> h in headers
  {
    if IsBlank(csvData) then []
    else ObjectsOf(DataLines(Split(Trim(csvData), '\n'), headers), headers)
  }

  /** A written non-empty table splits back into its lines. */
  lemma {:induction false} TableTextLines(data: seq<Object>, headers: seq<string>)
    requires data != [] && OneLineEach(data, headers)
    requires Trimmed(Written(data, headers))
    ensures !IsBlank(Written(data, headers))
    ensures Split(Trim(Written(data, headers)), '\n') == TableLines(data, headers)
  {
    var lines := TableLines(data, headers);
    assert Written(data, headers) == lines[0] + ['\n'] + Join(lines[1..], '\n');
    TableSplits(data, headers);
  }

  /** The objects read from the table's lines after the header. */
  lemma {:induction false} BodyReadsBack(data: seq<Object>, headers: seq<string>)
    requires |headers| >= 1 && AllStrings(data, headers)
    ensures ObjectsOf(TableLines(data, headers)[1..], headers) == ReadBackAll(data, headers)
  {
    var r := ObjectsOf(TableLines(data, headers)[1..], headers);
    forall k | 0 <= k < |data|
      ensures r[k] == ReadBack(data[k], headers)
    {
      ObjectRoundTrip(data[k], headers);
    }
  }

  /** Round trip: a non-empty table of newline-free string values reads
      back as its objects, when the written text has no white space at
      either end for `trim` to remove. */
  lemma {:induction false} CsvRoundTrip(data: seq<Object>, headers: seq<string>)
    requires data != [] && |headers| >= 1
    requires AllStrings(data, headers) && OneLineEach(data, headers)
    requires Trimmed(Written(data, headers))
    ensures CsvToArray(Written(data, headers), headers) == ReadBackAll(data, headers)
  {
    TableTextLines(data, headers);
    BodyReadsBack(data, headers);
  }

  /** The header line of plain headers is their serialised row. */
  lemma {:induction false} HeaderLineIsRow(headers: seq<string>)
    requires PlainHeaders(headers)
    ensures Join(headers, ',') == RowLine(headers)
    ensures '\n' !in Join(headers, ',')
  {
    assert EscapeAll(headers) == headers;
    JoinAvoids(headers, ',', '\n');
  }

  /** A saved empty table is the header line alone once trimmed. */
  lemma {:induction false} EmptyTableLines(headers: seq<string>)
    requires PlainHeaders(headers)
    requires Join(headers, ',') != "" && Trimmed(Join(headers, ','))
    ensures !IsBlank(Written([], headers))
    ensures Split(Trim(Written([], headers)), '\n') == [Join(headers, ',')]
  {
    var h := Join(headers, ',');
    HeaderLineIsRow(headers);
    TrimDropsFinalNewline(h);
    SplitNoSep(h, '\n');
  }

  /** Reading back a saved empty table yields one object whose values are
      the header names themselves: the lone header line is not skipped,
      because the skip wants more than one line. */
  lemma {:induction false} EmptyTableReadsBackHeaderRow(headers: seq<string>)
    requires |headers| >= 1 && PlainHeaders(headers)
    requires Join(headers, ',') != "" && Trimmed(Join(headers, ','))
    ensures CsvToArray(Written([], headers), headers) == [ToObject(headers, headers)]
  {
    EmptyTableLines(headers);
    HeaderLineIsRow(headers);
    RowRoundTrip(headers);
  }

  /** The lines that hold data, skipping the header line whenever it leads. */
  function DataLinesAfterHeader(lines: seq<string>, headers: seq<string>): (r: seq<string>)
    ensures r == lines || (|lines| >= 1 && r == lines[1..])
    ensures r != lines <==> |lines| >= 1 && lines[0] == Join(headers, ',')
  {
    if |lines| >= 1 && lines[0] == Join(headers, ',') then lines[1..] else lines
  }

  /** `csvToArray` skipping a leading header line even when it is alone. */
  function CsvToArrayHeaderAware(csvData: string, headers: seq<string>): (r: seq<map<string, string>>)
    ensures IsBlank(csvData) ==> r == []
    ensures forall k :: 0 <= k < |r| ==> forall h :: h in r[k] <==> h in headers
  {
    if IsBlank(csvData) then []
    else ObjectsOf(DataLinesAfterHeader(Split(Trim(csvData), '\n'), headers), headers)
  }

  /** With the header line always skipped, every saved table reads back as
      its objects, the empty table included. */
  lemma {:induction false} HeaderAwareRoundTrip(data: seq<Object>, headers: seq<string>)
    requires |headers| >= 1 && PlainHeaders(headers)
    requires Join(headers, ',') != "" && Trimmed(Join(headers, ','))
    requires AllStrings(data, headers) && OneLineEach(data, headers)
    requires data != [] ==> Trimmed(Written(data, headers))
    ensures CsvToArrayHeaderAware(Written(data, headers), headers) == ReadBackAll(data, headers)
  {
    if data == [] {
      EmptyTableLines(headers);
    } else {
      TableTextLines(data, headers);
      BodyReadsBack(data, headers);
    }
  }

  // ---------------------------------------------------------------------------
  // file names
  // ---------------------------------------------------------------------------

  datatype Table = Players | Matches | Leagues

  /** The table a file name stands for, tested by substring in the order
      players, matches, leagues. */
  function TableOf(filename: string): (r: Option<Table>)
    ensures r == Some(Players) <==> Contains(filename, "players")
    ensures r == Some(Matches) <==> !Contains(filename, "players") && Contains(filename, "matches")
    ensures r == Some(Leagues) <==>
      !Contains(filename, "players") && !Contains(filename, "matches") && Contains(filename, "leagues")
  {
    if Contains(filename, "players") then Some(Players)
    else if Contains(filename, "matches") then Some(Matches)
    else if Contains(filename, "leagues") then Some(Leagues)
    else None
  }

  /** `readCsv`: the objects the store holds for the file's table; nothing
      for a file name that names no table. */
  function ReadCsv(filename: string, load: Table -> seq<map<string, string>>): (r: seq<map<string, string>>)
    ensures TableOf(filename).None? ==> r == []
    ensures TableOf(filename).Some? ==> r == load(TableOf(filename).value)
  {
    match TableOf(filename)
    case None => []
    case Some(t) => load(t)
  }

  /** `writeCsv`: the outcome of saving the file's table; false for a file
      name that names no table. */
  function WriteCsv(filename: string, save: Table -> bool): (r: bool)
    ensures TableOf(filename).None? ==> !r
    ensures TableOf(filename).Some? ==> r == save(TableOf(filename).value)
  {
    match TableOf(filename)
    case None => false
    case Some(t) => save(t)
  }
}
