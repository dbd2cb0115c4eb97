/** The simple CSV reader of the key-value storage service: it always
    drops the first line and splits every other line on each comma,
    without any quote handling. */
module KvCsv {
  import opened Text
  import opened CsvCodec
  import GitHubCsv

  /** `parseCsvToJson`: nothing for an empty text or for one line after
      trimming; otherwise one object per line after the first, its values
      the comma-separated pieces in header order. */
  function ParseCsvToJson(csvString: string, headers: seq<string>): (r: seq<map<string, string>>)
    ensures csvString == "" ==> r == []
    ensures csvString != "" ==> |r| == |Split(Trim(csvString), '\n')| - 1
    ensures forall k :: 0 <= k < |r| ==> forall h :: h in r[k] <==> h in headers
  {
    if csvString == "" then []
    else
      var lines := Split(Trim(csvString), '\n');
      if |lines| <= 1 then []
      else SplitObjects(lines[1..], headers)
  }

  /** One object per line, its values the line's comma-separated pieces. */
  function SplitObjects(lines: seq<string>, headers: seq<string>): (r: seq<map<string, string>>)
    ensures |r| == |lines|
    ensures forall k :: 0 <= k < |r| ==> r[k] == ToObject(headers, Split(lines[k], ','))
  {
    seq(|lines|, k requires 0 <= k < |lines| => ToObject(headers, Split(lines[k], ',')))
  }

  /** On text without quotes the simple reader and the quote-aware reader of
      the GitHub service return the same objects. */
  lemma {:induction false} AgreesWithoutQuotes(csvString: string, headers: seq<string>)
    requires '"' !in csvString
    ensures ParseCsvToJson(csvString, headers) == GitHubCsv.CsvToArray(csvString, headers)
  {
    var t := Trim(csvString);
    var lines := Split(t, '\n');
    if csvString != "" && IsBlank(csvString) {
      assert lines == [""];
    } else if csvString != "" && |lines| > 1 {
      TrimAvoids(csvString, '"');
      SplitAvoids(t, '\n', '"');
      ObjectsAgree(lines[1..], headers);
    }
  }

  /** Line by line, the two readers build the same objects from lines
      without quotes. */
  lemma {:induction false} ObjectsAgree(lines: seq<string>, headers: seq<string>)
    requires forall k :: 0 <= k < |lines| ==> '"' !in lines[k]
    ensures SplitObjects(lines, headers) == ObjectsOf(lines, headers)
  {
    forall k | 0 <= k < |lines|
      ensures ParseLine(lines[k]) == Split(lines[k], ',')
    {
      ParseLineWithoutQuotes(lines[k]);
    }
  }
}
