/** The CSV upload page (src/pages/CsvUpload.jsx): parsing an uploaded
    match table, the import preview, the import guards and the two import
    loops over the local player and match stores. */
module CsvUpload {
  import opened Wrappers
  import opened Text
  import opened Sorting
  import opened Lists
  import opened Records
  import opened MatchStore
  import opened PlayerStore
  import opened LeagueTable
  import opened Seasons

  // ---------------------------------------------------------------------------
  // parsing
  // ---------------------------------------------------------------------------

  /** One parsed row. The second players and the date are absent when the
      row is too short to reach their column. */
  datatype ParsedMatch = ParsedMatch(
    team1Player1: string, team1Player2: Option<string>,
    team2Player1: string, team2Player2: Option<string>,
    team1Score: int, team2Score: int, matchDate: Option<string>)

  /** Why a parse fails; the missing-header error carries the header cells
      found and the fields left unmapped, in field order. */
  datatype ParseError = TooFewLines | MissingHeaders(found: seq<string>, missing: seq<string>) | NoValidMatches

  /** The seven fields, in the order they are mapped. */
  const Fields: seq<string> :=
    ["team1_player1", "team1_player2", "team2_player1", "team2_player2", "team1_score", "team2_score", "date"]

  /** The accepted spellings of each field, in order of preference. */
  const Spellings: seq<seq<string>> := [
    ["team1_player1", "team1player1", "team1 player1"],
    ["team1_player2", "team1player2", "team1 player2"],
    ["team2_player1", "team2player1", "team2 player1"],
    ["team2_player2", "team2player2", "team2 player2"],
    ["team1_score", "team1score", "team1 score"],
    ["team2_score", "team2score", "team2 score"],
    ["date", "match_date", "matchdate"]]

  /** The header cells: the first line split on commas, each trimmed and
      lower-cased. */
  function HeaderCells(line: string): (r: seq<string>)
    ensures |r| == |Split(line, ',')|
    ensures forall i :: 0 <= i < |r| ==> r[i] == Lower(Trim(Split(line, ',')[i]))
  {
    var parts := Split(line, ',');
    seq(|parts|, i requires 0 <= i < |parts| => Lower(Trim(parts[i])))
  }

  /** The values of a data line: split on commas, each trimmed. */
  function RowValues(line: string): seq<string>
  {
    var parts := Split(line, ',');
    seq(|parts|, i requires 0 <= i < |parts| => Trim(parts[i]))
  }

  /** `headers.findIndex(h => h === v)`. */
  function FindIndex(headers: seq<string>, v: string): (r: Option<nat>)
    ensures r.None? <==> v !in headers
    ensures r.Some? ==> r.value < |headers| && headers[r.value] == v && v !in headers[..r.value]
  {
    if headers == [] then None
    else if headers[0] == v then Some(0)
    else match FindIndex(headers[1..], v)
      case None => None
      case Some(i) =>
        assert headers[..i + 1] == [headers[0]] + headers[1..][..i];
        Some(i + 1)
  }

  /** The column of a field: the first position of its first accepted
      spelling that occurs among the headers. */
  function Column(headers: seq<string>, spellings: seq<string>): (r: Option<nat>)
    ensures r.None? <==> forall k :: 0 <= k < |spellings| ==> spellings[k] !in headers
    ensures r.Some? ==> exists k :: 0 <= k < |spellings| && r == FindIndex(headers, spellings[k]) &&
                                    forall j :: 0 <= j < k ==> spellings[j] !in headers
  {
    if spellings == [] then None
    else match FindIndex(headers, spellings[0])
      case Some(i) => Some(i)
      case None =>
        var r := Column(headers, spellings[1..]);
        assert r.Some? ==> exists k :: 1 <= k < |spellings| && r == FindIndex(headers, spellings[k]) &&
                                       forall j :: 0 <= j < k ==> spellings[j] !in headers by {
          if r.Some? {
            var k :| 0 <= k < |spellings| - 1 && r == FindIndex(headers, spellings[1..][k]) &&
                     forall j :: 0 <= j < k ==> spellings[1..][j] !in headers;
            assert forall j :: 0 <= j < k + 1 ==> spellings[j] !in headers by {
              forall j | 0 <= j < k + 1
                ensures spellings[j] !in headers
              {
                if j > 0 {
                  assert spellings[j] == spellings[1..][j - 1];
                }
              }
            }
          }
        }
        r
  }

  /** The column of each of the seven fields. */
  function Columns(headers: seq<string>): seq<Option<nat>>
  {
    seq(7, g requires 0 <= g < 7 => Column(headers, Spellings[g]))
  }

  /** The names of the fields left without a column, in field order. */
  function MissingFields(cols: seq<Option<nat>>): (r: seq<string>)
    requires |cols| <= 7
    ensures r == [] <==> forall g :: 0 <= g < |cols| ==> cols[g].Some?
    ensures forall x :: x in r <==> exists g :: 0 <= g < |cols| && cols[g].None? && Fields[g] == x
  {
    if cols == [] then []
    else
      var n := |cols| - 1;
      var front := MissingFields(cols[..n]);
      assert forall g :: 0 <= g < n ==> cols[..n][g] == cols[g];
      front + (if cols[n].None? then [Fields[n]] else [])
  }

  /** The mapped columns once every field has one. */
  function Found(cols: seq<Option<nat>>): (r: seq<nat>)
    requires forall g :: 0 <= g < |cols| ==> cols[g].Some?
    ensures |r| == |cols| && forall g :: 0 <= g < |cols| ==> r[g] == cols[g].value
  {
    seq(|cols|, g requires 0 <= g < |cols| => cols[g].value)
  }

  /** `values[i]`, absent past the end. */
  function Cell(values: seq<string>, i: nat): (r: Option<string>)
    ensures r.Some? <==> i < |values|
    ensures r.Some? ==> r.value == values[i]
  {
    if i < |values| then Some(values[i]) else None
  }

  /** A value that is present and non-empty (truthy). */
  predicate Present(o: Option<string>)
  {
    o.Some? && o.value != ""
  }

  /** `parseInt` of a value; an absent value gives NaN. */
  function Score(o: Option<string>): (r: Option<int>)
    ensures o.None? ==> r.None?
    ensures o.Some? ==> r == ParseInt(o.value)
  {
    match o
    case None => None
    case Some(s) => ParseInt(s)
  }

  /** The match read from a data row long enough to be considered: kept
      only when both first players are non-empty and both scores parse. */
  function RowMatch(values: seq<string>, cols: seq<nat>): (r: Option<ParsedMatch>)
    requires |cols| == 7
    ensures r.Some? <==> Present(Cell(values, cols[0])) && Present(Cell(values, cols[2])) &&
                         Score(Cell(values, cols[4])).Some? && Score(Cell(values, cols[5])).Some?
    ensures r.Some? ==> r.value.team1Player1 == values[cols[0]] && r.value.team2Player1 == values[cols[2]]
    ensures r.Some? ==> r.value.team1Player2 == Cell(values, cols[1]) && r.value.team2Player2 == Cell(values, cols[3])
    ensures r.Some? ==> r.value.matchDate == Cell(values, cols[6])
    ensures r.Some? ==> Some(r.value.team1Score) == ParseInt(values[cols[4]]) && Some(r.value.team2Score) == ParseInt(values[cols[5]])
  {
    var t1p1 := Cell(values, cols[0]);
    var t2p1 := Cell(values, cols[2]);
    var s1 := Score(Cell(values, cols[4]));
    var s2 := Score(Cell(values, cols[5]));
    if Present(t1p1) && Present(t2p1) && s1.Some? && s2.Some? then
      Some(ParsedMatch(t1p1.value, Cell(values, cols[1]), t2p1.value, Cell(values, cols[3]),
                       s1.value, s2.value, Cell(values, cols[6])))
    else None
  }

  /** What one data line contributes: nothing when it has fewer values than
      the seven mapped fields or its match is invalid, else its match. */
  function Keep(line: string, cols: seq<nat>): (r: seq<ParsedMatch>)
    requires |cols| == 7
    ensures |r| <= 1
    ensures |r| == 1 <==> |RowValues(line)| >= 7 && RowMatch(RowValues(line), cols).Some?
    ensures |r| == 1 ==> r[0] == RowMatch(RowValues(line), cols).value
  {
    var values := RowValues(line);
    if |values| < 7 then []
    else match RowMatch(values, cols)
      case None => []
      case Some(m) => [m]
  }

  /** What `f` makes of each line, concatenated in line order. */
  function Concat<T>(lines: seq<string>, f: string -> seq<T>): seq<T>
  {
    if lines == [] then []
    else Concat(lines[..|lines| - 1], f) + f(lines[|lines| - 1])
  }

  /** Concatenating over two blocks of lines is concatenating over each. */
  lemma {:induction false} ConcatAppend<T>(a: seq<string>, b: seq<string>, f: string -> seq<T>)
    ensures Concat(a + b, f) == Concat(a, f) + Concat(b, f)
    decreases |b|
  {
    if b == [] {
      assert a + b == a;
    } else {
      var n := |b| - 1;
      assert (a + b)[..|a + b| - 1] == a + b[..n];
      assert (a + b)[|a + b| - 1] == b[n];
      ConcatAppend(a, b[..n], f);
    }
  }

  /** Every element comes from one line. */
  lemma {:induction false} ConcatFrom<T>(lines: seq<string>, f: string -> seq<T>, x: T)
    requires x in Concat(lines, f)
    ensures exists i :: 0 <= i < |lines| && x in f(lines[i])
  {
    var n := |lines| - 1;
    if x in Concat(lines[..n], f) {
      ConcatFrom(lines[..n], f, x);
      var i :| 0 <= i < n && x in f(lines[..n][i]);
      assert lines[..n][i] == lines[i];
    }
  }

  /** Every line's elements are there. */
  lemma {:induction false} ConcatOf<T>(lines: seq<string>, f: string -> seq<T>, i: nat)
    requires i < |lines|
    ensures forall x :: x in f(lines[i]) ==> x in Concat(lines, f)
  {
    assert lines == lines[..i + 1] + lines[i + 1..];
    ConcatAppend(lines[..i + 1], lines[i + 1..], f);
    assert lines[..i + 1][..i] == lines[..i];
    assert lines[..i + 1][i] == lines[i];
  }

  /** One more line. */
  lemma {:induction false} ConcatStep<T>(lines: seq<string>, i: nat, j: nat, f: string -> seq<T>)
    requires i <= j < |lines|
    ensures Concat(lines[i..j + 1], f) == Concat(lines[i..j], f) + f(lines[j])
  {
    assert lines[i..j + 1][..j - i] == lines[i..j];
  }

  /** `Keep` for the given columns, as a function of the line. */
  function KeepWith(cols: seq<nat>): string -> seq<ParsedMatch>
  {
    line => if |cols| == 7 then Keep(line, cols) else []
  }

  /** The matches of the data lines, in line order. */
  function KeptRows(lines: seq<string>, cols: seq<nat>): seq<ParsedMatch>
    requires |cols| == 7
  {
    Concat(lines, KeepWith(cols))
  }

  /** Every parsed match comes from one data line: the line has at least
      seven values and its row is valid, naming both first players. */
  lemma {:induction false} KeptRowFrom(lines: seq<string>, cols: seq<nat>, m: ParsedMatch)
    requires |cols| == 7 && m in KeptRows(lines, cols)
    ensures m.team1Player1 != "" && m.team2Player1 != ""
    ensures exists i :: 0 <= i < |lines| && |RowValues(lines[i])| >= 7 && RowMatch(RowValues(lines[i]), cols) == Some(m)
  {
    ConcatFrom(lines, KeepWith(cols), m);
    var i :| 0 <= i < |lines| && m in KeepWith(cols)(lines[i]);
    KeptMatch(lines[i], cols, m);
  }

  /** A match one line contributes is that line's valid row. */
  lemma {:induction false} KeptMatch(line: string, cols: seq<nat>, m: ParsedMatch)
    requires |cols| == 7 && m in Keep(line, cols)
    ensures m.team1Player1 != "" && m.team2Player1 != ""
    ensures |RowValues(line)| >= 7 && RowMatch(RowValues(line), cols) == Some(m)
  {
    var values := RowValues(line);
    var kept := Keep(line, cols);
    assert |kept| == 1 && kept[0] == m;
    var row := RowMatch(values, cols);
    assert row == Some(m);
    assert Present(Cell(values, cols[0])) && Present(Cell(values, cols[2]));
  }

  /** Conversely, every valid row with at least seven values is parsed. */
  lemma {:induction false} KeptRowOf(lines: seq<string>, cols: seq<nat>, i: nat)
    requires |cols| == 7 && i < |lines|
    requires |RowValues(lines[i])| >= 7 && RowMatch(RowValues(lines[i]), cols).Some?
    ensures RowMatch(RowValues(lines[i]), cols).value in KeptRows(lines, cols)
  {
    ConcatOf(lines, KeepWith(cols), i);
    assert KeepWith(cols)(lines[i]) == Keep(lines[i], cols);
  }

  /** The column of one field: its spellings tried in order until one is
      among the headers. */
  method MapColumn(headers: seq<string>, variations: seq<string>) returns (found: Option<nat>)
    ensures found == Column(headers, variations)
  {
    found := None;
    var v := 0;
    while v < |variations| && found.None?
      invariant 0 <= v <= |variations|
      invariant Column(headers, variations) == if found.Some? then found else Column(headers, variations[v..])
    {
      assert variations[v..][1..] == variations[v + 1..];
      var headerIndex := FindIndex(headers, variations[v]);
      if headerIndex.Some? {
        found := headerIndex;
      }
      v := v + 1;
    }
  }

  /** The header mapping: a column per field, and the fields without one. */
  method MapHeaders(headers: seq<string>) returns (columns: seq<Option<nat>>, missing: seq<string>)
    ensures columns == Columns(headers)
    ensures missing == MissingFields(columns)
  {
    columns, missing := [], [];
    var f := 0;
    while f < 7
      invariant 0 <= f <= 7 && columns == Columns(headers)[..f]
      invariant missing == MissingFields(columns)
    {
      columns, missing := MapField(headers, f, columns, missing);
      f := f + 1;
    }
    assert Columns(headers)[..7] == Columns(headers);
  }

  /** One field of the header mapping: its column, and its name when it
      has none. */
  method MapField(headers: seq<string>, f: nat, columns: seq<Option<nat>>, missing: seq<string>)
    returns (columns': seq<Option<nat>>, missing': seq<string>)
    requires f < 7 && columns == Columns(headers)[..f] && missing == MissingFields(columns)
    ensures columns' == Columns(headers)[..f + 1] && missing' == MissingFields(columns')
  {
    var found := MapColumn(headers, Spellings[f]);
    assert Columns(headers)[f] == found;
    TakeStep(Columns(headers), f);
    MissingAppend(columns, found);
    columns' := columns + [found];
    missing' := missing;
    if found.None? {
      missing' := missing + [Fields[f]];
    }
  }

  lemma {:induction false} MissingAppend(cols: seq<Option<nat>>, found: Option<nat>)
    requires |cols| < 7
    ensures MissingFields(cols + [found]) == MissingFields(cols) + if found.None? then [Fields[|cols|]] else []
  {
    assert (cols + [found])[..|cols|] == cols;
  }

  /** The data-line loop: every line after the first, in order. */
  method CollectRows(lines: seq<string>, cols: seq<nat>) returns (matches: seq<ParsedMatch>)
    requires |lines| >= 1 && |cols| == 7
    ensures matches == KeptRows(lines[1..], cols)
  {
    matches := [];
    var i := 1;
    while i < |lines|
      invariant 1 <= i <= |lines|
      invariant matches == KeptRows(lines[1..i], cols)
    {
      matches := CollectNext(lines, cols, i, matches);
      i := i + 1;
    }
    assert lines[1..i] == lines[1..];
  }

  /** The loop body for data line `i`: its match, if any, appended. */
  method CollectNext(lines: seq<string>, cols: seq<nat>, i: nat, matches: seq<ParsedMatch>) returns (matches': seq<ParsedMatch>)
    requires 1 <= i < |lines| && |cols| == 7 && matches == KeptRows(lines[1..i], cols)
    ensures matches' == KeptRows(lines[1..i + 1], cols)
  {
    ConcatStep(lines, 1, i, KeepWith(cols));
    var kept := KeepLine(lines[i], cols);
    assert KeepWith(cols)(lines[i]) == kept;
    matches' := matches + kept;
  }

  /** One data line: its values, then its match when it has seven values
      and the row is valid. */
  method KeepLine(line: string, cols: seq<nat>) returns (kept: seq<ParsedMatch>)
    requires |cols| == 7
    ensures kept == Keep(line, cols)
  {
    kept := [];
    var values := RowValues(line);
    if |values| >= 7 {
      var candidate := RowMatch(values, cols);
      if candidate.Some? {
        kept := [candidate.value];
      }
    }
  }

  /** `parseCsvData`: too few lines, a field without a column, or no valid
      row are errors; otherwise the valid rows, in order. */
  method ParseCsvData(csvText: string) returns (r: Result<seq<ParsedMatch>, ParseError>)
    ensures var lines := Split(Trim(csvText), '\n');
      if |lines| < 2 then r == Err(TooFewLines)
      else
        var headers := HeaderCells(lines[0]);
        var cols := Columns(headers);
        if MissingFields(cols) != [] then r == Err(MissingHeaders(headers, MissingFields(cols)))
        else
          var kept := KeptRows(lines[1..], Found(cols));
          r == if kept == [] then Err(NoValidMatches) else Ok(kept)
  {
    var lines := Split(Trim(csvText), '\n');
    if |lines| < 2 {
      return Err(TooFewLines);
    }
    var headers := HeaderCells(lines[0]);
    var columns, missing := MapHeaders(headers);
    if |missing| > 0 {
      return Err(MissingHeaders(headers, missing));
    }
    var matches := CollectRows(lines, Found(columns));
    if |matches| == 0 {
      return Err(NoValidMatches);
    }
    return Ok(matches);
  }

  // ---------------------------------------------------------------------------
  // preview
  // ---------------------------------------------------------------------------

  /** The names a match adds to the preview: both first players always,
      a second player only when present and non-empty. */
  function NamesOf(m: ParsedMatch): (r: seq<string>)
    ensures m.team1Player1 in r && m.team2Player1 in r
    ensures forall n :: n in r ==> (n == m.team1Player1 || n == m.team2Player1 ||
                                  (Present(m.team1Player2) && n == m.team1Player2.value) ||
                                  (Present(m.team2Player2) && n == m.team2Player2.value))
  {
    [m.team1Player1] + (if Present(m.team1Player2) then [m.team1Player2.value] else []) +
    [m.team2Player1] + (if Present(m.team2Player2) then [m.team2Player2.value] else [])
  }

  /** Every name the matches add, with repetitions, in order. */
  function AllNames(ms: seq<ParsedMatch>): seq<string>
  {
    if ms == [] then [] else AllNames(ms[..|ms| - 1]) + NamesOf(ms[|ms| - 1])
  }

  /** `matches[0]?.match_date || ''`. */
  function FirstDate(ms: seq<ParsedMatch>): string
  {
    if ms != [] && ms[0].matchDate.Some? then ms[0].matchDate.value else ""
  }

  /** The `reduce` for the earliest date: a present date replaces the
      accumulator when it sorts before it. */
  function EarliestFrom(ms: seq<ParsedMatch>, acc: string): string
  {
    if ms == [] then acc
    else EarliestFrom(ms[1..], if ms[0].matchDate.Some? && StrLess(ms[0].matchDate.value, acc) then ms[0].matchDate.value else acc)
  }

  /** The `reduce` for the latest date. */
  function LatestFrom(ms: seq<ParsedMatch>, acc: string): string
  {
    if ms == [] then acc
    else LatestFrom(ms[1..], if ms[0].matchDate.Some? && StrLess(acc, ms[0].matchDate.value) then ms[0].matchDate.value else acc)
  }

  function Earliest(ms: seq<ParsedMatch>): string
  {
    EarliestFrom(ms, FirstDate(ms))
  }

  function Latest(ms: seq<ParsedMatch>): string
  {
    LatestFrom(ms, FirstDate(ms))
  }

  /** "Not after" is transitive for the string order. */
  lemma {:induction false} NotLessTransitive(a: string, b: string, c: string)
    requires !StrLess(a, b) && !StrLess(b, c)
    ensures !StrLess(a, c)
  {
    StrLessTotal(a, b);
    if StrLess(a, c) {
      if a == b {
      } else {
        StrLessTransitive(b, a, c);
      }
    }
  }

  /** The string order is a strict weak order, so sorting by it is sound. */
  lemma {:induction false} StrLessIsStrictWeak()
    ensures StrictWeakOrder((a: string, b: string) => StrLess(a, b))
  {
    forall a: string, b: string | StrLess(a, b)
      ensures !StrLess(b, a)
    {
      StrLessAsymmetric(a, b);
    }
    forall a: string, b: string, c: string | !StrLess(a, b) && !StrLess(b, c)
      ensures !StrLess(a, c)
    {
      NotLessTransitive(a, b, c);
    }
  }

  lemma {:induction false} EarliestFromBound(ms: seq<ParsedMatch>, acc: string)
    ensures !StrLess(acc, EarliestFrom(ms, acc))
    ensures forall k :: 0 <= k < |ms| && ms[k].matchDate.Some? ==> !StrLess(ms[k].matchDate.value, EarliestFrom(ms, acc))
    ensures EarliestFrom(ms, acc) == acc || exists k :: 0 <= k < |ms| && ms[k].matchDate == Some(EarliestFrom(ms, acc))
    decreases |ms|
  {
    if ms == [] {
      StrLessIrreflexive(acc);
    } else {
      var next := if ms[0].matchDate.Some? && StrLess(ms[0].matchDate.value, acc) then ms[0].matchDate.value else acc;
      var r := EarliestFrom(ms[1..], next);
      EarliestFromBound(ms[1..], next);
      assert !StrLess(acc, next) by {
        if next != acc {
          StrLessAsymmetric(next, acc);
        } else {
          StrLessIrreflexive(acc);
        }
      }
      NotLessTransitive(acc, next, r);
      if ms[0].matchDate.Some? {
        var d := ms[0].matchDate.value;
        assert !StrLess(d, next) by {
          if next == acc {
            assert !StrLess(d, acc);
          } else {
            StrLessIrreflexive(d);
          }
        }
        NotLessTransitive(d, next, r);
      }
      forall k | 1 <= k < |ms| && ms[k].matchDate.Some?
        ensures !StrLess(ms[k].matchDate.value, r)
      {
        assert ms[1..][k - 1] == ms[k];
      }
      if r != acc {
        if r == next {
          assert ms[0].matchDate == Some(r);
        } else {
          var k :| 0 <= k < |ms| - 1 && ms[1..][k].matchDate == Some(r);
          assert ms[k + 1].matchDate == Some(r);
        }
      }
    }
  }

  lemma {:induction false} LatestFromBound(ms: seq<ParsedMatch>, acc: string)
    ensures !StrLess(LatestFrom(ms, acc), acc)
    ensures forall k :: 0 <= k < |ms| && ms[k].matchDate.Some? ==> !StrLess(LatestFrom(ms, acc), ms[k].matchDate.value)
    ensures LatestFrom(ms, acc) == acc || exists k :: 0 <= k < |ms| && ms[k].matchDate == Some(LatestFrom(ms, acc))
    decreases |ms|
  {
    if ms == [] {
      StrLessIrreflexive(acc);
    } else {
      var next := if ms[0].matchDate.Some? && StrLess(acc, ms[0].matchDate.value) then ms[0].matchDate.value else acc;
      var r := LatestFrom(ms[1..], next);
      LatestFromBound(ms[1..], next);
      assert !StrLess(next, acc) by {
        if next != acc {
          StrLessAsymmetric(acc, next);
        } else {
          StrLessIrreflexive(acc);
        }
      }
      NotLessTransitive(r, next, acc);
      if ms[0].matchDate.Some? {
        var d := ms[0].matchDate.value;
        assert !StrLess(next, d) by {
          if next == acc {
            assert !StrLess(acc, d);
          } else {
            StrLessIrreflexive(d);
          }
        }
        NotLessTransitive(r, next, d);
      }
      forall k | 1 <= k < |ms| && ms[k].matchDate.Some?
        ensures !StrLess(r, ms[k].matchDate.value)
      {
        assert ms[1..][k - 1] == ms[k];
      }
      if r != acc {
        if r == next {
          assert ms[0].matchDate == Some(r);
        } else {
          var k :| 0 <= k < |ms| - 1 && ms[1..][k].matchDate == Some(r);
          assert ms[k + 1].matchDate == Some(r);
        }
      }
    }
  }

  /** The preview's date range: the earliest date sorts before no present
      date and the latest after none; each is a present date of some row
      unless it is the empty string. */
  lemma {:induction false} DateRangeBounds(ms: seq<ParsedMatch>)
    ensures forall k :: 0 <= k < |ms| && ms[k].matchDate.Some? ==>
      !StrLess(ms[k].matchDate.value, Earliest(ms)) && !StrLess(Latest(ms), ms[k].matchDate.value)
    ensures Earliest(ms) == "" || exists k :: 0 <= k < |ms| && ms[k].matchDate == Some(Earliest(ms))
    ensures Latest(ms) == "" || exists k :: 0 <= k < |ms| && ms[k].matchDate == Some(Latest(ms))
  {
    EarliestFromBound(ms, FirstDate(ms));
    LatestFromBound(ms, FirstDate(ms));
    if ms != [] && ms[0].matchDate.Some? {
      assert ms[0].matchDate == Some(FirstDate(ms));
    }
  }

  /** Adds each of `added` not yet present, keeping insertion order. */
  method AddNames(names: seq<string>, added: seq<string>) returns (r: seq<string>)
    requires NoRepeats(names)
    ensures NoRepeats(r)
    ensures forall n :: n in r <==> n in names || n in added
  {
    r := names;
    var k := 0;
    while k < |added|
      invariant 0 <= k <= |added|
      invariant NoRepeats(r)
      invariant forall n :: n in r <==> n in names || n in added[..k]
    {
      if added[k] !in r {
        r := r + [added[k]];
      }
      assert added[..k + 1] == added[..k] + [added[k]];
      k := k + 1;
    }
    assert added[..k] == added;
  }

  /** The set of player names, filled match by match. */
  method CollectNames(matches: seq<ParsedMatch>) returns (names: seq<string>)
    ensures NoRepeats(names)
    ensures forall n :: n in names <==> n in AllNames(matches)
  {
    names := [];
    var i := 0;
    while i < |matches|
      invariant 0 <= i <= |matches|
      invariant NoRepeats(names)
      invariant forall n :: n in names <==> n in AllNames(matches[..i])
    {
      assert matches[..i + 1][..i] == matches[..i];
      assert AllNames(matches[..i + 1]) == AllNames(matches[..i]) + NamesOf(matches[i]);
      names := AddNames(names, NamesOf(matches[i]));
      i := i + 1;
    }
    assert matches[..i] == matches;
  }

  /** What the preview shows. */
  datatype Preview = Preview(
    totalMatches: nat, totalPlayers: nat, playerNames: seq<string>,
    earliest: string, latest: string, sampleMatches: seq<ParsedMatch>)

  /** `generatePreview`: the distinct player names in ascending order with
      their count, the date range and the first five matches. */
  method GeneratePreview(matches: seq<ParsedMatch>) returns (p: Preview)
    ensures p.totalMatches == |matches|
    ensures forall n :: n in p.playerNames <==> n in AllNames(matches)
    ensures forall i, j :: 0 <= i < j < |p.playerNames| ==> StrLess(p.playerNames[i], p.playerNames[j])
    ensures p.totalPlayers == |p.playerNames|
    ensures p.earliest == Earliest(matches) && p.latest == Latest(matches)
    ensures p.sampleMatches == matches[..if |matches| < 5 then |matches| else 5]
  {
    var playerNames := CollectNames(matches);
    var before := (a: string, b: string) => StrLess(a, b);
    var sorted := SortBy(playerNames, before);
    StrLessIsStrictWeak();
    SortBySorted(playerNames, before);
    NoRepeatsPermutation(playerNames, sorted);
    forall n
      ensures n in sorted <==> n in playerNames
    {
      assert n in sorted <==> n in multiset(sorted);
    }
    forall i, j | 0 <= i < j < |sorted|
      ensures StrLess(sorted[i], sorted[j])
    {
      StrLessTotal(sorted[i], sorted[j]);
    }
    p := Preview(|matches|, |sorted|, sorted, Earliest(matches), Latest(matches),
                 matches[..if |matches| < 5 then |matches| else 5]);
  }

  // ---------------------------------------------------------------------------
  // import
  // ---------------------------------------------------------------------------

  const ErrNoData := "Please upload a CSV file first"
  const ErrNoSeasonName := "Please enter a season name or select an existing season"
  const ErrNoSeasonSelected := "Please select an existing season"
  const ErrSeasonNotFound := "Selected season not found"

  /** The guards of `handleImport`, in order: parsed rows, then a season
      name for a new season, then a selection for an existing one. */
  function ImportGuard(rowCount: nat, useExisting: bool, seasonName: string, selectedSeasonId: string): (r: Option<string>)
    ensures r.None? <==> rowCount > 0 && (!useExisting ==> !IsBlank(seasonName)) && (useExisting ==> selectedSeasonId != "")
    ensures rowCount == 0 ==> r == Some(ErrNoData)
    ensures rowCount > 0 && !useExisting && IsBlank(seasonName) ==> r == Some(ErrNoSeasonName)
    ensures rowCount > 0 && useExisting && selectedSeasonId == "" ==> r == Some(ErrNoSeasonSelected)
  {
    if rowCount == 0 then Some(ErrNoData)
    else if !useExisting && IsBlank(seasonName) then Some(ErrNoSeasonName)
    else if useExisting && selectedSeasonId == "" then Some(ErrNoSeasonSelected)
    else None
  }

  /** The season the import goes into. */
  datatype SeasonSource = Existing(row: LeagueRow) | New(input: SeasonInput)

  /** The first season whose id, written as text, is the selected id. */
  function FindSeason(seasons: seq<LeagueRow>, selectedSeasonId: string): (r: Option<LeagueRow>)
    ensures r.None? <==> forall s :: s in seasons ==> IntToString(s.id) != selectedSeasonId
    ensures r.Some? ==> r.value in seasons && IntToString(r.value.id) == selectedSeasonId
  {
    if seasons == [] then None
    else if IntToString(seasons[0].id) == selectedSeasonId then Some(seasons[0])
    else FindSeason(seasons[1..], selectedSeasonId)
  }

  /** The season step of `handleImport`: the selected existing season, or
      a new active season named by the trimmed name, described by the
      trimmed description or an import note, starting on the date part of
      the earliest match date. */
  function ChooseSeason(useExisting: bool, seasons: seq<LeagueRow>, selectedSeasonId: string,
                        seasonName: string, seasonDescription: string, earliest: string, todayText: string)
    : (r: Result<SeasonSource, string>)
    ensures r.Err? <==> useExisting && forall s :: s in seasons ==> IntToString(s.id) != selectedSeasonId
    ensures r.Err? ==> r.error == ErrSeasonNotFound
    ensures r.Ok? && useExisting ==> r.value.Existing? && r.value.row in seasons &&
                                     IntToString(r.value.row.id) == selectedSeasonId
    ensures r.Ok? && !useExisting ==> (
      r.value.New? &&
      r.value.input.name == Trim(seasonName) &&
      r.value.input.startDate <= earliest && ' ' !in r.value.input.startDate &&
      (|r.value.input.startDate| < |earliest| ==> earliest[|r.value.input.startDate|] == ' ') &&
      r.value.input.endDate == "" && StrictlyTrue(r.value.input.isActive) &&
      (r.value.input.description == if Trim(seasonDescription) != "" then Trim(seasonDescription)
                                    else "Imported from CSV on " + todayText))
  {
    if useExisting then
      match FindSeason(seasons, selectedSeasonId)
      case None => Err(ErrSeasonNotFound)
      case Some(s) => Ok(Existing(s))
    else
      var description := if Trim(seasonDescription) != "" then Trim(seasonDescription)
                         else "Imported from CSV on " + todayText;
      Ok(New(SeasonInput(Trim(seasonName), description, BeforeFirst(earliest, ' '), "", BoolFlag(true))))
  }

  /** A failed write counted as an existing player. */
  predicate AlreadyExists(message: string)
  {
    Contains(message, "already exists")
  }

  /** The counters `ensurePlayersExist` returns. */
  datatype Tally = Tally(created: nat, existing: nat, errors: seq<string>)

  /** The counters after trying every name in turn: a write that succeeds
      counts as created; a failed one as existing when its message says
      'already exists', otherwise as an error line `name: message`. */
  function PlayerTally(names: seq<string>, failure: string -> Option<string>): (t: Tally)
  {
    if names == [] then Tally(0, 0, [])
    else PlayerStep(PlayerTally(names[..|names| - 1], failure), names[|names| - 1], failure)
  }

  /** The counters after trying one more name. */
  function PlayerStep(t: Tally, name: string, failure: string -> Option<string>): Tally
  {
    match failure(name)
    case None => t.(created := t.created + 1)
    case Some(message) =>
      if AlreadyExists(message) then t.(existing := t.existing + 1)
      else t.(errors := t.errors + [name + ": " + message])
  }

  /** Every name lands in exactly one counter; the created ones are the
      names whose write succeeds and the existing ones those refused as
      already present. */
  lemma {:induction false} PlayerTallyCounts(names: seq<string>, failure: string -> Option<string>)
    ensures var t := PlayerTally(names, failure);
      t.created + t.existing + |t.errors| == |names| &&
      t.created == |Filter(names, (n: string) => failure(n).None?)| &&
      t.existing == |Filter(names, (n: string) => failure(n).Some? && AlreadyExists(failure(n).value))|
    decreases |names|
  {
    if names != [] {
      var n := |names| - 1;
      PlayerTallyCounts(names[..n], failure);
      FilterPrefixStep(names, n, (x: string) => failure(x).None?);
      FilterPrefixStep(names, n, (x: string) => failure(x).Some? && AlreadyExists(failure(x).value));
      assert names[..n + 1] == names;
    }
  }

  /** The players `ensurePlayersExist` adds, numbered by creation; a name
      whose write fails adds nothing. */
  function NewPlayers(names: seq<string>, failure: string -> Option<string>, newId: nat -> string, now: string): seq<Player>
  {
    if names == [] then []
    else
      var n := |names| - 1;
      var front := NewPlayers(names[..n], failure, newId, now);
      front + NewPlayerFor(names[n], failure, newId(|front|), now)
  }

  /** The player one name adds: none when its write fails. */
  function NewPlayerFor(name: string, failure: string -> Option<string>, id: string, now: string): seq<Player>
  {
    if failure(name).None? then [Player(id, name, now)] else []
  }

  lemma {:induction false} EnsureStep(names: seq<string>, i: nat, failure: string -> Option<string>, newId: nat -> string, now: string)
    requires i < |names|
    ensures PlayerTally(names[..i + 1], failure) == PlayerStep(PlayerTally(names[..i], failure), names[i], failure)
    ensures var front := NewPlayers(names[..i], failure, newId, now);
      NewPlayers(names[..i + 1], failure, newId, now) == front + NewPlayerFor(names[i], failure, newId(|front|), now)
  {
    assert names[..i + 1][..i] == names[..i];
  }

  /** One player per created count, numbered by creation, each a name
      whose write succeeded. */
  lemma {:induction false} NewPlayersFacts(names: seq<string>, failure: string -> Option<string>, newId: nat -> string, now: string)
    ensures var r := NewPlayers(names, failure, newId, now);
      |r| == PlayerTally(names, failure).created &&
      forall k :: 0 <= k < |r| ==> r[k].id == newId(k) && r[k].name in names && failure(r[k].name).None?
    decreases |names|
  {
    if names != [] {
      var n := |names| - 1;
      NewPlayersFacts(names[..n], failure, newId, now);
      EnsureStep(names, n, failure, newId, now);
      assert names[..n + 1] == names;
      assert forall x :: x in names[..n] ==> x in names;
    }
  }

  /** `ensurePlayersExist` (page version): creates each name in the local
      player store, counting the outcomes. */
  method EnsurePlayersExist(store: PlayerStore, names: seq<string>, newId: nat -> string, now: string,
                            failure: string -> Option<string>)
    returns (created: nat, existing: nat, errors: seq<string>)
    modifies store
    ensures Tally(created, existing, errors) == PlayerTally(names, failure)
    ensures store.List() == old(store.List()) + NewPlayers(names, failure, newId, now)
  {
    created, existing, errors := 0, 0, [];
    ghost var before := store.List();
    var i := 0;
    while i < |names|
      invariant 0 <= i <= |names|
      invariant Tally(created, existing, errors) == PlayerTally(names[..i], failure)
      invariant created == |NewPlayers(names[..i], failure, newId, now)|
      invariant store.List() == before + NewPlayers(names[..i], failure, newId, now)
    {
      created, existing, errors := EnsureNext(store, names, i, newId, now, failure, created, existing, errors, before);
      i := i + 1;
    }
    assert names[..i] == names;
  }

  /** The loop body for name `i`: `Player.create`, then the counter its
      outcome selects. */
  method EnsureNext(store: PlayerStore, names: seq<string>, i: nat, newId: nat -> string, now: string,
                    failure: string -> Option<string>, created: nat, existing: nat, errors: seq<string>, ghost before: seq<Player>)
    returns (created': nat, existing': nat, errors': seq<string>)
    requires i < |names|
    requires Tally(created, existing, errors) == PlayerTally(names[..i], failure)
    requires created == |NewPlayers(names[..i], failure, newId, now)|
    requires store.List() == before + NewPlayers(names[..i], failure, newId, now)
    modifies store
    ensures Tally(created', existing', errors') == PlayerTally(names[..i + 1], failure)
    ensures created' == |NewPlayers(names[..i + 1], failure, newId, now)|
    ensures store.List() == before + NewPlayers(names[..i + 1], failure, newId, now)
  {
    var name := names[i];
    EnsureStep(names, i, failure, newId, now);
    created', existing', errors' := created, existing, errors;
    match failure(name) {
      case None =>
        var player := store.Create(name, newId(created), now);
        created' := created + 1;
      case Some(message) =>
        if AlreadyExists(message) {
          existing' := existing + 1;
        } else {
          errors' := errors + [name + ": " + message];
        }
    }
  }

  /** `value || ''` for an optional second player. */
  function OrEmpty(o: Option<string>): (r: string)
    ensures o.Some? ==> r == o.value
    ensures o.None? ==> r == ""
  {
    if o.Some? then o.value else ""
  }

  /** How an absent value prints inside a template string. */
  function Shown(o: Option<string>): (r: string)
    ensures o.Some? ==> r == o.value
    ensures o.None? ==> r == "undefined"
  {
    if o.Some? then o.value else "undefined"
  }

  /** The label of a match that failed to import. */
  function Label(m: ParsedMatch): string
  {
    m.team1Player1 + "+" + Shown(m.team1Player2) + " vs " + m.team2Player1 + "+" + Shown(m.team2Player2)
  }

  /** What `importMatches` hands to `Match.create`: the date cut at its
      first space, missing second players as empty names. A missing date
      makes the cut throw, and the row fails. */
  function ImportInput(m: ParsedMatch): (r: Option<MatchInput>)
    ensures r.None? <==> m.matchDate.None?
    ensures r.Some? ==> r.value.matchDate == BeforeFirst(m.matchDate.value, ' ') &&
                        ' ' !in r.value.matchDate && r.value.matchDate <= m.matchDate.value
    ensures r.Some? ==> r.value.team1Player1 == m.team1Player1 && r.value.team2Player1 == m.team2Player1 &&
                        r.value.team1Player2 == OrEmpty(m.team1Player2) && r.value.team2Player2 == OrEmpty(m.team2Player2)
    ensures r.Some? ==> r.value.team1Score == m.team1Score && r.value.team2Score == m.team2Score
  {
    match m.matchDate
    case None => None
    case Some(d) =>
      Some(MatchInput(m.team1Player1, OrEmpty(m.team1Player2), m.team2Player1, OrEmpty(m.team2Player2),
                      m.team1Score, m.team2Score, BeforeFirst(d, ' ')))
  }

  /** The records `importMatches` creates, numbered by creation. */
  function Imported(matches: seq<ParsedMatch>, newId: nat -> string, now: string, today: string): (r: seq<Match>)
  {
    if matches == [] then []
    else
      var front := Imported(matches[..|matches| - 1], newId, now, today);
      front + ImportedFor(matches[|matches| - 1], newId(|front|), now, today)
  }

  /** The record one row creates: none when it has no date. */
  function ImportedFor(m: ParsedMatch, id: string, now: string, today: string): seq<Match>
  {
    match ImportInput(m)
    case None => []
    case Some(input) => [NewRecord(input, id, now, today)]
  }

  /** The labels of the rows that fail, in row order. */
  function FailedLabels(matches: seq<ParsedMatch>): seq<string>
  {
    if matches == [] then []
    else
      var m := matches[|matches| - 1];
      FailedLabels(matches[..|matches| - 1]) + if m.matchDate.None? then [Label(m)] else []
  }

  /** Every row either imports or fails; the rows that fail are exactly
      those without a date; an imported record carries no time of day
      when the fallback date has none. */
  lemma {:induction false} ImportedCounts(matches: seq<ParsedMatch>, newId: nat -> string, now: string, today: string)
    ensures |Imported(matches, newId, now, today)| + |FailedLabels(matches)| == |matches|
    ensures |FailedLabels(matches)| == |Filter(matches, (m: ParsedMatch) => m.matchDate.None?)|
    ensures ' ' !in today ==> forall r :: r in Imported(matches, newId, now, today) ==> ' ' !in r.matchDate
  {
    ImportedSplit(matches, newId, now, today);
    FailedFiltered(matches);
    if ' ' !in today {
      ImportedDates(matches, newId, now, today);
    }
  }

  /** One more row: it imports or fails. */
  lemma {:induction false} ImportedStep(matches: seq<ParsedMatch>, i: nat, newId: nat -> string, now: string, today: string)
    requires i < |matches|
    ensures var front := Imported(matches[..i], newId, now, today);
      Imported(matches[..i + 1], newId, now, today) == front + ImportedFor(matches[i], newId(|front|), now, today)
    ensures FailedLabels(matches[..i + 1]) ==
      FailedLabels(matches[..i]) + if matches[i].matchDate.None? then [Label(matches[i])] else []
  {
    assert matches[..i + 1][..i] == matches[..i];
  }

  lemma {:induction false} ImportedSplit(matches: seq<ParsedMatch>, newId: nat -> string, now: string, today: string)
    ensures |Imported(matches, newId, now, today)| + |FailedLabels(matches)| == |matches|
  {
    if matches != [] {
      var n := |matches| - 1;
      ImportedSplit(matches[..n], newId, now, today);
      ImportedStep(matches, n, newId, now, today);
      assert matches[..n + 1] == matches;
    }
  }

  lemma {:induction false} FailedFiltered(matches: seq<ParsedMatch>)
    ensures |FailedLabels(matches)| == |Filter(matches, (m: ParsedMatch) => m.matchDate.None?)|
  {
    if matches != [] {
      var n := |matches| - 1;
      FailedFiltered(matches[..n]);
      FilterPrefixStep(matches, n, (m: ParsedMatch) => m.matchDate.None?);
      assert matches[..n + 1] == matches;
    }
  }

  lemma {:induction false} ImportedDates(matches: seq<ParsedMatch>, newId: nat -> string, now: string, today: string)
    requires ' ' !in today
    ensures forall r :: r in Imported(matches, newId, now, today) ==> ' ' !in r.matchDate
  {
    if matches != [] {
      var n := |matches| - 1;
      ImportedDates(matches[..n], newId, now, today);
      ImportedStep(matches, n, newId, now, today);
      assert matches[..n + 1] == matches;
    }
  }

  /** `importMatches`: creates a match per dated row in the local match
      store and counts the rows that succeed and fail. The season id the
      page passes along is not stored by `Match.create`. */
  method ImportMatches(store: MatchStore, matches: seq<ParsedMatch>, newId: nat -> string, now: string, today: string,
                       toTime: string -> int)
    returns (success: nat, failed: nat, failedLabels: seq<string>)
    modifies store
    ensures success == |Imported(matches, newId, now, today)|
    ensures failedLabels == FailedLabels(matches) && failed == |failedLabels|
    ensures multiset(ReadItems(store.stored)) == multiset(ReadItems(old(store.stored))) + multiset(Imported(matches, newId, now, today))
    ensures ReadItems(store.stored) == AfterCreates(ReadItems(old(store.stored)), Imported(matches, newId, now, today), toTime)
  {
    success, failed, failedLabels := 0, 0, [];
    ghost var beforeItems := ReadItems(store.stored);
    assert matches[..0] == [];
    assert AfterCreates(beforeItems, [], toTime) == beforeItems;
    var i := 0;
    while i < |matches|
      invariant 0 <= i <= |matches|
      invariant success == |Imported(matches[..i], newId, now, today)|
      invariant failedLabels == FailedLabels(matches[..i]) && failed == |failedLabels|
      invariant ReadItems(store.stored) == AfterCreates(beforeItems, Imported(matches[..i], newId, now, today), toTime)
    {
      success, failed, failedLabels := ImportNext(store, matches, i, newId, now, today, toTime, success, failed, failedLabels, beforeItems);
      i := i + 1;
    }
    assert matches[..i] == matches;
    ghost var created := Imported(matches, newId, now, today);
    assert ReadItems(store.stored) == AfterCreates(beforeItems, created, toTime);
  }

  /** The loop body of `importMatches` for row `i`: the counts and the
      store move from the first `i` rows to the first `i + 1`. */
  method ImportNext(store: MatchStore, matches: seq<ParsedMatch>, i: nat, newId: nat -> string, now: string, today: string,
                    toTime: string -> int, success: nat, failed: nat, failedLabels: seq<string>,
                    ghost beforeItems: seq<Match>)
    returns (success': nat, failed': nat, failedLabels': seq<string>)
    requires i < |matches|
    requires success == |Imported(matches[..i], newId, now, today)|
    requires failedLabels == FailedLabels(matches[..i]) && failed == |failedLabels|
    requires ReadItems(store.stored) == AfterCreates(beforeItems, Imported(matches[..i], newId, now, today), toTime)
    modifies store
    ensures success' == |Imported(matches[..i + 1], newId, now, today)|
    ensures failedLabels' == FailedLabels(matches[..i + 1]) && failed' == |failedLabels'|
    ensures ReadItems(store.stored) == AfterCreates(beforeItems, Imported(matches[..i + 1], newId, now, today), toTime)
  {
    var match_ := matches[i];
    ImportedStep(matches, i, newId, now, today);
    ghost var front := Imported(matches[..i], newId, now, today);
    ghost var row := ImportedFor(match_, newId(success), now, today);
    assert Imported(matches[..i + 1], newId, now, today) == front + row;
    ImportRow(store, match_, newId(success), now, today, toTime);
    AfterCreatesAppend(beforeItems, front, row, toTime);
    if match_.matchDate.None? {
      success', failed', failedLabels' := success, failed + 1, failedLabels + [Label(match_)];
    } else {
      success', failed', failedLabels' := success + 1, failed, failedLabels;
    }
  }

  /** One row of `importMatches`: `Match.create` with its input, unless
      cutting the missing date throws first. */
  method ImportRow(store: MatchStore, m: ParsedMatch, id: string, now: string, today: string, toTime: string -> int)
    modifies store
    ensures multiset(ReadItems(store.stored)) ==
            multiset(ReadItems(old(store.stored))) + multiset(ImportedFor(m, id, now, today))
    ensures |ImportedFor(m, id, now, today)| == if m.matchDate.None? then 0 else 1
    ensures ReadItems(store.stored) == AfterCreates(ReadItems(old(store.stored)), ImportedFor(m, id, now, today), toTime)
  {
    match ImportInput(m) {
      case None =>
      case Some(input) =>
        var record := store.Create(input, id, now, today, toTime);
        assert [record][..0] == [];
    }
  }
}
