/** The two one-off importers of the embedded match history: the
    command-line script (scripts/import-match-data.js), which writes
    through the local player and match entities and the season entity, and
    the temporary API route (api/migrate.js), which issues SQL against the
    players, leagues and matches tables. Both parse the CSV text the same
    way and pick out the same player names. */
module SeedImport {
  import opened Wrappers
  import opened Text
  import opened Lists
  import opened Records
  import opened PlayerStore
  import opened MatchStore
  import opened LeagueTable
  import Seasons
  import CsvUpload

  // ---------------------------------------------------------------------------
  // parseMatchData
  // ---------------------------------------------------------------------------

  /** A parsed data line. A score `parseInt` cannot read is `None` (NaN). */
  datatype SeedMatch = SeedMatch(
    team1Player1: string, team1Player2: string,
    team2Player1: string, team2Player2: string,
    team1Score: Option<int>, team2Score: Option<int>, matchDate: string)

  /** The four player slots, in field order. */
  function SeedSlots(m: SeedMatch): seq<string>
  {
    [m.team1Player1, m.team1Player2, m.team2Player1, m.team2Player2]
  }

  /** No white space at either end. */
  predicate Trimmed(s: string)
  {
    s != [] ==> !IsSpace(s[0]) && !IsSpace(s[|s| - 1])
  }

  lemma {:induction false} TrimIsTrimmed(s: string, c: char)
    requires c !in s
    ensures Trimmed(Trim(s)) && c !in Trim(s)
  {
    var u := TrimStart(s);
    var t := TrimEnd(u);
    if t != [] {
      assert t[0] == u[0];
    }
    TrimAvoids(s, c);
  }

  /** The lines after the header: the trimmed text split on newlines, the
      first line dropped. */
  function DataLines(csv: string): (r: seq<string>)
    ensures |r| == Count(Trim(csv), '\n')
    ensures forall i :: 0 <= i < |r| ==> '\n' !in r[i]
  {
    var lines := Split(Trim(csv), '\n');
    assert forall i :: 0 <= i < |lines| - 1 ==> lines[1..][i] == lines[i + 1];
    lines[1..]
  }

  /** One data line. With fewer than seven comma-separated fields some
      `values[k]` the parser trims is undefined and the parse throws;
      fields past the seventh are ignored. Names and date are the trimmed
      fields, comma-free and without white space at either end; the scores
      are `parseInt` of the fifth and sixth fields. */
  function ParseLine(line: string): (r: Option<SeedMatch>)
    ensures r.Some? <==> Count(line, ',') >= 6
  {
    var v := Split(line, ',');
    if |v| < 7 then None else Some(FromFields(v))
  }

  /** The match a line's fields describe. */
  function FromFields(v: seq<string>): SeedMatch
    requires |v| >= 7
  {
    SeedMatch(Trim(v[0]), Trim(v[1]), Trim(v[2]), Trim(v[3]), ParseInt(v[4]), ParseInt(v[5]), Trim(v[6]))
  }

  /** No comma and no white space at either end. */
  predicate Clean(x: string)
  {
    Trimmed(x) && ',' !in x
  }

  /** The names and date of a parsed line are clean. */
  lemma {:induction false} FieldsClean(v: seq<string>)
    requires |v| >= 7 && forall k :: 0 <= k < |v| ==> ',' !in v[k]
    ensures var m := FromFields(v);
      Clean(m.team1Player1) && Clean(m.team1Player2) && Clean(m.team2Player1) && Clean(m.team2Player2) &&
      Clean(m.matchDate)
  {
    TrimIsTrimmed(v[0], ',');
    TrimIsTrimmed(v[1], ',');
    TrimIsTrimmed(v[2], ',');
    TrimIsTrimmed(v[3], ',');
    TrimIsTrimmed(v[6], ',');
  }

  /** Parsing line by line with `parse`: every line's result in order, or
      the index of the first line `parse` refuses. `parseMatchData` is
      this with `ParseLine`. */
  function ParseEach<T>(lines: seq<string>, parse: string -> Option<T>): (r: Result<seq<T>, nat>)
  {
    if lines == [] then Ok([])
    else
      var n := |lines| - 1;
      match ParseEach(lines[..n], parse)
      case Err(k) => Err(k)
      case Ok(ms) =>
        match parse(lines[n])
        case None => Err(n)
        case Some(m) => Ok(ms + [m])
  }

  /** The parse succeeds exactly when every line parses. */
  lemma {:induction false} ParseEachOk<T>(lines: seq<string>, parse: string -> Option<T>)
    ensures ParseEach(lines, parse).Ok? <==> forall i :: 0 <= i < |lines| ==> parse(lines[i]).Some?
  {
    if lines != [] {
      var n := |lines| - 1;
      ParseEachOk(lines[..n], parse);
      assert forall i :: 0 <= i < n ==> lines[..n][i] == lines[i];
    }
  }

  /** A successful parse has one result per line, the i-th line's. */
  lemma {:induction false} ParseEachValues<T>(lines: seq<string>, parse: string -> Option<T>)
    requires ParseEach(lines, parse).Ok?
    ensures |ParseEach(lines, parse).value| == |lines|
    ensures forall i :: 0 <= i < |lines| ==> parse(lines[i]) == Some(ParseEach(lines, parse).value[i])
  {
    if lines != [] {
      var n := |lines| - 1;
      ParseEachValues(lines[..n], parse);
      assert forall i :: 0 <= i < n ==> lines[..n][i] == lines[i];
    }
  }

  /** A failed parse names the first line refused. */
  lemma {:induction false} ParseEachError<T>(lines: seq<string>, parse: string -> Option<T>)
    requires ParseEach(lines, parse).Err?
    ensures ParseEach(lines, parse).error < |lines| && parse(lines[ParseEach(lines, parse).error]).None?
    ensures forall i :: 0 <= i < ParseEach(lines, parse).error ==> parse(lines[i]).Some?
  {
    var n := |lines| - 1;
    assert forall i :: 0 <= i < n ==> lines[..n][i] == lines[i];
    if ParseEach(lines[..n], parse).Err? {
      ParseEachError(lines[..n], parse);
    } else {
      ParseEachOk(lines[..n], parse);
    }
  }

  /** Once a line is refused, later lines change nothing. */
  lemma {:induction false} ParseEachStops<T>(lines: seq<string>, n: nat, parse: string -> Option<T>)
    requires n <= |lines| && ParseEach(lines[..n], parse).Err?
    ensures ParseEach(lines, parse) == ParseEach(lines[..n], parse)
    decreases |lines| - n
  {
    if n < |lines| {
      assert lines[..n + 1][..n] == lines[..n];
      ParseEachStops(lines, n + 1, parse);
    } else {
      assert lines[..n] == lines;
    }
  }

  /** One more line for a parse that has succeeded so far. */
  lemma {:induction false} ParseEachStep<T>(lines: seq<string>, i: nat, parse: string -> Option<T>)
    requires i < |lines| && ParseEach(lines[..i], parse).Ok?
    ensures ParseEach(lines[..i + 1], parse) ==
      if parse(lines[i]).None? then Err(i) else Ok(ParseEach(lines[..i], parse).value + [parse(lines[i]).value])
  {
    assert lines[..i + 1][..i] == lines[..i];
  }

  /** The loop of `parseMatchData`: each line parsed in turn, the result
      pushed; the first line refused ends the parse. */
  method ParseLines<T>(lines: seq<string>, parse: string -> Option<T>) returns (r: Result<seq<T>, nat>)
    ensures r == ParseEach(lines, parse)
  {
    var matches: seq<T> := [];
    var i := 0;
    while i < |lines|
      invariant 0 <= i <= |lines|
      invariant ParseEach(lines[..i], parse) == Ok(matches)
    {
      ParseEachStep(lines, i, parse);
      var m := parse(lines[i]);
      if m.None? {
        ParseEachStops(lines, i + 1, parse);
        return Err(i);
      }
      matches := matches + [m.value];
      i := i + 1;
    }
    assert lines[..i] == lines;
    r := Ok(matches);
  }

  /** `parseMatchData` (identical in the script and the API route): the
      data lines after the header, each read by `ParseLine`. */
  method ParseMatchData(csv: string) returns (r: Result<seq<SeedMatch>, nat>)
    ensures r == ParseEach(DataLines(csv), ParseLine)
  {
    r := ParseLines(DataLines(csv), ParseLine);
  }

  // ---------------------------------------------------------------------------
  // extractUniquePlayerNames
  // ---------------------------------------------------------------------------

  /** The values added to the `Set`, in order: four slots per match. */
  function SlotNames(ms: seq<SeedMatch>): (r: seq<string>)
    ensures |r| == 4 * |ms|
  {
    if ms == [] then [] else SlotNames(ms[..|ms| - 1]) + SeedSlots(ms[|ms| - 1])
  }

  lemma {:induction false} SlotNamesMembers(ms: seq<SeedMatch>)
    ensures forall x :: x in SlotNames(ms) <==> exists i :: 0 <= i < |ms| && x in SeedSlots(ms[i])
  {
    if ms != [] {
      var n := |ms| - 1;
      SlotNamesMembers(ms[..n]);
      assert forall i :: 0 <= i < n ==> ms[..n][i] == ms[i];
    }
  }

  /** The iteration order of a `Set` filled from `s`: each value once, at
      its first insertion. */
  function InsertionOrder(s: seq<string>): (r: seq<string>)
    ensures NoRepeats(r)
    ensures forall x :: x in r <==> x in s
  {
    if s == [] then []
    else
      var n := |s| - 1;
      var front := InsertionOrder(s[..n]);
      assert s == s[..n] + [s[n]];
      if s[n] in front then front else front + [s[n]]
  }

  /** One more value added to the set. */
  lemma {:induction false} InsertionOrderStep(before: seq<string>, slots: seq<string>, k: nat)
    requires k < |slots|
    ensures var seen := InsertionOrder(before + slots[..k]);
      InsertionOrder(before + slots[..k + 1]) == if slots[k] in seen then seen else seen + [slots[k]]
  {
    var s := before + slots[..k];
    assert (s + [slots[k]])[..|s|] == s;
    assert before + slots[..k + 1] == s + [slots[k]];
  }

  /** One more match's slots. */
  lemma {:induction false} SlotNamesStep(ms: seq<SeedMatch>, i: nat)
    requires i < |ms|
    ensures SlotNames(ms[..i + 1]) == SlotNames(ms[..i]) + SeedSlots(ms[i])[..4]
  {
    assert ms[..i + 1][..i] == ms[..i];
  }

  /** `name && name.trim()`. */
  predicate NonBlank(name: string)
  {
    !IsBlank(name)
  }

  /** `extractUniquePlayerNames`: the set's contents in insertion order,
      blank names dropped. */
  function UniqueNames(ms: seq<SeedMatch>): seq<string>
  {
    Filter(InsertionOrder(SlotNames(ms)), NonBlank)
  }

  /** Each non-blank name from any slot of any match, exactly once, and
      nothing else. */
  lemma {:induction false} UniqueNamesFacts(ms: seq<SeedMatch>)
    ensures NoRepeats(UniqueNames(ms))
    ensures forall x :: x in UniqueNames(ms) <==> NonBlank(x) && exists i :: 0 <= i < |ms| && x in SeedSlots(ms[i])
  {
    FilterNoRepeats(InsertionOrder(SlotNames(ms)), NonBlank);
    SlotNamesMembers(ms);
  }

  /** `extractUniquePlayerNames`, as the source runs it: the four slots of
      every match added to a set, then the blank ones filtered out. */
  method ExtractUniquePlayerNames(ms: seq<SeedMatch>) returns (names: seq<string>)
    ensures names == UniqueNames(ms)
    ensures NoRepeats(names)
    ensures forall x :: x in names <==> NonBlank(x) && exists i :: 0 <= i < |ms| && x in SeedSlots(ms[i])
  {
    var seen: seq<string> := [];
    var i := 0;
    while i < |ms|
      invariant 0 <= i <= |ms|
      invariant seen == InsertionOrder(SlotNames(ms[..i]))
    {
      var slots := SeedSlots(ms[i]);
      ghost var before := SlotNames(ms[..i]);
      var k := 0;
      assert before + slots[..0] == before;
      while k < 4
        invariant 0 <= k <= 4
        invariant seen == InsertionOrder(before + slots[..k])
      {
        InsertionOrderStep(before, slots, k);
        if slots[k] !in seen {
          seen := seen + [slots[k]];
        }
        k := k + 1;
      }
      SlotNamesStep(ms, i);
      i := i + 1;
    }
    assert ms[..i] == ms;
    names := Filter(seen, NonBlank);
    UniqueNamesFacts(ms);
  }

  // ---------------------------------------------------------------------------
  // The script: ensurePlayersExist through the local player entity
  // ---------------------------------------------------------------------------

  /** A failed `Player.create` that the script rethrows: any message not
      saying 'already exists'. */
  predicate Rethrown(failure: string -> Option<string>, name: string)
  {
    failure(name).Some? && !CsvUpload.AlreadyExists(failure(name).value)
  }

  /** The players created, the names counted as existing, and the error
      that stopped the loop, if any. */
  datatype PlayersRun = PlayersRun(created: seq<Player>, existing: seq<string>, error: Option<string>)

  /** The script's loop: each name is created; a failure saying 'already
      exists' counts the name as existing; any other failure stops the
      loop with that error. `failure(name)` is what `Player.create` throws
      for the name, if anything; `newId(k)` the id of the k-th player
      created. */
  function ScriptPlayers(names: seq<string>, failure: string -> Option<string>, newId: nat -> string, now: string)
    : (r: PlayersRun)
  {
    if names == [] then PlayersRun([], [], None)
    else
      var n := |names| - 1;
      var run := ScriptPlayers(names[..n], failure, newId, now);
      if run.error.Some? then run
      else
        match failure(names[n])
        case None => run.(created := run.created + [Player(newId(|run.created|), names[n], now)])
        case Some(message) =>
          if CsvUpload.AlreadyExists(message) then run.(existing := run.existing + [names[n]])
          else run.(error := Some(message))
  }

  /** Once the loop has stopped, later names change nothing. */
  lemma {:induction false} ScriptPlayersStops(names: seq<string>, n: nat, failure: string -> Option<string>,
                                              newId: nat -> string, now: string)
    requires n <= |names| && ScriptPlayers(names[..n], failure, newId, now).error.Some?
    ensures ScriptPlayers(names, failure, newId, now) == ScriptPlayers(names[..n], failure, newId, now)
    decreases |names| - n
  {
    if n < |names| {
      assert names[..n + 1][..n] == names[..n];
      ScriptPlayersStops(names, n + 1, failure, newId, now);
    } else {
      assert names[..n] == names;
    }
  }

  /** The loop completes exactly when no name's failure is rethrown; then
      every name is either created or existing. Otherwise the error is
      the first rethrown failure, and every name before it was counted. */
  lemma {:induction false} ScriptPlayersOutcome(names: seq<string>, failure: string -> Option<string>,
                                                newId: nat -> string, now: string)
    ensures var r := ScriptPlayers(names, failure, newId, now);
      r.error.None? <==> forall i :: 0 <= i < |names| ==> !Rethrown(failure, names[i])
    ensures var r := ScriptPlayers(names, failure, newId, now);
      r.error.None? ==> |r.created| + |r.existing| == |names|
    ensures var r := ScriptPlayers(names, failure, newId, now);
      r.error.Some? ==> exists i :: (0 <= i < |names| && Rethrown(failure, names[i]) &&
        failure(names[i]) == r.error && |r.created| + |r.existing| == i &&
        forall j :: 0 <= j < i ==> !Rethrown(failure, names[j]))
  {
    if names != [] {
      var n := |names| - 1;
      var front := names[..n];
      ScriptPlayersOutcome(front, failure, newId, now);
      assert forall i :: 0 <= i < n ==> front[i] == names[i];
      var run := ScriptPlayers(front, failure, newId, now);
      if run.error.Some? {
        var i :| 0 <= i < n && Rethrown(failure, front[i]) && failure(front[i]) == run.error &&
                 |run.created| + |run.existing| == i && forall j :: 0 <= j < i ==> !Rethrown(failure, front[j]);
        assert Rethrown(failure, names[i]);
      } else if Rethrown(failure, names[n]) {
        assert forall j :: 0 <= j < n ==> !Rethrown(failure, names[j]);
      }
    }
  }

  /** Every created player has the next id and a name whose write
      succeeded; every existing name was refused as already present. */
  lemma {:induction false} ScriptPlayersRecords(names: seq<string>, failure: string -> Option<string>,
                                                newId: nat -> string, now: string)
    ensures var r := ScriptPlayers(names, failure, newId, now);
      forall k :: 0 <= k < |r.created| ==>
        r.created[k].id == newId(k) && r.created[k].name in names && failure(r.created[k].name).None? &&
        r.created[k].createdAt == now
    ensures var r := ScriptPlayers(names, failure, newId, now);
      forall x :: x in r.existing ==> x in names && failure(x).Some? && CsvUpload.AlreadyExists(failure(x).value)
  {
    if names != [] {
      var n := |names| - 1;
      ScriptPlayersRecords(names[..n], failure, newId, now);
      assert forall x :: x in names[..n] ==> x in names;
    }
  }

  /** The script's `ensurePlayersExist`: each name is created in the local
      player store; the store gains exactly the created players, in order,
      even when a later failure stops the loop. */
  method ScriptEnsurePlayersExist(store: PlayerStore, names: seq<string>, newId: nat -> string, now: string,
                                  failure: string -> Option<string>)
    returns (run: PlayersRun)
    modifies store
    ensures run == ScriptPlayers(names, failure, newId, now)
    ensures store.List() == old(store.List()) + run.created
  {
    run := PlayersRun([], [], None);
    var i := 0;
    while i < |names|
      invariant 0 <= i <= |names|
      invariant run == ScriptPlayers(names[..i], failure, newId, now) && run.error.None?
      invariant store.List() == old(store.List()) + run.created
    {
      var name := names[i];
      assert names[..i + 1][..i] == names[..i];
      match failure(name) {
        case None =>
          var player := store.Create(name, newId(|run.created|), now);
          run := run.(created := run.created + [player]);
        case Some(message) =>
          if CsvUpload.AlreadyExists(message) {
            run := run.(existing := run.existing + [name]);
          } else {
            run := run.(error := Some(message));
            ScriptPlayersStops(names, i + 1, failure, newId, now);
            return;
          }
      }
      i := i + 1;
    }
    assert names[..i] == names;
  }

  // ---------------------------------------------------------------------------
  // ensureMigrationSeason, both versions
  // ---------------------------------------------------------------------------

  const MigrationSeasonName := "Migration Season 2025"
  const MigrationSeasonDescription := "Imported data from previous system"
  const MigrationSeasonStart := "2025-07-01"

  /** With no active row, clearing every flag changes nothing. */
  lemma {:induction false} NoneActiveUnchanged(rows: seq<LeagueRow>)
    requires ActiveCount(rows) == 0
    ensures Deactivated(rows) == rows
  {
    assert forall i :: 0 <= i < |rows| ==> rows[i].(isActive := false) == rows[i];
  }

  /** The script's `ensureMigrationSeason`: the active season when there is
      one, the table untouched; otherwise `Season.create` of an active
      'Migration Season 2025', which fails only when the insert does
      (`insertError`). Either way a returned season is active and in the
      table. */
  method ScriptEnsureMigrationSeason(t: LeagueTable, today: string, now: string, toTime: string -> int,
                                     insertError: Option<string>)
    returns (r: Result<LeagueRow, string>)
    requires t.Valid()
    modifies t
    ensures t.Valid()
    ensures r.Ok? ==> r.value in t.rows && r.value.isActive
    ensures ActiveCount(old(t.rows)) > 0 ==> r == Ok(FirstActive(old(t.rows)).value) && t.rows == old(t.rows)
    ensures ActiveCount(old(t.rows)) == 0 && insertError.None? ==>
      r.Ok? && r.value.name == MigrationSeasonName && r.value.description == MigrationSeasonDescription &&
      !r.value.isLocked && t.rows == old(t.rows) + [r.value] && ActiveCount(t.rows) == 1
    ensures ActiveCount(old(t.rows)) == 0 && insertError.Some? ==>
      r == Err(DuplicateNameError(insertError.value, "season")) && t.rows == old(t.rows)
  {
    var active := t.GetActive();
    if active.Some? {
      return Ok(active.value);
    }
    NoneActiveUnchanged(t.rows);
    r := Seasons.Create(t, Seasons.SeasonInput(MigrationSeasonName, MigrationSeasonDescription,
                                               MigrationSeasonStart, "", BoolFlag(true)),
                        today, now, toTime, insertError);
  }

  /** The route's `ensureMigrationSeason`: the first active row of the
      leagues table, untouched; otherwise the insert of an active
      'Migration Season 2025' row, whose failure (`insertError`) is thrown
      as it is and leaves the table untouched. The insert clears no flag,
      and with no row active the table-wide clear `leagues.create`
      performs is the identity. */
  method ApiEnsureMigrationSeason(t: LeagueTable, now: string, insertError: Option<string>)
    returns (r: Result<LeagueRow, string>)
    requires t.Valid()
    modifies t
    ensures t.Valid()
    ensures r.Ok? ==> r.value in t.rows && r.value.isActive
    ensures ActiveCount(old(t.rows)) > 0 ==>
      FirstActive(old(t.rows)).Some? && r == Ok(FirstActive(old(t.rows)).value) && t.rows == old(t.rows)
    ensures ActiveCount(old(t.rows)) == 0 && insertError.None? ==>
      r == Ok(LeagueRow(old(t.nextId), MigrationSeasonName, MigrationSeasonDescription, true, false, None, now)) &&
      t.rows == old(t.rows) + [r.value]
    ensures ActiveCount(old(t.rows)) == 0 && insertError.Some? ==>
      r == Err(insertError.value) && t.rows == old(t.rows)
  {
    var active := t.GetActive();
    if active.Some? {
      return Ok(active.value);
    }
    if insertError.Some? {
      return Err(insertError.value);
    }
    NoneActiveUnchanged(t.rows);
    var season := t.Create(MigrationSeasonName, MigrationSeasonDescription, true, now);
    r := Ok(season);
  }

  // ---------------------------------------------------------------------------
  // importMatches, both versions
  // ---------------------------------------------------------------------------

  /** The label of a match that failed to import. */
  function Label(m: SeedMatch): string
  {
    m.team1Player1 + "+" + m.team1Player2 + " vs " + m.team2Player1 + "+" + m.team2Player2
  }

  datatype ImportError = ImportError(teams: string, message: string)

  /** The counters and the error list both versions keep. */
  datatype ImportRun = ImportRun(success: nat, failed: nat, errors: seq<ImportError>)

  /** The counters after every match: the i-th write either succeeds or
      fails with `failure(i)`, which is recorded with the match's label. */
  function ImportTally(ms: seq<SeedMatch>, failure: nat -> Option<string>): (r: ImportRun)
  {
    if ms == [] then ImportRun(0, 0, [])
    else
      var n := |ms| - 1;
      Tallied(ImportTally(ms[..n], failure), ms[n], failure(n))
  }

  /** The counters after one more write of `m`, with its outcome. */
  function Tallied(run: ImportRun, m: SeedMatch, outcome: Option<string>): ImportRun
  {
    match outcome
    case None => run.(success := run.success + 1)
    case Some(e) => run.(failed := run.failed + 1, errors := run.errors + [ImportError(Label(m), e)])
  }

  /** One more match for the counters. */
  lemma {:induction false} TallyStep(ms: seq<SeedMatch>, i: nat, failure: nat -> Option<string>)
    requires i < |ms|
    ensures ImportTally(ms[..i + 1], failure) == Tallied(ImportTally(ms[..i], failure), ms[i], failure(i))
  {
    assert ms[..i + 1][..i] == ms[..i];
  }

  /** Number of positions below `n` whose write fails. */
  function Failures(n: nat, failure: nat -> Option<string>): (c: nat)
    ensures c <= n
  {
    if n == 0 then 0 else Failures(n - 1, failure) + (if failure(n - 1).Some? then 1 else 0)
  }

  /** Every match is counted once: as a success, or as a failure with one
      error entry naming it and carrying its write's error. */
  lemma {:induction false} ImportTallyFacts(ms: seq<SeedMatch>, failure: nat -> Option<string>)
    ensures var r := ImportTally(ms, failure);
      r.success + r.failed == |ms| && |r.errors| == r.failed && r.failed == Failures(|ms|, failure)
    ensures var r := ImportTally(ms, failure);
      forall e :: e in r.errors ==> exists i :: 0 <= i < |ms| && failure(i) == Some(e.message) && e.teams == Label(ms[i])
  {
    if ms != [] {
      var n := |ms| - 1;
      ImportTallyFacts(ms[..n], failure);
      assert forall i :: 0 <= i < n ==> ms[..n][i] == ms[i];
    }
  }

  /** `matchDate.split(' ')[0]` when the date holds a space, else the
      date: the longest prefix without a space. */
  function DatePart(d: string): (r: string)
    ensures ' ' !in r && r <= d
    ensures ' ' !in d ==> r == d
    ensures |r| < |d| ==> d[|r|] == ' '
  {
    if ' ' in d then BeforeFirst(d, ' ') else d
  }

  /** The cut is the first piece of the split on a space. */
  lemma {:induction false} DatePartIsSplit(d: string)
    ensures DatePart(d) == if ' ' in d then Split(d, ' ')[0] else d
  {
    BeforeFirstIsSplit(d, ' ');
  }

  /** A score `parseInt` could not read, as the local store keeps it. */
  function StoredScore(o: Option<int>): int
  {
    if o.Some? then o.value else 0
  }

  /** What the script hands `Match.create`: the names, the scores and the
      date part. The season id the script passes along is not a field
      `Match.create` copies. */
  function StoreInput(m: SeedMatch): (r: MatchInput)
    ensures [r.team1Player1, r.team1Player2, r.team2Player1, r.team2Player2] == SeedSlots(m)
    ensures r.matchDate == DatePart(m.matchDate)
    ensures m.team1Score.Some? ==> r.team1Score == m.team1Score.value
    ensures m.team2Score.Some? ==> r.team2Score == m.team2Score.value
  {
    MatchInput(m.team1Player1, m.team1Player2, m.team2Player1, m.team2Player2,
               StoredScore(m.team1Score), StoredScore(m.team2Score), DatePart(m.matchDate))
  }

  /** The records the script's writes add to the local match store. */
  function ScriptRecords(ms: seq<SeedMatch>, failure: nat -> Option<string>, newId: nat -> string,
                         now: string, today: string): seq<Match>
  {
    if ms == [] then []
    else
      var n := |ms| - 1;
      var front := ScriptRecords(ms[..n], failure, newId, now, today);
      front + ScriptRecordFor(ms[n], failure(n), newId(|front|), now, today)
  }

  /** The record one `Match.create` adds: none when it throws. */
  function ScriptRecordFor(m: SeedMatch, outcome: Option<string>, id: string, now: string, today: string): seq<Match>
  {
    if outcome.None? then [NewRecord(StoreInput(m), id, now, today)] else []
  }

  /** One record per successful write; the k-th has the k-th id, the
      write time, and a date without a time part (or today's date, when
      the date part is empty). */
  lemma {:induction false} ScriptRecordsFacts(ms: seq<SeedMatch>, failure: nat -> Option<string>, newId: nat -> string,
                                              now: string, today: string)
    ensures |ScriptRecords(ms, failure, newId, now, today)| == ImportTally(ms, failure).success
    ensures var r := ScriptRecords(ms, failure, newId, now, today);
      forall k :: 0 <= k < |r| ==>
        r[k].id == newId(k) && r[k].createdDate == now && (' ' !in r[k].matchDate || r[k].matchDate == today)
  {
    if ms != [] {
      var n := |ms| - 1;
      ScriptRecordsFacts(ms[..n], failure, newId, now, today);
      var front := ScriptRecords(ms[..n], failure, newId, now, today);
      assert ms[..n + 1] == ms;
      TallyStep(ms, n, failure);
      if failure(n).None? {
        var input := StoreInput(ms[n]);
        var last := NewRecord(input, newId(|front|), now, today);
        assert ' ' !in input.matchDate;
        var r := front + [last];
        assert ScriptRecords(ms, failure, newId, now, today) == r;
        forall k | 0 <= k < |r|
          ensures r[k].id == newId(k) && r[k].createdDate == now && (' ' !in r[k].matchDate || r[k].matchDate == today)
        {
          if k < |front| {
            assert r[k] == front[k];
          }
        }
      }
    }
  }

  /** One more match: its record is appended when its write succeeds. */
  lemma {:induction false} ScriptRecordsStep(ms: seq<SeedMatch>, i: nat, failure: nat -> Option<string>, newId: nat -> string,
                          now: string, today: string)
    requires i < |ms|
    ensures var before := ScriptRecords(ms[..i], failure, newId, now, today);
      ScriptRecords(ms[..i + 1], failure, newId, now, today) ==
        before + ScriptRecordFor(ms[i], failure(i), newId(|before|), now, today)
  {
    assert ms[..i + 1][..i] == ms[..i];
  }

  /** One `Match.create`, or its failure: the store gains the new record
      and loses none, or is left as it was. */
  method ScriptCreate(store: MatchStore, m: SeedMatch, outcome: Option<string>, id: string, now: string,
                      today: string, toTime: string -> int)
    modifies store
    ensures multiset(ReadItems(store.stored)) ==
            multiset(ReadItems(old(store.stored))) + multiset(ScriptRecordFor(m, outcome, id, now, today))
    ensures ReadItems(store.stored) == AfterCreates(ReadItems(old(store.stored)), ScriptRecordFor(m, outcome, id, now, today), toTime)
  {
    if outcome.None? {
      var record := store.Create(StoreInput(m), id, now, today, toTime);
      assert [record][..0] == [];
    }
  }

  /** The script's `importMatches`: `Match.create` for each match in turn,
      `failure(i)` being what it throws for the i-th, if anything. The
      store gains exactly the records of the writes that succeed (it
      re-sorts on every write and appends, so the final order is that
      of `AfterCreates`). */
  method ScriptImportMatches(store: MatchStore, ms: seq<SeedMatch>, failure: nat -> Option<string>,
                             newId: nat -> string, now: string, today: string, toTime: string -> int)
    returns (run: ImportRun)
    modifies store
    ensures run == ImportTally(ms, failure)
    ensures multiset(ReadItems(store.stored)) ==
            multiset(ReadItems(old(store.stored))) + multiset(ScriptRecords(ms, failure, newId, now, today))
    ensures ReadItems(store.stored) == AfterCreates(ReadItems(old(store.stored)), ScriptRecords(ms, failure, newId, now, today), toTime)
  {
    run := ImportRun(0, 0, []);
    ghost var records: seq<Match> := [];
    ghost var beforeItems := ReadItems(store.stored);
    assert ms[..0] == [];
    assert AfterCreates(beforeItems, [], toTime) == beforeItems;
    var i := 0;
    while i < |ms|
      invariant 0 <= i <= |ms|
      invariant run == ImportTally(ms[..i], failure)
      invariant records == ScriptRecords(ms[..i], failure, newId, now, today) && |records| == run.success
      invariant ReadItems(store.stored) == AfterCreates(beforeItems, records, toTime)
    {
      run, records := ScriptImportNext(store, ms, i, failure, newId, now, today, toTime, run, records, beforeItems);
      i := i + 1;
    }
    assert ms[..i] == ms;
    assert ReadItems(store.stored) == AfterCreates(beforeItems, ScriptRecords(ms, failure, newId, now, today), toTime);
  }

  /** The loop body of the script's `importMatches` for match `i`: the
      counters, the records and the store move from the first `i` matches
      to the first `i + 1`. */
  method ScriptImportNext(store: MatchStore, ms: seq<SeedMatch>, i: nat, failure: nat -> Option<string>,
                          newId: nat -> string, now: string, today: string, toTime: string -> int,
                          run: ImportRun, ghost records: seq<Match>, ghost beforeItems: seq<Match>)
    returns (run': ImportRun, ghost records': seq<Match>)
    requires i < |ms|
    requires run == ImportTally(ms[..i], failure)
    requires records == ScriptRecords(ms[..i], failure, newId, now, today) && |records| == run.success
    requires ReadItems(store.stored) == AfterCreates(beforeItems, records, toTime)
    modifies store
    ensures run' == ImportTally(ms[..i + 1], failure)
    ensures records' == ScriptRecords(ms[..i + 1], failure, newId, now, today) && |records'| == run'.success
    ensures records' == records + ScriptRecordFor(ms[i], failure(i), newId(run.success), now, today)
    ensures ReadItems(store.stored) == AfterCreates(beforeItems, records', toTime)
  {
    ScriptRecordsStep(ms, i, failure, newId, now, today);
    TallyStep(ms, i, failure);
    ghost var written := ScriptRecordFor(ms[i], failure(i), newId(run.success), now, today);
    ScriptCreate(store, ms[i], failure(i), newId(run.success), now, today, toTime);
    AfterCreatesAppend(beforeItems, records, written, toTime);
    records' := records + written;
    run' := Tallied(run, ms[i], failure(i));
  }

  /** The error PostgreSQL raises when a NaN score reaches an integer column. */
  const NaNRejected := "invalid input syntax for type integer: \"NaN\""

  /** The columns the route's INSERT binds; none when a score is NaN. */
  function ApiColumns(m: SeedMatch): (r: Option<MatchColumns>)
    ensures r.Some? <==> m.team1Score.Some? && m.team2Score.Some?
    ensures r.Some? ==>
      [r.value.team1Player1, r.value.team1Player2, r.value.team2Player1, r.value.team2Player2] == SeedSlots(m) &&
      r.value.team1Score == m.team1Score.value && r.value.team2Score == m.team2Score.value &&
      r.value.matchDate == DatePart(m.matchDate)
  {
    if m.team1Score.Some? && m.team2Score.Some? then
      Some(MatchColumns(m.team1Player1, m.team1Player2, m.team2Player1, m.team2Player2,
                        m.team1Score.value, m.team2Score.value, DatePart(m.matchDate)))
    else None
  }

  /** How the i-th INSERT fails: on a NaN score, else as the database
      reports (`dbError(i)`, a lost connection say). */
  function ApiRejections(ms: seq<SeedMatch>, dbError: nat -> Option<string>): nat -> Option<string>
  {
    (i: nat) => if i < |ms| && ApiColumns(ms[i]).None? then Some(NaNRejected) else dbError(i)
  }

  /** The columns of the route's successful inserts, in order. */
  function ApiInserted(ms: seq<SeedMatch>, dbError: nat -> Option<string>): seq<MatchColumns>
  {
    if ms == [] then []
    else
      var n := |ms| - 1;
      ApiInserted(ms[..n], dbError) + ApiInsertedFor(ms[n], dbError(n))
  }

  /** What one INSERT adds: nothing when a score is NaN or the database
      reports an error. */
  function ApiInsertedFor(m: SeedMatch, dbErr: Option<string>): seq<MatchColumns>
  {
    var c := ApiColumns(m);
    if c.Some? && dbErr.None? then [c.value] else []
  }

  /** The rows for inserted columns, their ids drawn from the sequence
      from `nextId` on. */
  function Numbered(cs: seq<MatchColumns>, seasonId: int, nextId: nat, now: string): (r: seq<MatchRow>)
  {
    seq(|cs|, k requires 0 <= k < |cs| =>
      MatchRow(nextId + k, seasonId, cs[k].team1Player1, cs[k].team1Player2, cs[k].team2Player1,
               cs[k].team2Player2, cs[k].team1Score, cs[k].team2Score, cs[k].matchDate, now))
  }

  /** Numbering two runs of inserts is numbering the first and then the
      second from where the first stopped. */
  lemma {:induction false} NumberedAppend(cs: seq<MatchColumns>, ds: seq<MatchColumns>, seasonId: int, nextId: nat,
                                          now: string)
    ensures Numbered(cs + ds, seasonId, nextId, now) ==
            Numbered(cs, seasonId, nextId, now) + Numbered(ds, seasonId, nextId + |cs|, now)
  {
    var l, a, b := Numbered(cs + ds, seasonId, nextId, now), Numbered(cs, seasonId, nextId, now),
                   Numbered(ds, seasonId, nextId + |cs|, now);
    forall k | 0 <= k < |l|
      ensures l[k] == (a + b)[k]
    {
      if k >= |cs| {
        assert (cs + ds)[k] == ds[k - |cs|];
      }
    }
  }

  /** The rows the route's inserts add to the matches table. */
  function ApiRows(ms: seq<SeedMatch>, dbError: nat -> Option<string>, seasonId: int, nextId: nat, now: string)
    : seq<MatchRow>
  {
    Numbered(ApiInserted(ms, dbError), seasonId, nextId, now)
  }

  /** The rows added are as many as the successes, numbered on from the
      sequence, all in the migration season, with dates free of a time
      part; a NaN score always fails. */
  lemma {:induction false} ApiRowsFacts(ms: seq<SeedMatch>, dbError: nat -> Option<string>, seasonId: int,
                                        nextId: nat, now: string)
    ensures var r := ApiRows(ms, dbError, seasonId, nextId, now);
      |r| == ImportTally(ms, ApiRejections(ms, dbError)).success
    ensures var r := ApiRows(ms, dbError, seasonId, nextId, now);
      forall k :: 0 <= k < |r| ==> r[k].id == nextId + k && r[k].leagueId == seasonId && ' ' !in r[k].matchDate
    ensures forall i :: 0 <= i < |ms| && ApiColumns(ms[i]).None? ==> ApiRejections(ms, dbError)(i) == Some(NaNRejected)
  {
    InsertedFacts(ms, dbError);
  }

  /** One inserted column set per success, each with a date free of a
      time part. */
  lemma {:induction false} InsertedFacts(ms: seq<SeedMatch>, dbError: nat -> Option<string>)
    ensures |ApiInserted(ms, dbError)| == ImportTally(ms, ApiRejections(ms, dbError)).success
    ensures forall c :: c in ApiInserted(ms, dbError) ==> ' ' !in c.matchDate
  {
    if ms != [] {
      var n := |ms| - 1;
      InsertedFacts(ms[..n], dbError);
      assert ImportTally(ms[..n], ApiRejections(ms[..n], dbError)) == ImportTally(ms[..n], ApiRejections(ms, dbError)) by {
        TallyAgrees(ms[..n], ApiRejections(ms[..n], dbError), ApiRejections(ms, dbError));
      }
      assert ms[..n + 1] == ms;
      TallyStep(ms, n, ApiRejections(ms, dbError));
      RejectionAt(ms, n, dbError);
    }
  }

  /** The tally reads the failure function only below the length. */
  lemma {:induction false} TallyAgrees(ms: seq<SeedMatch>, f: nat -> Option<string>, g: nat -> Option<string>)
    requires forall i :: 0 <= i < |ms| ==> f(i) == g(i)
    ensures ImportTally(ms, f) == ImportTally(ms, g)
  {
    if ms != [] {
      TallyAgrees(ms[..|ms| - 1], f, g);
    }
  }

  /** One more match for the route: its columns are added when its
      insert succeeds. */
  lemma {:induction false} ApiStep(ms: seq<SeedMatch>, i: nat, dbError: nat -> Option<string>)
    requires i < |ms|
    ensures ApiInserted(ms[..i + 1], dbError) == ApiInserted(ms[..i], dbError) + ApiInsertedFor(ms[i], dbError(i))
  {
    assert ms[..i + 1][..i] == ms[..i];
  }

  /** The i-th insert's failure, read off the match and the database. */
  lemma {:induction false} RejectionAt(ms: seq<SeedMatch>, i: nat, dbError: nat -> Option<string>)
    requires i < |ms|
    ensures ApiRejections(ms, dbError)(i) == if ApiColumns(ms[i]).None? then Some(NaNRejected) else dbError(i)
  {
  }

  /** One INSERT of the route's loop: it fails on a NaN score or with the
      database's error, and otherwise adds the match's row. */
  method ApiInsert(t: MatchTable, m: SeedMatch, seasonId: int, dbErr: Option<string>, now: string)
    returns (outcome: Option<string>)
    modifies t
    ensures outcome == if ApiColumns(m).None? then Some(NaNRejected) else dbErr
    ensures t.rows == old(t.rows) + Numbered(ApiInsertedFor(m, dbErr), seasonId, old(t.nextId), now)
    ensures t.nextId == old(t.nextId) + |ApiInsertedFor(m, dbErr)|
  {
    var c := ApiColumns(m);
    if c.None? {
      outcome := Some(NaNRejected);
    } else if dbErr.Some? {
      outcome := dbErr;
    } else {
      var row := t.Create(seasonId, c.value, now);
      assert [row] == Numbered([c.value], seasonId, old(t.nextId), now);
      outcome := None;
    }
  }

  /** The route's `importMatches`: one INSERT per match in turn, into the
      migration season; a failed insert is counted and recorded and the
      loop goes on. */
  method ApiImportMatches(t: MatchTable, ms: seq<SeedMatch>, seasonId: int, dbError: nat -> Option<string>,
                          now: string)
    returns (run: ImportRun)
    modifies t
    ensures run == ImportTally(ms, ApiRejections(ms, dbError))
    ensures t.rows == old(t.rows) + ApiRows(ms, dbError, seasonId, old(t.nextId), now)
    ensures t.nextId == old(t.nextId) + |ApiRows(ms, dbError, seasonId, old(t.nextId), now)|
  {
    run := ImportRun(0, 0, []);
    ghost var rows0, id0 := t.rows, t.nextId;
    ghost var inserted: seq<MatchColumns> := [];
    ghost var rejections := ApiRejections(ms, dbError);
    var i := 0;
    while i < |ms|
      invariant 0 <= i <= |ms|
      invariant run == ImportTally(ms[..i], rejections)
      invariant inserted == ApiInserted(ms[..i], dbError)
      invariant t.rows == rows0 + Numbered(inserted, seasonId, id0, now) && t.nextId == id0 + |inserted|
    {
      ApiStep(ms, i, dbError);
      TallyStep(ms, i, rejections);
      RejectionAt(ms, i, dbError);
      ghost var more := ApiInsertedFor(ms[i], dbError(i));
      NumberedAppend(inserted, more, seasonId, id0, now);
      var outcome := ApiInsert(t, ms[i], seasonId, dbError(i), now);
      inserted := inserted + more;
      run := Tallied(run, ms[i], outcome);
      i := i + 1;
    }
    assert ms[..i] == ms;
  }

  // ---------------------------------------------------------------------------
  // The route: ensurePlayersExist against the players table
  // ---------------------------------------------------------------------------

  /** A row of `players`. */
  datatype PlayerRow = PlayerRow(id: nat, name: string, createdDate: string)

  function RowNames(rows: seq<PlayerRow>): (r: seq<string>)
    ensures |r| == |rows| && forall i :: 0 <= i < |rows| ==> r[i] == rows[i].name
  {
    seq(|rows|, i requires 0 <= i < |rows| => rows[i].name)
  }

  lemma {:induction false} RowNamesAppend(a: seq<PlayerRow>, b: seq<PlayerRow>)
    ensures RowNames(a + b) == RowNames(a) + RowNames(b)
  {
  }

  /** The rows with exactly the given name, in table order. */
  function RowsNamed(rows: seq<PlayerRow>, name: string): (r: seq<PlayerRow>)
    ensures |r| > 0 <==> name in RowNames(rows)
    ensures forall p :: p in r <==> p in rows && p.name == name
  {
    if rows == [] then []
    else
      var n := |rows| - 1;
      RowNamesAppend(rows[..n], [rows[n]]);
      assert rows == rows[..n] + [rows[n]];
      RowsNamed(rows[..n], name) + if rows[n].name == name then [rows[n]] else []
  }

  /** The players table, with its id sequence. */
  class PlayerTable {
    var rows: seq<PlayerRow>
    var nextId: nat

    constructor ()
      ensures rows == [] && nextId == 1
    {
      rows := [];
      nextId := 1;
    }

    /** `SELECT id FROM players WHERE name = $1`: the rows with exactly
        that name (a case-sensitive comparison). */
    function Named(name: string): (r: seq<PlayerRow>)
      reads this
      ensures |r| > 0 <==> name in RowNames(rows)
      ensures forall p :: p in r <==> p in rows && p.name == name
    {
      RowsNamed(rows, name)
    }

    /** `INSERT INTO players (name, created_date) .. RETURNING id, name`. */
    method Insert(name: string, now: string) returns (row: PlayerRow)
      modifies this
      ensures row == PlayerRow(old(nextId), name, now)
      ensures rows == old(rows) + [row] && nextId == old(nextId) + 1
    {
      row := PlayerRow(nextId, name, now);
      rows := rows + [row];
      nextId := nextId + 1;
    }
  }

  datatype ApiPlayers = ApiPlayers(created: seq<PlayerRow>, existing: seq<string>)

  /** The route's loop over the names: a name is existing when the table,
      with the rows inserted for earlier names, has a row of that name;
      otherwise a row is inserted for it. */
  function ApiEnsure(rows: seq<PlayerRow>, nextId: nat, names: seq<string>, now: string): (r: ApiPlayers)
  {
    if names == [] then ApiPlayers([], [])
    else
      var n := |names| - 1;
      ApiNext(rows, nextId, ApiEnsure(rows, nextId, names[..n], now), names[n], now)
  }

  /** One name of the route's loop, after the names before it gave `p`. */
  function ApiNext(rows: seq<PlayerRow>, nextId: nat, p: ApiPlayers, name: string, now: string): ApiPlayers
  {
    if name in RowNames(rows + p.created) then p.(existing := p.existing + [name])
    else p.(created := p.created + [PlayerRow(nextId + |p.created|, name, now)])
  }

  /** Every name is either created or existing; the created rows are
      numbered on from the sequence; a name gets a row exactly when it is
      one of the names and no row had it before. For names without
      repeats (what `extractUniquePlayerNames` yields), a name is existing
      exactly when a row had it before. */
  lemma {:induction false} ApiEnsureFacts(rows: seq<PlayerRow>, nextId: nat, names: seq<string>, now: string)
    ensures var p := ApiEnsure(rows, nextId, names, now);
      |p.created| + |p.existing| == |names|
    ensures var p := ApiEnsure(rows, nextId, names, now);
      forall k :: 0 <= k < |p.created| ==> p.created[k].id == nextId + k && p.created[k].createdDate == now
    ensures var p := ApiEnsure(rows, nextId, names, now);
      forall x :: x in RowNames(p.created) <==> x in names && x !in RowNames(rows)
    ensures var p := ApiEnsure(rows, nextId, names, now);
      NoRepeats(names) ==> forall x :: x in p.existing <==> x in names && x in RowNames(rows)
  {
    if names != [] {
      var n := |names| - 1;
      var front := names[..n];
      var x := names[n];
      ApiEnsureFacts(rows, nextId, front, now);
      var p := ApiEnsure(rows, nextId, front, now);
      RowNamesAppend(rows, p.created);
      assert names == front + [x];
      assert forall y :: y in names <==> y in front || y == x;
      if x !in RowNames(rows + p.created) {
        RowNamesAppend(p.created, [PlayerRow(nextId + |p.created|, x, now)]);
        assert RowNames(ApiEnsure(rows, nextId, names, now).created) == RowNames(p.created) + [x];
      } else {
        assert ApiEnsure(rows, nextId, names, now).created == p.created;
      }
      if NoRepeats(names) {
        assert NoRepeats(front);
        assert x !in front;
      }
    }
  }

  /** One more name for the route's loop. */
  lemma {:induction false} ApiEnsureStep(rows: seq<PlayerRow>, nextId: nat, names: seq<string>, i: nat, now: string)
    requires i < |names|
    ensures ApiEnsure(rows, nextId, names[..i + 1], now) ==
      ApiNext(rows, nextId, ApiEnsure(rows, nextId, names[..i], now), names[i], now)
  {
    assert names[..i + 1][..i] == names[..i];
  }

  /** The first position below `n` whose database call fails, else `n`. */
  function FirstError(n: nat, dbError: nat -> Option<string>): (k: nat)
    ensures k <= n && (k < n ==> dbError(k).Some?)
    ensures forall j :: 0 <= j < k ==> dbError(j).None?
  {
    if n == 0 then 0
    else if FirstError(n - 1, dbError) < n - 1 then FirstError(n - 1, dbError)
    else if dbError(n - 1).Some? then n - 1
    else n
  }

  /** The error `ensurePlayersExist` rethrows for a name. */
  function PlayerError(name: string, message: string): string
  {
    "Failed to create player " + name + ": " + message
  }

  /** The body of the route's loop for one name: look the name up, insert
      a row when none is found; a failing database call (`err`) changes
      nothing and is rethrown with the name. */
  method ApiEnsureName(db: PlayerTable, name: string, now: string, err: Option<string>,
                       created: seq<PlayerRow>, existing: seq<string>,
                       ghost rows0: seq<PlayerRow>, ghost id0: nat)
    returns (created': seq<PlayerRow>, existing': seq<string>, failed: Option<string>)
    requires db.rows == rows0 + created && db.nextId == id0 + |created|
    modifies db
    ensures err.Some? ==> failed == Some(PlayerError(name, err.value)) &&
                          created' == created && existing' == existing
    ensures err.None? ==>
      failed.None? && ApiPlayers(created', existing') == ApiNext(rows0, id0, ApiPlayers(created, existing), name, now)
    ensures db.rows == rows0 + created' && db.nextId == id0 + |created'|
  {
    if err.Some? {
      return created, existing, Some(PlayerError(name, err.value));
    }
    failed := None;
    if |db.Named(name)| > 0 {
      created', existing' := created, existing + [name];
    } else {
      var row := db.Insert(name, now);
      created', existing' := created + [row], existing;
    }
  }

  /** The route's `ensurePlayersExist`: one lookup per name, an insert
      when the lookup finds no row; the first failing database call
      (`dbError` of the name's position) ends the loop with the error
      rethrown, the rows inserted for the names before it kept. */
  method ApiEnsurePlayersExist(db: PlayerTable, names: seq<string>, now: string, dbError: nat -> Option<string>)
    returns (r: Result<ApiPlayers, string>)
    modifies db
    ensures var k := FirstError(|names|, dbError);
      var p := ApiEnsure(old(db.rows), old(db.nextId), names[..k], now);
      db.rows == old(db.rows) + p.created && db.nextId == old(db.nextId) + |p.created| &&
      (k == |names| ==> r == Ok(p)) &&
      (k < |names| ==> r == Err(PlayerError(names[k], dbError(k).value)))
  {
    var created, existing := [], [];
    ghost var rows0, id0 := db.rows, db.nextId;
    var i := 0;
    while i < |names|
      invariant 0 <= i <= |names|
      invariant forall j :: 0 <= j < i ==> dbError(j).None?
      invariant ApiPlayers(created, existing) == ApiEnsure(rows0, id0, names[..i], now)
      invariant db.rows == rows0 + created && db.nextId == id0 + |created|
    {
      ApiEnsureStep(rows0, id0, names, i, now);
      var failed;
      created, existing, failed := ApiEnsureName(db, names[i], now, dbError(i), created, existing, rows0, id0);
      if failed.Some? {
        FirstErrorAt(|names|, i, dbError);
        return Err(failed.value);
      }
      i := i + 1;
    }
    FirstErrorAt(|names|, |names|, dbError);
    assert names[..i] == names;
    r := Ok(ApiPlayers(created, existing));
  }

  /** The first failing position is the one below which none fails. */
  lemma {:induction false} FirstErrorAt(n: nat, k: nat, dbError: nat -> Option<string>)
    requires k <= n && (k < n ==> dbError(k).Some?)
    requires forall j :: 0 <= j < k ==> dbError(j).None?
    ensures FirstError(n, dbError) == k
  {
  }
}
