/** The legacy-data migration (src/utils/migration.js): detecting the old
    local-storage keys, copying legacy players and matches into the
    repository while skipping what it already holds, the all-in-one
    migration with its guard and backup, and the list of backups. */
module Migration {
  import opened Wrappers
  import opened Text
  import opened Lists
  import opened Sorting
  import opened Records
  import opened ObjectKeys

  // ---------------------------------------------------------------------------
  // local storage
  // ---------------------------------------------------------------------------

  const PlayersKey := "fifa-players"
  const MatchesKey := "fifa-matches"
  const BackupPrefix := "fifa-legacy-backup-"

  /** A value that is present and non-empty (truthy). */
  predicate Truthy(o: Option<string>)
  {
    o.Some? && o.value != ""
  }

  /** The browser's local storage: its keys and their values. The keys
      are kept in insertion order, one order `Object.keys` may list them
      in; browsers promise none, and the backup listing re-sorts. */
  class LocalStorage {
    var keys: seq<string>
    var values: map<string, string>

    /** Every key listed once, and exactly the keys that hold a value. */
    ghost predicate Valid()
      reads this
    {
      (forall i, j :: 0 <= i < j < |keys| ==> keys[i] != keys[j]) &&
      (forall k :: k in keys <==> k in values)
    }

    constructor ()
      ensures Valid() && keys == [] && values == map[]
    {
      keys := [];
      values := map[];
    }

    /** `getItem`: the value, or nothing for a key not set. */
    function Get(key: string): (r: Option<string>)
      reads this
      ensures r.Some? <==> key in values
      ensures r.Some? ==> r.value == values[key]
    {
      if key in values then Some(values[key]) else None
    }

    /** `setItem`: a new key goes to the end of the key order; an existing
        one keeps its place and takes the new value. */
    method Set(key: string, value: string)
      requires Valid()
      modifies this
      ensures Valid()
      ensures values == old(values)[key := value]
      ensures keys == if key in old(values) then old(keys) else old(keys) + [key]
    {
      if key !in values {
        keys := keys + [key];
      }
      values := values[key := value];
    }

    /** `hasLegacyData`: either legacy key holds a non-empty value. */
    function HasLegacyData(): (r: bool)
      reads this
      ensures r <==> (PlayersKey in values && values[PlayersKey] != "") ||
                     (MatchesKey in values && values[MatchesKey] != "")
    {
      Truthy(Get(PlayersKey)) || Truthy(Get(MatchesKey))
    }

    /** `createLegacyBackup`: each legacy key that holds a non-empty value
        is copied under the backup prefix, its kind and the timestamp. */
    method CreateLegacyBackup(timestamp: string)
      requires Valid()
      modifies this
      ensures Valid()
      ensures values == BackedUp(old(values), timestamp)
    {
      var legacyPlayers := Get(PlayersKey);
      var legacyMatches := Get(MatchesKey);
      if Truthy(legacyPlayers) {
        Set(BackupKey("players", timestamp), legacyPlayers.value);
      }
      if Truthy(legacyMatches) {
        Set(BackupKey("matches", timestamp), legacyMatches.value);
      }
    }
  }

  /** The key a backup of one kind is written under. */
  function BackupKey(kind: string, timestamp: string): (k: string)
    ensures StartsWith(k, BackupPrefix)
  {
    BackupPrefix + kind + "-" + timestamp
  }

  /** The values after a backup. */
  function BackedUp(values: map<string, string>, timestamp: string): (r: map<string, string>)
    ensures forall k :: k in values ==> k in r
    ensures PlayersKey in values && values[PlayersKey] != "" ==>
      BackupKey("players", timestamp) in r && r[BackupKey("players", timestamp)] == values[PlayersKey]
    ensures MatchesKey in values && values[MatchesKey] != "" ==>
      BackupKey("matches", timestamp) in r && r[BackupKey("matches", timestamp)] == values[MatchesKey]
    ensures forall k :: k in r && k != BackupKey("players", timestamp) && k != BackupKey("matches", timestamp) ==>
      k in values && r[k] == values[k]
    ensures !(PlayersKey in values && values[PlayersKey] != "") ==>
      (BackupKey("players", timestamp) in r <==> BackupKey("players", timestamp) in values)
    ensures !(MatchesKey in values && values[MatchesKey] != "") ==>
      (BackupKey("matches", timestamp) in r <==> BackupKey("matches", timestamp) in values)
  {
    assert BackupKey("players", timestamp)[|BackupPrefix|] != BackupKey("matches", timestamp)[|BackupPrefix|];
    var afterPlayers := if PlayersKey in values && values[PlayersKey] != ""
                        then values[BackupKey("players", timestamp) := values[PlayersKey]] else values;
    if MatchesKey in values && values[MatchesKey] != ""
    then afterPlayers[BackupKey("matches", timestamp) := values[MatchesKey]] else afterPlayers
  }

  /** Backing up never touches the legacy keys themselves. */
  lemma {:induction false} BackupKeepsLegacyKeys(values: map<string, string>, timestamp: string)
    ensures PlayersKey in BackedUp(values, timestamp) <==> PlayersKey in values
    ensures MatchesKey in BackedUp(values, timestamp) <==> MatchesKey in values
    ensures PlayersKey in values ==> BackedUp(values, timestamp)[PlayersKey] == values[PlayersKey]
    ensures MatchesKey in values ==> BackedUp(values, timestamp)[MatchesKey] == values[MatchesKey]
  {
    var p := BackupKey("players", timestamp);
    var m := BackupKey("matches", timestamp);
    assert p != PlayersKey && p != MatchesKey by {
      assert p[..|BackupPrefix|] == BackupPrefix;
      assert |PlayersKey| < |BackupPrefix| && |MatchesKey| < |BackupPrefix|;
    }
    assert m != PlayersKey && m != MatchesKey by {
      assert m[..|BackupPrefix|] == BackupPrefix;
    }
  }

  // ---------------------------------------------------------------------------
  // players
  // ---------------------------------------------------------------------------

  /** A legacy player as parsed from the old key; a missing creation time
      is the empty string. */
  datatype LegacyPlayer = LegacyPlayer(name: string, createdAt: string)

  /** What a migration reports: a total only when the legacy key held a
      list. */
  datatype Counts = Counts(migrated: nat, skipped: nat, total: Option<nat>)

  /** The store a migration copies into: players and matches of the new
      data source, and the leagues of the database. */
  class Repository {
    var players: seq<Player>
    var matches: seq<StoredMatch>
    var leagues: seq<NewLeague>

    constructor (players: seq<Player>, matches: seq<StoredMatch>, leagues: seq<NewLeague>)
      ensures this.players == players && this.matches == matches && this.leagues == leagues
    {
      this.players := players;
      this.matches := matches;
      this.leagues := leagues;
    }
  }

  /** The lower-cased names of a player list, the snapshot the player loop
      tests against. */
  function NameSet(players: seq<Player>): set<string>
  {
    set p | p in players :: Lower(p.name)
  }

  /** The lower-cased names of the legacy list: what `Player.list()`
      yields inside `migratePlayers`, since it parses the very
      'fifa-players' value the legacy list came from. */
  function LegacyNames(legacy: seq<LegacyPlayer>): (r: set<string>)
    ensures forall p :: p in legacy ==> Lower(p.name) in r
  {
    set p | p in legacy :: Lower(p.name)
  }

  /** A legacy player the snapshot already names, ignoring case. */
  predicate Known(existing: set<string>, p: LegacyPlayer)
  {
    Lower(p.name) in existing
  }

  /** The players the loop adds: every legacy player whose lower-cased
      name is not in the snapshot, in order. */
  function MigratedPlayers(legacy: seq<LegacyPlayer>, existing: set<string>, newId: nat -> string, now: string): (r: seq<Player>)
    ensures |r| <= |legacy|
  {
    if legacy == [] then []
    else
      var n := |legacy| - 1;
      var front := MigratedPlayers(legacy[..n], existing, newId, now);
      front + PlayerFor(legacy[n], existing, newId(|front|), now)
  }

  /** What one legacy player adds: nothing when the snapshot names it,
      otherwise the record `Player.create` writes, which keeps only the
      name and stamps the creation time itself (the legacy `created_at`
      handed to it is not stored). */
  function PlayerFor(p: LegacyPlayer, existing: set<string>, id: string, now: string): seq<Player>
  {
    if Known(existing, p) then []
    else [Player(id, p.name, now)]
  }

  lemma {:induction false} MigratedPlayersStep(legacy: seq<LegacyPlayer>, i: nat, existing: set<string>, newId: nat -> string, now: string)
    requires i < |legacy|
    ensures var front := MigratedPlayers(legacy[..i], existing, newId, now);
      MigratedPlayers(legacy[..i + 1], existing, newId, now) == front + PlayerFor(legacy[i], existing, newId(|front|), now)
  {
    assert legacy[..i + 1][..i] == legacy[..i];
  }

  /** The players added are the legacy players not already named, counted
      like `filter`, numbered by creation. */
  lemma {:induction false} MigratedPlayersFacts(legacy: seq<LegacyPlayer>, existing: set<string>, newId: nat -> string, now: string)
    ensures var r := MigratedPlayers(legacy, existing, newId, now);
      |r| == |Filter(legacy, (p: LegacyPlayer) => !Known(existing, p))| &&
      forall k :: 0 <= k < |r| ==> r[k].id == newId(k) && Lower(r[k].name) !in existing && r[k].createdAt == now
  {
    MigratedPlayersCount(legacy, existing, newId, now);
    MigratedPlayersNumbered(legacy, existing, newId, now);
  }

  lemma {:induction false} MigratedPlayersCount(legacy: seq<LegacyPlayer>, existing: set<string>, newId: nat -> string, now: string)
    ensures |MigratedPlayers(legacy, existing, newId, now)| == |Filter(legacy, (p: LegacyPlayer) => !Known(existing, p))|
    decreases |legacy|
  {
    if legacy != [] {
      var n := |legacy| - 1;
      MigratedPlayersCount(legacy[..n], existing, newId, now);
      MigratedPlayersStep(legacy, n, existing, newId, now);
      FilterPrefixStep(legacy, n, (p: LegacyPlayer) => !Known(existing, p));
      assert legacy[..n + 1] == legacy;
    }
  }

  lemma {:induction false} MigratedPlayersNumbered(legacy: seq<LegacyPlayer>, existing: set<string>, newId: nat -> string, now: string)
    ensures var r := MigratedPlayers(legacy, existing, newId, now);
      forall k :: 0 <= k < |r| ==> r[k].id == newId(k) && Lower(r[k].name) !in existing && r[k].createdAt == now
    decreases |legacy|
  {
    if legacy != [] {
      var n := |legacy| - 1;
      MigratedPlayersNumbered(legacy[..n], existing, newId, now);
      MigratedPlayersStep(legacy, n, existing, newId, now);
      assert legacy[..n + 1] == legacy;
    }
  }

  /** The loop of `migratePlayers`: skips a legacy player whose name, in
      lower case, is in the snapshot taken before the loop, and creates
      every other one in the store. */
  method MigrateLegacyPlayers(repo: Repository, legacy: seq<LegacyPlayer>, existingNames: set<string>, newId: nat -> string, now: string)
    returns (migrated: nat, skipped: nat)
    modifies repo
    ensures migrated + skipped == |legacy|
    ensures migrated == |MigratedPlayers(legacy, existingNames, newId, now)|
    ensures repo.players == old(repo.players) + MigratedPlayers(legacy, existingNames, newId, now)
    ensures repo.matches == old(repo.matches) && repo.leagues == old(repo.leagues)
  {
    migrated, skipped := 0, 0;
    var i := 0;
    while i < |legacy|
      invariant 0 <= i <= |legacy| && migrated + skipped == i
      invariant migrated == |MigratedPlayers(legacy[..i], existingNames, newId, now)|
      invariant repo.players == old(repo.players) + MigratedPlayers(legacy[..i], existingNames, newId, now)
      invariant repo.matches == old(repo.matches) && repo.leagues == old(repo.leagues)
    {
      ghost var before := old(repo.players);
      migrated, skipped := MigratePlayerAt(repo, legacy, i, existingNames, newId, now, migrated, skipped, before);
      i := i + 1;
    }
    assert legacy[..i] == legacy;
  }

  /** The loop body for legacy player `i`: created with the next id and
      the current time unless the snapshot names it; the counts move from
      the first `i` players to the first `i + 1`. */
  method MigratePlayerAt(repo: Repository, legacy: seq<LegacyPlayer>, i: nat, existingNames: set<string>,
                         newId: nat -> string, now: string, migrated: nat, skipped: nat, ghost before: seq<Player>)
    returns (migrated': nat, skipped': nat)
    requires i < |legacy| && migrated + skipped == i
    requires migrated == |MigratedPlayers(legacy[..i], existingNames, newId, now)|
    requires repo.players == before + MigratedPlayers(legacy[..i], existingNames, newId, now)
    modifies repo
    ensures migrated' + skipped' == i + 1
    ensures migrated' == |MigratedPlayers(legacy[..i + 1], existingNames, newId, now)|
    ensures repo.players == before + MigratedPlayers(legacy[..i + 1], existingNames, newId, now)
    ensures repo.matches == old(repo.matches) && repo.leagues == old(repo.leagues)
  {
    MigratedPlayersStep(legacy, i, existingNames, newId, now);
    var legacyPlayer := legacy[i];
    if Known(existingNames, legacyPlayer) {
      migrated', skipped' := migrated, skipped + 1;
    } else {
      var created := Player(newId(migrated), legacyPlayer.name, now);
      repo.players := repo.players + [created];
      migrated', skipped' := migrated + 1, skipped;
    }
  }

  /** What `JSON.parse` makes of a legacy value, as far as a migration
      can use it: text that is not JSON, JSON that `for…of` cannot walk
      (an object, null, a number or a boolean), or a list of records. */
  datatype Parsed<T> = Malformed | NotIterable | Records(records: seq<T>)

  /** The legacy list a key holds, when it holds a non-empty value that
      parses to a list of records. */
  function LegacyList<T>(json: Option<string>, parse: string -> Parsed<T>): (r: Option<seq<T>>)
    ensures r.Some? <==> Truthy(json) && parse(json.value).Records?
    ensures r.Some? ==> r.value == parse(json.value).records
  {
    if Truthy(json) && parse(json.value).Records? then Some(parse(json.value).records) else None
  }

  /** What a migration step reports when its loop skipped every legacy
      record: zeros for an empty key, else none migrated, all skipped. */
  function AllSkipped<T>(json: Option<string>, parse: string -> Parsed<T>): (c: Counts)
    ensures c.migrated == 0
    ensures !Truthy(json) ==> c == Counts(0, 0, None)
    ensures LegacyList(json, parse).Some? ==> c.skipped == |LegacyList(json, parse).value| && c.total == Some(c.skipped)
  {
    match LegacyList(json, parse)
    case Some(legacy) => Counts(0, |legacy|, Some(|legacy|))
    case None => Counts(0, 0, None)
  }

  /** The as-written migration of one legacy player 'Ann' into an empty
      store: the report says skipped, whereas the store lacks her and the
      intended migration creates her. */
  lemma {:induction false} LegacyPlayerSkipped(json: string, parse: string -> Parsed<LegacyPlayer>,
                                               newId: nat -> string, now: string)
    requires json != "" && parse(json) == Records([LegacyPlayer("Ann", "")])
    ensures AllSkipped(Some(json), parse) == Counts(0, 1, Some(1))
    ensures MigratedPlayers([LegacyPlayer("Ann", "")], NameSet([]), newId, now) == [Player(newId(0), "Ann", now)]
  {
    assert [LegacyPlayer("Ann", "")][..0] == [];
  }

  /** `migratePlayers` as written: nothing to do when the legacy key is
      empty or absent, and a value that is not a list of records is an
      error (`JSON.parse` throws, or `map` and `for…of` do), before
      anything is created. Otherwise the names to skip come from `Player.list()`, which parses
      the same 'fifa-players' value again, so the snapshot names every
      legacy player: all are skipped and none is created. */
  method MigratePlayers(storage: LocalStorage, repo: Repository, parse: string -> Parsed<LegacyPlayer>,
                        newId: nat -> string, now: string)
    returns (r: Result<Counts, string>)
    modifies repo
    ensures Truthy(storage.Get(PlayersKey)) && !parse(storage.values[PlayersKey]).Records? ==>
      r == Err("Failed to migrate players")
    ensures !(Truthy(storage.Get(PlayersKey)) && !parse(storage.values[PlayersKey]).Records?) ==>
      r == Ok(AllSkipped(storage.Get(PlayersKey), parse))
    ensures repo.players == old(repo.players) && repo.matches == old(repo.matches) && repo.leagues == old(repo.leagues)
  {
    var json := storage.Get(PlayersKey);
    if !Truthy(json) {
      return Ok(Counts(0, 0, None));
    }
    var legacy := parse(json.value);
    if !legacy.Records? {
      return Err("Failed to migrate players");
    }
    var existingNames := LegacyNames(legacy.records);
    SnapshotCoversLegacy(legacy.records, existingNames, newId, now);
    var migrated, skipped := MigrateLegacyPlayers(repo, legacy.records, existingNames, newId, now);
    r := Ok(Counts(migrated, skipped, Some(|legacy.records|)));
  }

  /** The players a corrected migration adds to the store whose names
      form `existing`. */
  function PlayersAdded(json: Option<string>, parse: string -> Parsed<LegacyPlayer>, existing: set<string>,
                        newId: nat -> string, now: string): seq<Player>
  {
    match LegacyList(json, parse)
    case Some(legacy) => MigratedPlayers(legacy, existing, newId, now)
    case None => []
  }

  /** The migration of players into a separate store: as `migratePlayers`,
      but the names to skip are those the store already holds, so a
      legacy player is created exactly when the store lacks its name. */
  method MigratePlayersToStore(storage: LocalStorage, repo: Repository, parse: string -> Parsed<LegacyPlayer>,
                               newId: nat -> string, now: string)
    returns (r: Result<Counts, string>)
    modifies repo
    ensures !Truthy(storage.Get(PlayersKey)) ==> r == Ok(Counts(0, 0, None)) && repo.players == old(repo.players)
    ensures Truthy(storage.Get(PlayersKey)) && !parse(storage.values[PlayersKey]).Records? ==>
      r == Err("Failed to migrate players") && repo.players == old(repo.players)
    ensures Truthy(storage.Get(PlayersKey)) && parse(storage.values[PlayersKey]).Records? ==>
      var legacy := parse(storage.values[PlayersKey]).records;
      var added := MigratedPlayers(legacy, NameSet(old(repo.players)), newId, now);
      r == Ok(Counts(|added|, |legacy| - |added|, Some(|legacy|))) &&
      repo.players == old(repo.players) + added
    ensures repo.matches == old(repo.matches) && repo.leagues == old(repo.leagues)
  {
    var json := storage.Get(PlayersKey);
    if !Truthy(json) {
      return Ok(Counts(0, 0, None));
    }
    var legacy := parse(json.value);
    if !legacy.Records? {
      return Err("Failed to migrate players");
    }
    var migrated, skipped := MigrateLegacyPlayers(repo, legacy.records, NameSet(repo.players), newId, now);
    r := Ok(Counts(migrated, skipped, Some(|legacy.records|)));
  }

  /** When the snapshot already names every legacy player, as it does when
      it is taken from the legacy list itself, the loop migrates nothing. */
  lemma {:induction false} SnapshotCoversLegacy(legacy: seq<LegacyPlayer>, existing: set<string>, newId: nat -> string, now: string)
    requires forall p :: p in legacy ==> Known(existing, p)
    ensures MigratedPlayers(legacy, existing, newId, now) == []
    decreases |legacy|
  {
    if legacy != [] {
      var n := |legacy| - 1;
      assert legacy[n] in legacy;
      SnapshotCoversLegacy(legacy[..n], existing, newId, now);
    }
  }

  /** The snapshot is taken once: two legacy players of the same new name
      are both created. */
  lemma {:induction false} SnapshotNotRefreshed(p: LegacyPlayer, existing: set<string>, newId: nat -> string, now: string)
    requires !Known(existing, p)
    ensures |MigratedPlayers([p, p], existing, newId, now)| == 2
  {
    MigratedPlayersStep([p, p], 0, existing, newId, now);
    MigratedPlayersStep([p, p], 1, existing, newId, now);
    assert [p, p][..0] == [];
    assert [p, p][..2] == [p, p];
  }

  // ---------------------------------------------------------------------------
  // matches
  // ---------------------------------------------------------------------------

  /** A legacy match as parsed from the old key; scores are kept as the
      text `parseInt` reads, and missing values are empty strings. */
  datatype LegacyMatch = LegacyMatch(
    id: string, team1Player1: string, team1Player2: string,
    team2Player1: string, team2Player2: string,
    team1Score: string, team2Score: string,
    matchDate: string, createdDate: string, createdAt: string)

  /** A match as the migration writes it, with its league. */
  datatype StoredMatch = StoredMatch(
    id: string, leagueId: nat,
    team1Player1: string, team1Player2: string,
    team2Player1: string, team2Player2: string,
    team1Score: int, team2Score: int,
    matchDate: string, createdDate: string)

  /** A league the migration asks the repository to create. */
  datatype NewLeague = NewLeague(id: nat, name: string, description: string, isActive: bool)

  /** `parseInt(x) || 0`: a score that does not parse is 0. */
  function ScoreOrZero(s: string): int
  {
    match ParseInt(s)
    case Some(n) => n
    case None => 0
  }

  /** A score written as a number reads back as that number; an empty or
      non-numeric score reads as 0. */
  lemma {:induction false} ScoreOrZeroFacts(i: int)
    ensures ScoreOrZero(IntToString(i)) == i
    ensures ScoreOrZero("") == 0
  {
    ParseIntOfIntToString(i);
    ParseIntEmpty();
  }

  /** The converted record: scores default to 0, the date to today, the
      creation time to the legacy `created_date`, then `created_at`, then
      now. */
  function Convert(m: LegacyMatch, leagueId: nat, today: string, now: string): StoredMatch
  {
    StoredMatch(m.id, leagueId, m.team1Player1, m.team1Player2, m.team2Player1, m.team2Player2,
                ScoreOrZero(m.team1Score), ScoreOrZero(m.team2Score),
                if m.matchDate != "" then m.matchDate else today,
                if m.createdDate != "" then m.createdDate else if m.createdAt != "" then m.createdAt else now)
  }

  /** A legacy match with its id and players but no scores, date or
      creation time converts to a 0-0 match dated today, created now,
      in the chosen league. */
  lemma {:induction false} ConvertDefaults(m: LegacyMatch, leagueId: nat, today: string, now: string)
    requires m.team1Score == "" && m.team2Score == "" && m.matchDate == "" && m.createdDate == "" && m.createdAt == ""
    ensures var r := Convert(m, leagueId, today, now);
      r.id == m.id && r.leagueId == leagueId &&
      r.team1Player1 == m.team1Player1 && r.team1Player2 == m.team1Player2 &&
      r.team2Player1 == m.team2Player1 && r.team2Player2 == m.team2Player2 &&
      r.team1Score == 0 && r.team2Score == 0 && r.matchDate == today && r.createdDate == now
  {
    ScoreOrZeroFacts(0);
  }

  /** The ids already held, the snapshot the match loop tests against. */
  function IdSet(matches: seq<StoredMatch>): set<string>
  {
    set m | m in matches :: m.id
  }

  /** The matches the loop adds: every legacy match whose id is not in
      the snapshot, converted, in order. */
  function MigratedMatches(legacy: seq<LegacyMatch>, existing: set<string>, leagueId: nat, today: string, now: string)
    : (r: seq<StoredMatch>)
    ensures |r| <= |legacy|
  {
    if legacy == [] then []
    else
      var n := |legacy| - 1;
      MigratedMatches(legacy[..n], existing, leagueId, today, now) + MatchFor(legacy[n], existing, leagueId, today, now)
  }

  /** What one legacy match adds: nothing when its id is in the snapshot,
      otherwise its conversion. */
  function MatchFor(m: LegacyMatch, existing: set<string>, leagueId: nat, today: string, now: string): seq<StoredMatch>
  {
    if m.id in existing then [] else [Convert(m, leagueId, today, now)]
  }

  lemma {:induction false} MigratedMatchesStep(legacy: seq<LegacyMatch>, i: nat, existing: set<string>, leagueId: nat, today: string, now: string)
    requires i < |legacy|
    ensures MigratedMatches(legacy[..i + 1], existing, leagueId, today, now) ==
      MigratedMatches(legacy[..i], existing, leagueId, today, now) + MatchFor(legacy[i], existing, leagueId, today, now)
  {
    assert legacy[..i + 1][..i] == legacy[..i];
  }

  /** The matches added are the legacy matches with a new id, counted like
      `filter`, each converted into the chosen league. */
  lemma {:induction false} MigratedMatchesFacts(legacy: seq<LegacyMatch>, existing: set<string>, leagueId: nat, today: string, now: string)
    ensures var r := MigratedMatches(legacy, existing, leagueId, today, now);
      |r| == |Filter(legacy, (m: LegacyMatch) => m.id !in existing)| &&
      forall m :: m in r ==> m.id !in existing && m.leagueId == leagueId
  {
    MigratedMatchesCount(legacy, existing, leagueId, today, now);
    MigratedMatchesFresh(legacy, existing, leagueId, today, now);
  }

  lemma {:induction false} MigratedMatchesCount(legacy: seq<LegacyMatch>, existing: set<string>, leagueId: nat, today: string, now: string)
    ensures |MigratedMatches(legacy, existing, leagueId, today, now)| == |Filter(legacy, (m: LegacyMatch) => m.id !in existing)|
    decreases |legacy|
  {
    if legacy != [] {
      var n := |legacy| - 1;
      MigratedMatchesCount(legacy[..n], existing, leagueId, today, now);
      MigratedMatchesStep(legacy, n, existing, leagueId, today, now);
      FilterPrefixStep(legacy, n, (m: LegacyMatch) => m.id !in existing);
      assert legacy[..n + 1] == legacy;
    }
  }

  lemma {:induction false} MigratedMatchesFresh(legacy: seq<LegacyMatch>, existing: set<string>, leagueId: nat, today: string, now: string)
    ensures forall m :: m in MigratedMatches(legacy, existing, leagueId, today, now) ==> m.id !in existing && m.leagueId == leagueId
    decreases |legacy|
  {
    if legacy != [] {
      var n := |legacy| - 1;
      MigratedMatchesFresh(legacy[..n], existing, leagueId, today, now);
      MigratedMatchesStep(legacy, n, existing, leagueId, today, now);
      assert legacy[..n + 1] == legacy;
    }
  }

  /** Where migrated matches go. */
  datatype LeagueChoice = Given(id: nat) | Active(id: nat) | CreateDefault(id: nat)

  /** The target league: the id passed in when it is truthy, else the
      active league, else a new league. */
  function TargetLeague(targetLeagueId: Option<nat>, active: Option<nat>, newLeagueId: nat): (r: LeagueChoice)
    ensures targetLeagueId.Some? && targetLeagueId.value != 0 ==> r == Given(targetLeagueId.value)
    ensures !(targetLeagueId.Some? && targetLeagueId.value != 0) && active.Some? ==> r == Active(active.value)
    ensures !(targetLeagueId.Some? && targetLeagueId.value != 0) && active.None? ==> r == CreateDefault(newLeagueId)
  {
    if targetLeagueId.Some? && targetLeagueId.value != 0 then Given(targetLeagueId.value)
    else if active.Some? then Active(active.value)
    else CreateDefault(newLeagueId)
  }

  const DefaultLeagueName := "Migrated Data League"
  const DefaultLeagueDescription := "League created during data migration from localStorage"

  /** The ids of the legacy list: what `Match.list()` yields inside
      `migrateMatches`, since it parses the very 'fifa-matches' value the
      legacy list came from. */
  function LegacyIds(legacy: seq<LegacyMatch>): (r: set<string>)
    ensures forall m :: m in legacy ==> m.id in r
  {
    set m | m in legacy :: m.id
  }

  /** When the snapshot holds every legacy id, as it does when it is taken
      from the legacy list itself, the loop migrates nothing. */
  lemma {:induction false} SnapshotCoversLegacyMatches(legacy: seq<LegacyMatch>, existing: set<string>, leagueId: nat, today: string, now: string)
    requires forall m :: m in legacy ==> m.id in existing
    ensures MigratedMatches(legacy, existing, leagueId, today, now) == []
    decreases |legacy|
  {
    if legacy != [] {
      var n := |legacy| - 1;
      assert legacy[n] in legacy;
      SnapshotCoversLegacyMatches(legacy[..n], existing, leagueId, today, now);
    }
  }

  /** The loop of `migrateMatches`: skips a legacy match whose id is in
      the snapshot taken before the loop, and appends every other one,
      converted, to the store's matches. */
  method MigrateLegacyMatches(repo: Repository, legacy: seq<LegacyMatch>, existingIds: set<string>, leagueId: nat,
                              today: string, now: string)
    returns (migrated: nat, skipped: nat)
    modifies repo
    ensures migrated + skipped == |legacy|
    ensures migrated == |MigratedMatches(legacy, existingIds, leagueId, today, now)|
    ensures repo.matches == old(repo.matches) + MigratedMatches(legacy, existingIds, leagueId, today, now)
    ensures repo.players == old(repo.players) && repo.leagues == old(repo.leagues)
  {
    migrated, skipped := 0, 0;
    var i := 0;
    while i < |legacy|
      invariant 0 <= i <= |legacy| && migrated + skipped == i
      invariant migrated == |MigratedMatches(legacy[..i], existingIds, leagueId, today, now)|
      invariant repo.matches == old(repo.matches) + MigratedMatches(legacy[..i], existingIds, leagueId, today, now)
      invariant repo.players == old(repo.players) && repo.leagues == old(repo.leagues)
    {
      ghost var before := old(repo.matches);
      migrated, skipped := MigrateMatchAt(repo, legacy, i, existingIds, leagueId, today, now, migrated, skipped, before);
      i := i + 1;
    }
    assert legacy[..i] == legacy;
  }

  /** The loop body for legacy match `i`: appended, converted, unless its
      id is in the snapshot; the counts move from the first `i` matches
      to the first `i + 1`. */
  method MigrateMatchAt(repo: Repository, legacy: seq<LegacyMatch>, i: nat, existingIds: set<string>, leagueId: nat,
                        today: string, now: string, migrated: nat, skipped: nat, ghost before: seq<StoredMatch>)
    returns (migrated': nat, skipped': nat)
    requires i < |legacy| && migrated + skipped == i
    requires migrated == |MigratedMatches(legacy[..i], existingIds, leagueId, today, now)|
    requires repo.matches == before + MigratedMatches(legacy[..i], existingIds, leagueId, today, now)
    modifies repo
    ensures migrated' + skipped' == i + 1
    ensures migrated' == |MigratedMatches(legacy[..i + 1], existingIds, leagueId, today, now)|
    ensures repo.matches == before + MigratedMatches(legacy[..i + 1], existingIds, leagueId, today, now)
    ensures repo.players == old(repo.players) && repo.leagues == old(repo.leagues)
  {
    ghost var prev := MigratedMatches(legacy[..i], existingIds, leagueId, today, now);
    ghost var added := MatchFor(legacy[i], existingIds, leagueId, today, now);
    MigratedMatchesStep(legacy, i, existingIds, leagueId, today, now);
    assert MigratedMatches(legacy[..i + 1], existingIds, leagueId, today, now) == prev + added;
    var legacyMatch := legacy[i];
    if legacyMatch.id in existingIds {
      assert added == [];
      migrated', skipped' := migrated, skipped + 1;
    } else {
      var converted := Convert(legacyMatch, leagueId, today, now);
      assert added == [converted];
      repo.matches := repo.matches + [converted];
      assert repo.matches == before + (prev + added);
      migrated', skipped' := migrated + 1, skipped;
    }
  }

  /** What `migrateMatches` reports: the counts and the league used. */
  datatype MatchCounts = MatchCounts(counts: Counts, leagueId: Option<nat>)

  /** The league the migration creates when it has to: none unless the
      choice is a new league. */
  function DefaultLeagueFor(choice: LeagueChoice): (r: seq<NewLeague>)
    ensures choice.CreateDefault? <==> r != []
    ensures choice.CreateDefault? ==> r == [NewLeague(choice.id, DefaultLeagueName, DefaultLeagueDescription, true)]
  {
    if choice.CreateDefault? then [NewLeague(choice.id, DefaultLeagueName, DefaultLeagueDescription, true)] else []
  }

  /** The `League.create` of `migrateMatches`, made only when the choice
      is a new league. */
  method AddTargetLeague(repo: Repository, choice: LeagueChoice)
    modifies repo
    ensures repo.leagues == old(repo.leagues) + DefaultLeagueFor(choice)
    ensures repo.players == old(repo.players) && repo.matches == old(repo.matches)
  {
    if choice.CreateDefault? {
      repo.leagues := repo.leagues + [NewLeague(choice.id, DefaultLeagueName, DefaultLeagueDescription, true)];
    }
  }

  /** `migrateMatches` as written: nothing to do when the legacy key is
      empty or absent, and a value that is not JSON is an error. The
      target league is chosen next (a new active league is created when
      there is neither a given nor an active one), so a JSON value that
      `for…of` cannot walk fails only after that league exists.
      Otherwise the ids to skip come from `Match.list()`, which parses the
      same 'fifa-matches' value again: every legacy match is skipped, so
      the write at the end of the loop body is never reached. */
  method MigrateMatches(storage: LocalStorage, repo: Repository, parse: string -> Parsed<LegacyMatch>,
                        targetLeagueId: Option<nat>, active: Option<nat>, newLeagueId: nat, today: string, now: string)
    returns (r: Result<MatchCounts, string>)
    modifies repo
    ensures !Truthy(storage.Get(MatchesKey)) ==>
      r == Ok(MatchCounts(Counts(0, 0, None), None)) && repo.leagues == old(repo.leagues)
    ensures Truthy(storage.Get(MatchesKey)) && parse(storage.values[MatchesKey]).Malformed? ==>
      r == Err("Failed to migrate matches") && repo.leagues == old(repo.leagues)
    ensures Truthy(storage.Get(MatchesKey)) && parse(storage.values[MatchesKey]).NotIterable? ==>
      r == Err("Failed to migrate matches") &&
      repo.leagues == old(repo.leagues) + DefaultLeagueFor(TargetLeague(targetLeagueId, active, newLeagueId))
    ensures Truthy(storage.Get(MatchesKey)) && parse(storage.values[MatchesKey]).Records? ==>
      var choice := TargetLeague(targetLeagueId, active, newLeagueId);
      r == Ok(MatchCounts(AllSkipped(storage.Get(MatchesKey), parse), Some(choice.id))) &&
      repo.leagues == old(repo.leagues) + DefaultLeagueFor(choice)
    ensures repo.players == old(repo.players) && repo.matches == old(repo.matches)
  {
    var json := storage.Get(MatchesKey);
    if !Truthy(json) {
      return Ok(MatchCounts(Counts(0, 0, None), None));
    }
    var legacy := parse(json.value);
    if legacy.Malformed? {
      return Err("Failed to migrate matches");
    }
    var choice := TargetLeague(targetLeagueId, active, newLeagueId);
    AddTargetLeague(repo, choice);
    if legacy.NotIterable? {
      return Err("Failed to migrate matches");
    }
    var existingIds := LegacyIds(legacy.records);
    SnapshotCoversLegacyMatches(legacy.records, existingIds, choice.id, today, now);
    var migrated, skipped := MigrateLegacyMatches(repo, legacy.records, existingIds, choice.id, today, now);
    r := Ok(MatchCounts(Counts(migrated, skipped, Some(|legacy.records|)), Some(choice.id)));
  }

  /** The matches a corrected migration adds to the store whose ids form
      `existing`. */
  function MatchesAdded(json: Option<string>, parse: string -> Parsed<LegacyMatch>, existing: set<string>,
                        leagueId: nat, today: string, now: string): seq<StoredMatch>
  {
    match LegacyList(json, parse)
    case Some(legacy) => MigratedMatches(legacy, existing, leagueId, today, now)
    case None => []
  }

  /** The migration of matches into a separate store: as `migrateMatches`,
      but the ids to skip are those the store already holds, so a legacy
      match is appended, converted into the chosen league, exactly when
      the store lacks its id. */
  method MigrateMatchesToStore(storage: LocalStorage, repo: Repository, parse: string -> Parsed<LegacyMatch>,
                               targetLeagueId: Option<nat>, active: Option<nat>, newLeagueId: nat, today: string, now: string)
    returns (r: Result<MatchCounts, string>)
    modifies repo
    ensures !Truthy(storage.Get(MatchesKey)) ==>
      r == Ok(MatchCounts(Counts(0, 0, None), None)) && repo.matches == old(repo.matches) && repo.leagues == old(repo.leagues)
    ensures Truthy(storage.Get(MatchesKey)) && parse(storage.values[MatchesKey]).Malformed? ==>
      r == Err("Failed to migrate matches") && repo.matches == old(repo.matches) && repo.leagues == old(repo.leagues)
    ensures Truthy(storage.Get(MatchesKey)) && parse(storage.values[MatchesKey]).NotIterable? ==>
      r == Err("Failed to migrate matches") && repo.matches == old(repo.matches) &&
      repo.leagues == old(repo.leagues) + DefaultLeagueFor(TargetLeague(targetLeagueId, active, newLeagueId))
    ensures Truthy(storage.Get(MatchesKey)) && parse(storage.values[MatchesKey]).Records? ==>
      var legacy := parse(storage.values[MatchesKey]).records;
      var choice := TargetLeague(targetLeagueId, active, newLeagueId);
      var added := MigratedMatches(legacy, IdSet(old(repo.matches)), choice.id, today, now);
      r == Ok(MatchCounts(Counts(|added|, |legacy| - |added|, Some(|legacy|)), Some(choice.id))) &&
      repo.matches == old(repo.matches) + added &&
      repo.leagues == old(repo.leagues) + DefaultLeagueFor(choice)
    ensures repo.players == old(repo.players)
  {
    var json := storage.Get(MatchesKey);
    if !Truthy(json) {
      return Ok(MatchCounts(Counts(0, 0, None), None));
    }
    var legacy := parse(json.value);
    if legacy.Malformed? {
      return Err("Failed to migrate matches");
    }
    var choice := TargetLeague(targetLeagueId, active, newLeagueId);
    AddTargetLeague(repo, choice);
    if legacy.NotIterable? {
      return Err("Failed to migrate matches");
    }
    assert json.value == storage.values[MatchesKey];
    var counts := MigrateParsedMatches(repo, legacy.records, choice.id, today, now);
    r := Ok(MatchCounts(counts, Some(choice.id)));
  }

  /** The loop of the migration into a separate store, once the legacy
      list has parsed and the league is chosen: the ids to skip are the
      store's own. */
  method MigrateParsedMatches(repo: Repository, legacy: seq<LegacyMatch>, leagueId: nat, today: string, now: string)
    returns (c: Counts)
    modifies repo
    ensures var added := MigratedMatches(legacy, IdSet(old(repo.matches)), leagueId, today, now);
      c == Counts(|added|, |legacy| - |added|, Some(|legacy|)) &&
      repo.matches == old(repo.matches) + added
    ensures repo.players == old(repo.players) && repo.leagues == old(repo.leagues)
  {
    var existingIds := IdSet(repo.matches);
    var migrated, skipped := MigrateLegacyMatches(repo, legacy, existingIds, leagueId, today, now);
    c := Counts(migrated, skipped, Some(|legacy|));
  }

  // ---------------------------------------------------------------------------
  // the whole migration
  // ---------------------------------------------------------------------------

  datatype Report = Report(success: bool, message: string, players: Counts, matches: MatchCounts)

  const NoLegacyReport := Report(false, "No legacy data found to migrate", Counts(0, 0, None), MatchCounts(Counts(0, 0, None), None))

  /** `migrateAll` as written: without legacy data it reports failure and
      changes nothing; otherwise players, then matches into the active or
      a new league, then the backup, and a successful report. A failing
      step ends the migration with its error; a matches value that is
      JSON but not iterable fails after the new league exists. Since both
      steps skip every legacy record, a successful report always says
      nothing was migrated. */
  method MigrateAll(storage: LocalStorage, repo: Repository,
                    parsePlayers: string -> Parsed<LegacyPlayer>, parseMatches: string -> Parsed<LegacyMatch>,
                    active: Option<nat>, newLeagueId: nat, newId: nat -> string, timestamp: string, today: string, now: string)
    returns (r: Result<Report, string>)
    requires storage.Valid()
    modifies storage, repo
    ensures storage.Valid()
    ensures repo.players == old(repo.players) && repo.matches == old(repo.matches)
    ensures !old(storage.HasLegacyData()) ==>
      r == Ok(NoLegacyReport) && storage.values == old(storage.values) && repo.leagues == old(repo.leagues)
    ensures old(storage.HasLegacyData()) ==>
      var players := old(storage.Get(PlayersKey));
      var matches := old(storage.Get(MatchesKey));
      var choice := TargetLeague(None, active, newLeagueId);
      if Truthy(players) && !parsePlayers(players.value).Records? then
        r == Err("Failed to migrate players") && storage.values == old(storage.values) && repo.leagues == old(repo.leagues)
      else if Truthy(matches) && !parseMatches(matches.value).Records? then
        r == Err("Failed to migrate matches") && storage.values == old(storage.values) &&
        repo.leagues == old(repo.leagues) + (if parseMatches(matches.value).NotIterable? then DefaultLeagueFor(choice) else [])
      else
        r.Ok? && r.value.success && r.value.message == "Migration completed successfully" &&
        r.value.players == AllSkipped(players, parsePlayers) &&
        r.value.matches.counts == AllSkipped(matches, parseMatches) &&
        r.value.players.migrated == 0 && r.value.matches.counts.migrated == 0 &&
        r.value.matches.leagueId == (if Truthy(matches) then Some(choice.id) else None) &&
        repo.leagues == old(repo.leagues) + (if Truthy(matches) then DefaultLeagueFor(choice) else []) &&
        storage.values == BackedUp(old(storage.values), timestamp)
  {
    if !storage.HasLegacyData() {
      return Ok(NoLegacyReport);
    }
    var playerResult := MigratePlayers(storage, repo, parsePlayers, newId, now);
    if playerResult.Err? {
      return Err(playerResult.error);
    }
    var matchResult := MigrateMatches(storage, repo, parseMatches, None, active, newLeagueId, today, now);
    if matchResult.Err? {
      return Err(matchResult.error);
    }
    storage.CreateLegacyBackup(timestamp);
    r := Ok(Report(true, "Migration completed successfully", playerResult.value, matchResult.value));
  }

  /** The whole migration into a separate store: the same guard, order,
      backup and errors as `migrateAll`, with each step skipping only the
      records the store already holds. */
  method MigrateAllToStore(storage: LocalStorage, repo: Repository,
                           parsePlayers: string -> Parsed<LegacyPlayer>, parseMatches: string -> Parsed<LegacyMatch>,
                           active: Option<nat>, newLeagueId: nat, newId: nat -> string, timestamp: string, today: string, now: string)
    returns (r: Result<Report, string>)
    requires storage.Valid()
    modifies storage, repo
    ensures storage.Valid()
    ensures !old(storage.HasLegacyData()) ==>
      r == Ok(NoLegacyReport) && storage.values == old(storage.values) &&
      repo.players == old(repo.players) && repo.matches == old(repo.matches) && repo.leagues == old(repo.leagues)
    ensures old(storage.HasLegacyData()) ==>
      var players := old(storage.Get(PlayersKey));
      var matches := old(storage.Get(MatchesKey));
      var addedPlayers := PlayersAdded(players, parsePlayers, NameSet(old(repo.players)), newId, now);
      var choice := TargetLeague(None, active, newLeagueId);
      if Truthy(players) && !parsePlayers(players.value).Records? then
        r == Err("Failed to migrate players") && storage.values == old(storage.values) &&
        repo.players == old(repo.players) && repo.matches == old(repo.matches) && repo.leagues == old(repo.leagues)
      else if Truthy(matches) && !parseMatches(matches.value).Records? then
        r == Err("Failed to migrate matches") && storage.values == old(storage.values) &&
        repo.players == old(repo.players) + addedPlayers && repo.matches == old(repo.matches) &&
        repo.leagues == old(repo.leagues) + (if parseMatches(matches.value).NotIterable? then DefaultLeagueFor(choice) else [])
      else
        var addedMatches := MatchesAdded(matches, parseMatches, IdSet(old(repo.matches)), choice.id, today, now);
        r.Ok? && r.value.success && r.value.message == "Migration completed successfully" &&
        r.value.players.migrated == |addedPlayers| && r.value.matches.counts.migrated == |addedMatches| &&
        repo.players == old(repo.players) + addedPlayers &&
        repo.matches == old(repo.matches) + addedMatches &&
        repo.leagues == old(repo.leagues) + (if Truthy(matches) then DefaultLeagueFor(choice) else []) &&
        storage.values == BackedUp(old(storage.values), timestamp)
  {
    if !storage.HasLegacyData() {
      return Ok(NoLegacyReport);
    }
    var playerResult := MigratePlayersToStore(storage, repo, parsePlayers, newId, now);
    if playerResult.Err? {
      return Err(playerResult.error);
    }
    var matchResult := MigrateMatchesToStore(storage, repo, parseMatches, None, active, newLeagueId, today, now);
    if matchResult.Err? {
      return Err(matchResult.error);
    }
    storage.CreateLegacyBackup(timestamp);
    r := Ok(Report(true, "Migration completed successfully", playerResult.value, matchResult.value));
  }

  // ---------------------------------------------------------------------------
  // backups
  // ---------------------------------------------------------------------------

  /** One backup: its timestamp and which kinds were saved under it. */
  datatype Backup = Backup(timestamp: string, players: bool, matches: bool)

  predicate IsBackupKey(key: string)
  {
    StartsWith(key, BackupPrefix)
  }

  /** The last '-'-separated segment of a key, read as its timestamp. */
  function Stamp(key: string): (r: string)
    ensures '-' !in r
  {
    var parts := Split(key, '-');
    parts[|parts| - 1]
  }

  /** The second-to-last segment, read as its kind; a key without a '-'
      has none. */
  function Kind(key: string): (r: Option<string>)
    ensures r.Some? ==> '-' !in r.value
  {
    var parts := Split(key, '-');
    if |parts| >= 2 then Some(parts[|parts| - 2]) else None
  }

  /** Some backup key among `keys` has timestamp `t`. */
  predicate HasStamp(keys: seq<string>, t: string)
  {
    exists k :: k in keys && IsBackupKey(k) && Stamp(k) == t
  }

  /** Some backup key among `keys` has timestamp `t` and kind `kind`. */
  predicate HasKind(keys: seq<string>, t: string, kind: string)
  {
    exists k :: k in keys && IsBackupKey(k) && Stamp(k) == t && Kind(k) == Some(kind)
  }

  lemma {:induction false} HasStampStep(keys: seq<string>, key: string, t: string)
    ensures HasStamp(keys + [key], t) <==> HasStamp(keys, t) || (IsBackupKey(key) && Stamp(key) == t)
  {
    if HasStamp(keys + [key], t) {
      var k :| k in keys + [key] && IsBackupKey(k) && Stamp(k) == t;
      if k != key {
        assert k in keys;
      }
    }
    if HasStamp(keys, t) {
      var k :| k in keys && IsBackupKey(k) && Stamp(k) == t;
      assert k in keys + [key];
    }
    if IsBackupKey(key) && Stamp(key) == t {
      assert key in keys + [key];
    }
  }

  lemma {:induction false} HasKindStep(keys: seq<string>, key: string, t: string, kind: string)
    ensures HasKind(keys + [key], t, kind) <==> HasKind(keys, t, kind) || (IsBackupKey(key) && Stamp(key) == t && Kind(key) == Some(kind))
  {
    if HasKind(keys + [key], t, kind) {
      var k :| k in keys + [key] && IsBackupKey(k) && Stamp(k) == t && Kind(k) == Some(kind);
      if k != key {
        assert k in keys;
      }
    }
    if HasKind(keys, t, kind) {
      var k :| k in keys && IsBackupKey(k) && Stamp(k) == t && Kind(k) == Some(kind);
      assert k in keys + [key];
    }
    if IsBackupKey(key) && Stamp(key) == t && Kind(key) == Some(kind) {
      assert key in keys + [key];
    }
  }

  /** One entry with the flag for `kind` set; a kind other than players
      or matches sets neither. */
  function Flag(entry: Backup, kind: Option<string>): (r: Backup)
    ensures r.timestamp == entry.timestamp
    ensures r.players <==> entry.players || kind == Some("players")
    ensures r.matches <==> entry.matches || kind == Some("matches")
  {
    if kind == Some("players") then entry.(players := true)
    else if kind == Some("matches") then entry.(matches := true)
    else entry
  }

  /** One step of the `forEach`: a backup key creates its timestamp's
      entry if needed and flags its kind; any other key is ignored. */
  function AddKey(backups: map<string, Backup>, key: string): map<string, Backup>
  {
    if !IsBackupKey(key) then backups
    else
      var t := Stamp(key);
      var entry := if t in backups then backups[t] else Backup(t, false, false);
      backups[t := Flag(entry, Kind(key))]
  }

  /** The grouped entries after the first keys. */
  function Group(keys: seq<string>): map<string, Backup>
  {
    if keys == [] then map[] else AddKey(Group(keys[..|keys| - 1]), keys[|keys| - 1])
  }

  /** The timestamps in the order their entries were created. */
  function StampOrder(keys: seq<string>): seq<string>
  {
    if keys == [] then []
    else
      var n := |keys| - 1;
      var key := keys[n];
      StampOrder(keys[..n]) + if IsBackupKey(key) && Stamp(key) !in Group(keys[..n]) then [Stamp(key)] else []
  }

  /** The grouping has one entry per timestamp seen on a backup key, listed
      once each in creation order, flagged with the kinds seen for it. */
  lemma {:induction false} GroupFacts(keys: seq<string>)
    ensures NoRepeats(StampOrder(keys))
    ensures forall t :: t in StampOrder(keys) <==> t in Group(keys)
    ensures forall t :: t in Group(keys) <==> HasStamp(keys, t)
    ensures forall t :: t in Group(keys) ==> (Group(keys)[t].timestamp == t &&
      (Group(keys)[t].players <==> HasKind(keys, t, "players")) &&
      (Group(keys)[t].matches <==> HasKind(keys, t, "matches")))
  {
    GroupOrder(keys);
    GroupStamps(keys);
    GroupKinds(keys);
  }

  lemma {:induction false} GroupOrder(keys: seq<string>)
    ensures NoRepeats(StampOrder(keys))
    ensures forall t :: t in StampOrder(keys) <==> t in Group(keys)
    decreases |keys|
  {
    if keys != [] {
      GroupOrder(keys[..|keys| - 1]);
    }
  }

  lemma {:induction false} GroupStamps(keys: seq<string>)
    ensures forall t :: t in Group(keys) <==> HasStamp(keys, t)
    decreases |keys|
  {
    if keys != [] {
      var n := |keys| - 1;
      var key := keys[n];
      GroupStamps(keys[..n]);
      assert keys == keys[..n] + [key];
      forall t
        ensures HasStamp(keys, t) <==> HasStamp(keys[..n], t) || (IsBackupKey(key) && Stamp(key) == t)
      {
        HasStampStep(keys[..n], key, t);
      }
    }
  }

  lemma {:induction false} GroupKinds(keys: seq<string>)
    ensures forall t :: t in Group(keys) ==> (Group(keys)[t].timestamp == t &&
      (Group(keys)[t].players <==> HasKind(keys, t, "players")) &&
      (Group(keys)[t].matches <==> HasKind(keys, t, "matches")))
    decreases |keys|
  {
    if keys != [] {
      var n := |keys| - 1;
      var key := keys[n];
      GroupKinds(keys[..n]);
      GroupStamps(keys[..n]);
      assert keys == keys[..n] + [key];
      forall t
        ensures HasKind(keys, t, "players") <==> HasKind(keys[..n], t, "players") || (IsBackupKey(key) && Stamp(key) == t && Kind(key) == Some("players"))
        ensures HasKind(keys, t, "matches") <==> HasKind(keys[..n], t, "matches") || (IsBackupKey(key) && Stamp(key) == t && Kind(key) == Some("matches"))
        ensures HasKind(keys[..n], t, "players") ==> HasStamp(keys[..n], t)
        ensures HasKind(keys[..n], t, "matches") ==> HasStamp(keys[..n], t)
      {
        HasKindStep(keys[..n], key, t, "players");
        HasKindStep(keys[..n], key, t, "matches");
      }
    }
  }

  /** The grouping `forEach`: one entry per timestamp; `stamps` is the
      order in which the entries were created (Entries lists them as
      `Object.values` does). */
  method GroupBackups(keys: seq<string>) returns (backups: map<string, Backup>, stamps: seq<string>)
    ensures backups == Group(keys) && stamps == StampOrder(keys)
  {
    backups, stamps := map[], [];
    var i := 0;
    while i < |keys|
      invariant 0 <= i <= |keys|
      invariant backups == Group(keys[..i]) && stamps == StampOrder(keys[..i])
    {
      var key := keys[i];
      assert keys[..i + 1][..i] == keys[..i];
      if IsBackupKey(key) {
        var timestamp := Stamp(key);
        var kind := Kind(key);
        if timestamp !in backups {
          backups := backups[timestamp := Backup(timestamp, false, false)];
          stamps := stamps + [timestamp];
        }
        var entry := backups[timestamp];
        if kind == Some("players") {
          entry := entry.(players := true);
        } else if kind == Some("matches") {
          entry := entry.(matches := true);
        }
        backups := backups[timestamp := entry];
      }
      i := i + 1;
    }
    assert keys[..i] == keys;
  }

  /** Newest timestamp first, by string order. */
  function NewestStampFirst(): (Backup, Backup) -> bool
  {
    (a: Backup, b: Backup) => StrLess(b.timestamp, a.timestamp)
  }

  lemma {:induction false} NewestStampFirstOrder()
    ensures StrictWeakOrder(NewestStampFirst())
  {
    forall a: Backup, b: Backup | StrLess(b.timestamp, a.timestamp)
      ensures !StrLess(a.timestamp, b.timestamp)
    {
      StrLessAsymmetric(b.timestamp, a.timestamp);
    }
    forall a: Backup, b: Backup, c: Backup | !StrLess(b.timestamp, a.timestamp) && !StrLess(c.timestamp, b.timestamp)
      ensures !StrLess(c.timestamp, a.timestamp)
    {
      StrLessTotal(a.timestamp, b.timestamp);
      StrLessTotal(b.timestamp, c.timestamp);
      if StrLess(c.timestamp, a.timestamp) {
        if a.timestamp != b.timestamp {
          StrLessTransitive(c.timestamp, a.timestamp, b.timestamp);
        }
      }
    }
  }

  /** `Object.values(backups)`: the entries in the order JavaScript lists
      the object's keys (ObjectKeys.OwnKeys). Timestamps that are array
      indices, such as "45", come first in ascending numeric order, then
      the others in the order their entries were created. */
  function Entries(backups: map<string, Backup>, stamps: seq<string>): (r: seq<Backup>)
    ensures |r| == |stamps| == |OwnKeys(stamps)|
    ensures forall j :: 0 <= j < |r| && OwnKeys(stamps)[j] in backups ==> r[j] == backups[OwnKeys(stamps)[j]]
  {
    OwnKeysSpec(stamps);
    var keys := OwnKeys(stamps);
    seq(|keys|, j requires 0 <= j < |keys| =>
      if keys[j] in backups then backups[keys[j]] else Backup(keys[j], false, false))
  }

  /** The entries of the grouping: distinct timestamps, exactly those seen
      on backup keys, each flagged with the kinds seen for it. */
  lemma {:induction false} GroupEntries(keys: seq<string>)
    ensures var e := Entries(Group(keys), StampOrder(keys));
      (forall a, b :: 0 <= a < b < |e| ==> e[a].timestamp != e[b].timestamp) &&
      (forall t :: HasStamp(keys, t) <==> exists b :: b in e && b.timestamp == t) &&
      (forall b :: b in e ==>
        (b.players <==> HasKind(keys, b.timestamp, "players")) &&
        (b.matches <==> HasKind(keys, b.timestamp, "matches")))
  {
    GroupFacts(keys);
    EntriesListed(Group(keys), StampOrder(keys));
  }

  /** Listing the entries of distinct timestamps, each keyed by its own
      timestamp, gives each entry once. */
  lemma {:induction false} EntriesListed(backups: map<string, Backup>, stamps: seq<string>)
    requires NoRepeats(stamps)
    requires forall t :: t in stamps <==> t in backups
    requires forall t :: t in backups ==> backups[t].timestamp == t
    ensures var e := Entries(backups, stamps);
      (forall a, b :: 0 <= a < b < |e| ==> e[a].timestamp != e[b].timestamp) &&
      (forall t :: t in backups <==> exists b :: b in e && b.timestamp == t) &&
      (forall b :: b in e ==> b.timestamp in backups && b == backups[b.timestamp])
  {
    var listed := OwnKeys(stamps);
    OwnKeysPermutation(stamps);
    NoRepeatsPermutation(stamps, listed);
    EntriesAt(backups, stamps);
    var e := Entries(backups, stamps);
    forall t | t in backups
      ensures exists b :: b in e && b.timestamp == t
    {
      assert t in listed;
      var j :| 0 <= j < |listed| && listed[j] == t;
      assert e[j] in e;
    }
  }

  /** Each listed entry is the one of the timestamp listed at its place. */
  lemma {:induction false} EntriesAt(backups: map<string, Backup>, stamps: seq<string>)
    requires forall t :: t in stamps <==> t in backups
    requires forall t :: t in backups ==> backups[t].timestamp == t
    ensures var e, listed := Entries(backups, stamps), OwnKeys(stamps);
      forall j :: 0 <= j < |e| ==> e[j].timestamp == listed[j] && listed[j] in backups && e[j] == backups[listed[j]]
  {
    var listed := OwnKeys(stamps);
    OwnKeysPermutation(stamps);
    var e := Entries(backups, stamps);
    forall j | 0 <= j < |e|
      ensures e[j].timestamp == listed[j] && listed[j] in backups && e[j] == backups[listed[j]]
    {
      assert listed[j] in listed;
    }
  }

  /** Sorting entries whose timestamps are all different puts them in
      strictly descending timestamp order. */
  lemma {:induction false} SortedStrictly(entries: seq<Backup>, r: seq<Backup>)
    requires forall a, b :: 0 <= a < b < |entries| ==> entries[a].timestamp != entries[b].timestamp
    requires r == SortBy(entries, NewestStampFirst())
    ensures forall i, j :: 0 <= i < j < |r| ==> StrLess(r[j].timestamp, r[i].timestamp)
  {
    NewestStampFirstOrder();
    SortBySorted(entries, NewestStampFirst());
    NoRepeatsPermutation(entries, r);
    forall i, j | 0 <= i < j < |r|
      ensures StrLess(r[j].timestamp, r[i].timestamp)
    {
      SortByMembers(entries, NewestStampFirst(), r[i]);
      SortByMembers(entries, NewestStampFirst(), r[j]);
      var a :| 0 <= a < |entries| && entries[a] == r[i];
      var b :| 0 <= b < |entries| && entries[b] == r[j];
      StrLessTotal(r[i].timestamp, r[j].timestamp);
    }
  }

  /** `getLegacyBackups`: one entry per timestamp found on a key with the
      backup prefix, flagged with the kinds found for it, newest first. */
  method GetLegacyBackups(storage: LocalStorage) returns (r: seq<Backup>)
    ensures forall i, j :: 0 <= i < j < |r| ==> StrLess(r[j].timestamp, r[i].timestamp)
    ensures forall t :: HasStamp(storage.keys, t) <==> exists b :: b in r && b.timestamp == t
    ensures forall b :: b in r ==>
      (b.players <==> HasKind(storage.keys, b.timestamp, "players")) &&
      (b.matches <==> HasKind(storage.keys, b.timestamp, "matches"))
  {
    var backups, stamps := GroupBackups(storage.keys);
    var entries := Entries(backups, stamps);
    r := SortBy(entries, NewestStampFirst());
    GroupEntries(storage.keys);
    SortedStrictly(entries, r);
    forall b
      ensures b in r <==> b in entries
    {
      SortByMembers(entries, NewestStampFirst(), b);
    }
  }

  /** The backup timestamp: the first 19 characters of the ISO time, each
      ':' replaced by '-'. */
  function BackupTimestamp(iso: string): (r: string)
    ensures |r| == if |iso| < 19 then |iso| else 19
    ensures forall k :: 0 <= k < |r| ==> r[k] == if iso[k] == ':' then '-' else iso[k]
  {
    var n := if |iso| < 19 then |iso| else 19;
    seq(n, k requires 0 <= k < n => if iso[k] == ':' then '-' else iso[k])
  }

  /** The key of a backup whose timestamp ends in `mid-last` lists under
      the timestamp `last` and the kind `mid`, whatever kind it was
      written for. */
  lemma {:induction false} DashedStampPieces(kind: string, pre: string, mid: string, last: string)
    requires '-' !in mid && '-' !in last
    ensures Stamp(BackupKey(kind, pre + "-" + mid + "-" + last)) == last
    ensures Kind(BackupKey(kind, pre + "-" + mid + "-" + last)) == Some(mid)
  {
    var front := BackupPrefix + kind + "-" + pre;
    var key := BackupKey(kind, pre + "-" + mid + "-" + last);
    assert key == (front + "-" + mid) + "-" + last;
    SplitConcat(front + "-" + mid, last, '-');
    SplitConcat(front, mid, '-');
    SplitNoSep(mid, '-');
    SplitNoSep(last, '-');
  }

  /** As written, the backups of 15 January 2024 at 10:30:45 are listed
      under the timestamp "45" with kind "30": the list never shows the
      timestamp they were written under, nor which kinds were saved. */
  lemma {:induction false} BackupListedUnderSeconds()
    ensures BackupTimestamp("2024-01-15T10:30:45.000Z") == "2024-01-15T10-30-45"
    ensures Stamp(BackupKey("players", "2024-01-15T10-30-45")) == "45"
    ensures Kind(BackupKey("players", "2024-01-15T10-30-45")) == Some("30")
    ensures forall keys :: !HasStamp(keys, "2024-01-15T10-30-45")
  {
    var t := BackupTimestamp("2024-01-15T10:30:45.000Z");
    assert t == "2024-01-15T10-30-45";
    assert "2024-01-15T10-30-45" == "2024-01-15T10" + "-" + "30" + "-" + "45";
    DashedStampPieces("players", "2024-01-15T10", "30", "45");
    assert '-' in "2024-01-15T10-30-45" by {
      assert "2024-01-15T10-30-45"[4] == '-';
    }
  }

  /** The corrected reading of a backup key: its kind runs from the prefix
      to the next '-', and the timestamp is everything after that. */
  function ParseBackupKey(key: string): (r: Option<(string, string)>)
    ensures r.Some? ==> IsBackupKey(key) && '-' !in r.value.0
    ensures r.None? <==> !IsBackupKey(key) || '-' !in key[|BackupPrefix|..]
  {
    if !IsBackupKey(key) then None
    else
      var rest := key[|BackupPrefix|..];
      var kind := BeforeFirst(rest, '-');
      if |kind| == |rest| then None
      else Some((kind, rest[|kind| + 1..]))
  }

  /** With the corrected reading, every backup key reads back as the kind
      and the timestamp it was written with, dashes in the timestamp
      included. */
  lemma {:induction false} ParseBackupKeyRoundTrip(kind: string, timestamp: string)
    requires '-' !in kind
    ensures ParseBackupKey(BackupKey(kind, timestamp)) == Some((kind, timestamp))
  {
    var key := BackupKey(kind, timestamp);
    var rest := kind + "-" + timestamp;
    assert key[|BackupPrefix|..] == rest;
    BeforeFirstOfSep(kind, timestamp, '-');
    assert rest[|kind| + 1..] == timestamp;
  }
}
