# FIFA 2v2 match tracker — a verified Dafny model of its rules

The tracker records matches between two pairs of players, groups them into
seasons (rows of the `leagues` table) and derives a standings table from
them. Underneath its React pages and storage clients sit groups of
sequential, deterministic rules, and this project models them in Dafny and
proves what they promise:

- **Standings** (`standings.dfy`). The rankings page folds the match list
  into per-player counters:
  - points are 3/1/0;
  - wins + draws + losses = matches and max = 3 × matches hold for every row;
  - the success ratio is exact and lies in [0, 100];
  - the leaderboard order is proved, and so are the headline counts.
- **Match forms** (`match_form.dfy`). The add page and the edit dialog:
  - the ordered validation, where the first failure wins;
  - the available-players exclusion;
  - the submit, save and prefill paths;
  - the default season chosen on load.
- **Record stores** (`records.dfy`, `match_store.dfy`, `player_store.dfy`).
  `Match` and `Player` are classes over the array stored under
  'fifa-matches' and 'fifa-players':
  - list, create, update, delete and findById;
  - the 'Match not found' cases.
- **Tables and lifecycle** (`league_table.dfy`, `seasons.dfy`, `leagues.dfy`).
  - The database service's action dispatch.
  - The `leagues` and `matches` tables as in-memory rows, with each SQL
    statement as an update of them.
  - The `matches.list` query builder.
  - The season and league entities and pages:
    - at most one active row;
    - the locked, delete, end and default rules;
    - the status precedence and the action gates.
- **List pages** (`match_list.dfy`, `players_page.dfy`): search, result filter,
  sort, summary counts and the season selector.
- **CSV codecs** (`text.dfy`, `csv_codec.dfy`, `github_csv.dfy`,
  `csv_service.dfy`, `kv_csv.dfy`).
  - The JavaScript string primitives the code relies on.
  - The quote-aware line parser and serialiser, with their round trip.
  - The three table readers.
  - The file-name mapping.
- **Imports** (`csv_upload.dfy`, `seed_import.dfy`).
  - The upload page's header mapping, row validation, preview, guards and
    import loops.
  - The seed-data script and API route: parsing, unique names, player
    classification, migration season and match import.
- **Sync and migration** (`sync.dfy`, `migration.dfy`).
  - The conflict and recommendation table, and the sync status.
  - The legacy-data detection, the two dedup loops, the all-in-one
    migration with its backup, and the backup listing.
  - The migration as written, where the snapshot of records to skip is
    read from the very keys being migrated, and the migration into a
    separate store that it evidently intends.

Generic pieces (`wrappers.dfy`, `lists.dfy`, `sorting.dfy`,
`object_keys.dfy`) give `Option`/`Result`, an order-preserving `filter`, a
stable comparator sort, and the order in which JavaScript lists an object's
keys (array-index keys such as "1" first, in ascending numeric order, then
the others in creation order).

Conventions of the model:
- The clock, storage failures and id generation become parameters: `today`,
  `now`, `toTime` for `new Date(..)`, `newId`, `insertError`, `failure`.
- Stateful code is written as classes whose methods state their whole new
  state. The loops are proved against recursive specification functions,
  and those functions carry the lemmas.

## Model

| member | source | states |
|---|---|---|
| Standings.MatchPoints | src/pages/Ranking.jsx:61-73 | a decisive match gives 3 points to the winning team and 0 to the losers; equal scores give 1 point to each team |
| Standings.PointsHandedOut | src/pages/Ranking.jsx:61-73 | exactly one outcome applies: 3 points are handed out for a decisive match, 2 for a draw |
| Standings.CreditBalanced | src/pages/Ranking.jsx:76-84 | crediting one slot with 0, 1 or 3 points adds one appearance and keeps wins + draws + losses = matches_played, total_points = 3·wins + draws and max_possible_points = 3·matches_played |
| Standings.SlotBalanced | src/pages/Ranking.jsx:76-85 | a slot credits the name only when it holds that name; the counters stay balanced and the appearance count grows by one exactly then |
| Standings.AfterMatchBalanced | src/pages/Ranking.jsx:57-100 | after one match the counters stay balanced and the name gained one appearance per slot of the four that holds it |
| Standings.TallyBalanced | src/pages/Ranking.jsx:76-99 | over any match list, matches_played is the number of slots (four per match) holding the name, and the row satisfies wins + draws + losses = matches_played, total_points = 3·wins + draws, max_possible_points = 3·matches_played |
| Standings.SuccessRatio | src/pages/Ranking.jsx:103-108 | the ratio is 0 when the maximum is 0 and otherwise satisfies ratio × maximum = 100 × points, computed exactly |
| Standings.BalancedRatioInRange | src/pages/Ranking.jsx:103-108 | the ratio of balanced counters lies in [0, 100] |
| Standings.SuccessInRange | src/pages/Ranking.jsx:103-108 | every tallied success percentage lies in [0, 100] |
| Standings.DistinctNames | src/pages/Ranking.jsx:43-54 | the row keys are exactly the player names, each once, in the order the keys are created |
| Standings.Latest | src/pages/Ranking.jsx:43-54 | a name's row holds a player record with that name, present iff some player carries the name |
| Standings.CreditSlot | src/pages/Ranking.jsx:76-85 | crediting a slot never adds or removes a row: a name outside the player list is ignored |
| Standings.CreditSlotAt | src/pages/Ranking.jsx:76-85 | crediting a slot changes the row named n exactly as that slot's credit to n |
| Standings.CreditMatchAt | src/pages/Ranking.jsx:57-100 | the four slot credits of one match change each row exactly by that match's credit to its name |
| Standings.InitRows | src/pages/Ranking.jsx:43-54 | the first loop makes one zeroed row, with ratio 0, per distinct player name, holding the last player record of that name; `names` is the order the keys are created in, not the order they are listed in (RowsInOrder) |
| Standings.ApplyMatches | src/pages/Ranking.jsx:57-100 | the second loop keeps the keys and leaves every row with its counters folded over all matches in order |
| Standings.FillSuccess | src/pages/Ranking.jsx:103-108 | the last loop sets every row's ratio from its counters and changes nothing else |
| Standings.CalculateStats | src/pages/Ranking.jsx:39-111 | one row per distinct player name, with counters folded over every match and the ratio filled in; slots naming unknown players are ignored; the keys are returned in creation order, which RowsInOrder turns into the listing order |
| Standings.RowsInOrder | src/pages/Ranking.jsx:114 | `Object.values(stats)`: one row per key, every named row present, listed in JavaScript's key order (ObjectKeys.OwnKeysSpec): names that are array indices first, ascending, then the others in creation order |
| Standings.IndexNameListedFirst | src/pages/Ranking.jsx:114 | with players "b" then "1", the row of "1" is listed first |
| Standings.LeaderboardTies | src/pages/Ranking.jsx:113-117 | rows the comparator does not separate keep the order `Object.values` listed them in, so array-index names lead among ties |
| Standings.ActiveRows | src/pages/Ranking.jsx:115 | keeps exactly the rows with matches_played > 0 |
| Standings.RankBeforeOrder | src/pages/Ranking.jsx:116 | the comparator (ratio descending, then points descending) is a strict weak order |
| Standings.LeaderboardSpec | src/pages/Ranking.jsx:113-117 | the leaderboard is a permutation of the rows with matches played, ordered by ratio descending with ties broken by points descending |
| Standings.OverallCounts | src/pages/Ranking.jsx:119-128 | totalPlayers is the number of leaderboard rows and totalMatches the number of matches |
| MatchForm.SetOfFour | src/pages/AddMatch.jsx:85-90 | a set built from the four slots has size four exactly when the names are pairwise distinct |
| MatchForm.ValidateEdit | src/components/matches/EditMatchModal.jsx:66-92 | null iff all four slots are filled with distinct names and both scores are non-empty integers ≥ 0; otherwise the message of the first failing check, in the order empty slot, duplicate name, missing score, invalid score |
| MatchForm.ValidateAdd | src/pages/AddMatch.jsx:78-108 | null iff the edit checks pass and a season is chosen; the edit dialog's message whenever that one fails, and otherwise only "Please select a season for this match" |
| MatchForm.Taken | src/pages/AddMatch.jsx:159-161 | the names taken are exactly the non-empty values of the other player inputs |
| MatchForm.Others | src/pages/AddMatch.jsx:160 | lists every player input except the current one |
| MatchForm.MapValues | src/pages/AddMatch.jsx:161 | holds exactly the values of the listed inputs |
| MatchForm.AvailablePlayers | src/pages/AddMatch.jsx:158-164 | a player is offered iff no other non-empty player input holds its name; the result is a subsequence of the players |
| MatchForm.OwnChoiceStaysAvailable | src/components/matches/EditMatchModal.jsx:121-127 | the name an input already holds stays offered in its own dropdown while no other input holds it |
| MatchForm.NothingTakenOffersAll | src/components/matches/EditMatchModal.jsx:121-127 | with no other input filled every player is offered, in the original order |
| MatchForm.Submitted | src/pages/AddMatch.jsx:123-128 | the stored object copies the four names and the date and carries both scores as parsed integers ≥ 0 |
| MatchForm.Blank | src/pages/AddMatch.jsx:134-143 | the reset form has empty slots and scores and today's date |
| MatchForm.DefaultSeason | src/pages/AddMatch.jsx:56-62 | on load the season becomes the active season's id (as decimal text) only when none is selected; otherwise the form is unchanged |
| MatchForm.Prefill | src/components/matches/EditMatchModal.jsx:31-40 | opening the dialog copies the names and date and shows each score as text that parses back to it |
| MatchForm.PrefillRevalidates | src/components/matches/EditMatchModal.jsx:31-40 | a stored match with four distinct filled slots and scores ≥ 0 passes the edit check unchanged and saving it writes back the same values |
| MatchForm.AddMatchPage.Load | src/pages/AddMatch.jsx:56-62 | loading applies the default-season rule and touches nothing else |
| MatchForm.AddMatchPage.Submit | src/pages/AddMatch.jsx:110-146 | an invalid form shows its message and leaves form, success message and store unchanged; a valid one appends one record with the integer scores to the re-sorted store, shows the success message and resets every field except the season |
| MatchForm.EditMatchDialog.Save | src/components/matches/EditMatchModal.jsx:94-119 | an invalid form shows its message and updates nothing; a valid one overwrites the record with that id with integer scores, or shows the failure message when the id is unknown |
| Records.ReadItems | src/entities/Player.js:7-15 | a missing key or a value that does not parse reads as the empty list; otherwise the stored array |
| MatchStore.NewestFirst | src/entities/Match.js:14-16 | the re-sort is a permutation of the stored matches |
| MatchStore.NewestFirstSorted | src/entities/Match.js:14-16 | after the re-sort created_date never increases along the list |
| MatchStore.AfterCreates | src/entities/Match.js:30-51 | the array after a run of `Match.create` calls holds the old records and the created ones, and ends with the last one created |
| MatchStore.AfterCreatesAppend | src/entities/Match.js:30-51 | running the creates of `a` and then those of `b` leaves the same array as running those of `a + b` |
| MatchStore.Take | src/entities/Match.js:19-21 | `slice(0, limit)`: the first `limit` records, and a negative limit counts from the end |
| MatchStore.List | src/entities/Match.js:9-28 | the default key '-created_date' sorts newest first and any other key keeps the stored order; the result is always a prefix of that ordered list: `slice(0, limit)` of it for a non-zero limit (min(limit, length) records for a positive one, the length plus the limit, at least 0, for a negative one), and all of it for no limit or a zero limit |
| MatchStore.FirstIndex | src/entities/Match.js:56 | none iff no record has the id; otherwise the index of the first record with it |
| MatchStore.NewRecord | src/entities/Match.js:33-43 | the new record copies the four names and both scores, takes the date or today when it is empty, and holds nothing else (a season id is not stored) |
| MatchStore.Updated | src/entities/Match.js:62-72 | id and created_date are kept; players, scores and match_date are replaced and updated_date is set |
| MatchStore.MatchStore.Create | src/entities/Match.js:30-51 | the store becomes the newest-first list plus exactly the new record at the end, one longer than before |
| MatchStore.MatchStore.Update | src/entities/Match.js:53-81 | an unknown id gives 'Match not found' and writes nothing; a known id overwrites only the first record with it, so the length is unchanged |
| MatchStore.MatchStore.Delete | src/entities/Match.js:83-98 | removes every record with the id, keeping the rest in newest-first order; 'Match not found' and no write when nothing was removed |
| MatchStore.MatchStore.FindById | src/entities/Match.js:100-108 | a stored record with the id, the first one with it in newest-first order, or null iff no stored record has it |
| MatchStore.DeleteSpec | src/entities/Match.js:86 | after delete the store holds exactly the records whose id differs |
| PlayerStore.PlayerStore.List | src/entities/Player.js:7-15 | the stored array, or [] |
| PlayerStore.PlayerStore.Create | src/entities/Player.js:17-32 | appends exactly one {id, name, created_at} at the end with no duplicate-name check; earlier players are unchanged and in order |
| PlayerStore.PlayerStore.Delete | src/entities/Player.js:34-44 | removes every player with the id, keeps the rest in order and succeeds even when the id is absent |
| MatchStore.MatchStore.constructor | src/entities/Match.js:11 | a store holding exactly the given value of 'fifa-matches' |
| PlayerStore.PlayerStore.constructor | src/entities/Player.js:7-15 | a store holding exactly the given value of 'fifa-players' |
| LeagueTable.Dispatch | src/services/DatabaseService.js:63-222 | a name listed in the switch selects its statement; any other name is refused with 'Unknown database action: <action>' |
| LeagueTable.SeasonActionsRefused | src/services/DatabaseService.js:220-221 | 'leagues.update', 'leagues.delete' and 'leagues.endSeason', which the season entity sends, have no case and are refused |
| LeagueTable.DispatchInjective | src/services/DatabaseService.js:64-218 | distinct action names select distinct statements |
| LeagueTable.ApplyPatch | src/entities/League.js:59-73 | only the supplied columns change; id, lock flag, end date and creation date stay |
| LeagueTable.ActiveCount | src/services/DatabaseService.js:125-132 | the number of active rows, zero iff no row is active |
| LeagueTable.ActiveCountAppend | src/services/DatabaseService.js:118-122 | inserting a row adds one to the active count iff the row is active |
| LeagueTable.Deactivated | src/services/DatabaseService.js:115 | `UPDATE leagues SET is_active = false` clears the flag of every row and leaves no row active |
| LeagueTable.ActivatedOnly | src/services/DatabaseService.js:136-143 | after the two updates a row is active iff its id is the one given |
| LeagueTable.ActivatedOnlyCount | src/services/DatabaseService.js:134-144 | with distinct ids, exactly one row is active afterwards when the id exists and none otherwise |
| LeagueTable.FirstWithId | src/services/DatabaseService.js:143-144 | the returned row has the id, and there is none iff no row has it |
| LeagueTable.ListBeforeOrder | src/services/DatabaseService.js:106 | `ORDER BY is_active DESC, created_date DESC` is a strict weak order |
| LeagueTable.WithoutId | src/entities/League.js:110 | deleting by id keeps exactly the rows with other ids and keeps ids distinct |
| LeagueTable.PatchedRows | src/entities/League.js:73 | the patch reaches every row with the id and no other row; the length is unchanged |
| LeagueTable.LeagueTable.List | src/services/DatabaseService.js:102-108 | `leagues.list` returns every row once, in a new order |
| LeagueTable.LeagueTable.ListedFirst | src/services/DatabaseService.js:102-108 | a table with a row lists something, and no row is listed ahead of the first listed one |
| LeagueTable.LeagueTable.ListOrdered | src/services/DatabaseService.js:102-108 | `leagues.list` puts active rows first, then newest created_date first |
| LeagueTable.LeagueTable.GetActive | src/services/DatabaseService.js:125-132 | `leagues.getActive` returns an active row, or null iff none is active |
| LeagueTable.FirstActive | src/services/DatabaseService.js:125-132 | the first active row, or none iff no row is active |
| LeagueTable.LeagueTable.Create | src/services/DatabaseService.js:110-123 | an active new row follows a deactivation of all rows and is then the only active one; an inactive one leaves the other rows untouched |
| LeagueTable.LeagueTable.SetActive | src/services/DatabaseService.js:134-144 | exactly one row is active afterwards if the id exists and none otherwise; the returned row is that row, and it is active |
| LeagueTable.LeagueTable.Patch | src/entities/League.js:59-77 | sets the supplied columns of the rows with the id; the result is none iff the id is unknown |
| LeagueTable.LeagueTable.Remove | src/entities/League.js:94-110 | removes the rows with the id |
| LeagueTable.OffForCovers | src/entities/Season.js:137-144 | switching off every id of an active row leaves the same rows as clearing every flag |
| LeagueTable.SwitchOff | src/entities/Season.js:139-142 | one `is_active = false` update adds its id to the set switched off |
| LeagueTable.PatchOff | src/entities/Season.js:139-142 | clearing the flag of one more id equals switching off the set grown by that id |
| LeagueTable.DeactivateAll | src/entities/Season.js:132-149 | updates are issued for exactly the ids of the active rows; afterwards no row is active and nothing else has changed |
| LeagueTable.DeactivateAt | src/entities/Season.js:137-143 | one loop step: an active listed row gets its update and the loop invariant is kept |
| LeagueTable.ListedCoversActive | src/entities/Season.js:134-144 | because the listing holds the table's rows in another order, the ids updated are exactly those of the active rows |
| LeagueTable.FoundInPermutation | src/entities/Season.js:89-97 | a row found in the listing is in the table, and an id missing from the listing is missing from the table |
| LeagueTable.FindById | src/entities/Season.js:89-97 | returns the row whose id equals `parseInt(id)`, nothing when the text does not parse, and nothing only when no row has that id |
| LeagueTable.StrictlyTrueIsTruthy | src/entities/Season.js:29-38 | a stored flag of true implies the deactivation ran, but a truthy text such as "yes" deactivates every row and still stores false |
| LeagueTable.DuplicateNameError | src/entities/Season.js:49-54 | an error mentioning 'duplicate key value' or 'already exists' becomes "A <entity> with this name already exists. Please choose a different name."; any other message passes through |
| LeagueTable.Overwrite | src/services/DatabaseService.js:199-214 | the seven player/score/date columns are replaced; id, league_id and created_date stay |
| LeagueTable.MatchTable.Create | src/services/DatabaseService.js:183-197 | `matches.create` appends one row with a fresh id carrying the given columns |
| LeagueTable.MatchTable.Update | src/services/DatabaseService.js:199-214 | `matches.update` overwrites the rows with the id and leaves every other row as it was; it returns `rows[0]` of the RETURNING set, here the first row with the id, and nothing iff no row has the id |
| LeagueTable.MatchTable.Delete | src/services/DatabaseService.js:216-218 | `matches.delete` leaves exactly the rows with other ids, each as often as before and in table order (the filter by id) |
| LeagueTable.OrderClause | src/services/DatabaseService.js:163-172 | adds ORDER BY only for the four known sort keys |
| LeagueTable.BuildMatchesList | src/services/DatabaseService.js:147-181 | WHERE league_id appears iff the league id is truthy and LIMIT iff the limit is truthy; the parameters are pushed in that order, the default sort is '-created_date', and each placeholder numbers its own parameter: `$1` is the league id when filtered, and the LIMIT placeholder is `$2` with a league filter and `$1` without, naming the last parameter, the limit |
| Seasons.SeasonRecord | src/entities/Season.js:33-40 | the stored record keeps the name, defaults the description to '', the start date to today and the end date to null, has is_active true iff the input was true or 'true', and is never locked |
| Seasons.Create | src/entities/Season.js:26-56 | all seasons are deactivated first iff the flag is truthy; the new row is then inserted (the only active one when stored active), and a failed insert reports the reworded duplicate-name error |
| Seasons.Delete | src/entities/Season.js:69-87 | a season with at least one match is refused with "Cannot delete season with existing matches. End the season first." and nothing is deleted; otherwise its row is removed |
| Seasons.CanModifySpec | src/entities/Season.js:174-183 | canModify holds only for an existing season whose id equals `parseInt(id)` and which is not locked; text that does not parse is never modifiable; conversely, with ids distinct, an unlocked season with that id is modifiable |
| Seasons.CreateDefault | src/entities/Season.js:151-172 | an empty table gets one active, unlocked 'Default Season'; otherwise nothing changes and the active season is returned, or, when none is active, the first season in list order (no season is listed ahead of it) |
| Seasons.SeasonStatus | src/pages/Seasons.jsx:278-283 | locked gives "Ended", else active gives "Active", else a truthy (present, non-empty) end date gives "Completed", else "Scheduled" |
| Seasons.GatesFollowStatus | src/pages/Seasons.jsx:347-538 | "Activate" is offered iff the season is neither active nor locked, and "End Season" iff it is active, unlocked and the user is admin; never both, and neither for an ended season |
| Seasons.CreateRequest | src/pages/Seasons.jsx:87-100 | a name that is blank after trimming is refused with "Season name is required"; otherwise the request carries the trimmed name and is never active |
| Seasons.EditRequest | src/pages/Seasons.jsx:112-124 | the same name check; the update carries the trimmed name |
| Seasons.CreateFromPage | src/pages/Seasons.jsx:87-110 | a page-created season is appended inactive and no other season changes |
| Seasons.EndGuard | src/pages/Seasons.jsx:148-152 | only an admin may end a season ("Only administrators can end seasons") |
| Seasons.EditGuard | src/pages/Seasons.jsx:247-251 | a locked season opens for editing only for an admin ("Cannot edit locked seasons") |
| Seasons.PlayedNames | src/pages/Seasons.jsx:69-74 | exactly the non-empty names in any slot of the season's matches |
| Seasons.SeasonStats | src/pages/Seasons.jsx:63-77 | given a per-season match source (the source's `Match.getBySeason` is undefined, see Left out), one entry per listed season, holding its match count and its number of distinct non-empty player names |
| Leagues.Create | src/entities/League.js:23-50 | all leagues are deactivated first iff the flag is truthy; the row stores is_active true iff the input was true or 'true' (then it is the only active row); a failed insert reports the reworded duplicate-name error |
| Leagues.PatchOf | src/entities/League.js:59-70 | undefined properties are dropped: name and description as given, and the flag, when given at all, is true iff it was true or 'true' |
| Leagues.Update | src/entities/League.js:52-90 | a truthy flag deactivates every league first; then only the supplied columns of that league change; an unknown id gives 'League not found' |
| Leagues.Delete | src/entities/League.js:92-117 | an unknown id gives 'League not found'; an active league with matches is refused; any other league, even an inactive one with matches, is removed |
| Leagues.SetActive | src/entities/League.js:140-154 | no returned row gives 'League not found' and leaves none active; otherwise the league is the only active one |
| Leagues.EndLeague | src/entities/League.js:172-188 | an unknown id gives 'League not found' and changes nothing; otherwise only is_active is cleared, and end_date is not set |
| Leagues.EndedRowIsFirst | src/entities/League.js:179-183 | with distinct ids, the row returned after ending a league is that league with its flag cleared |
| Leagues.CreateDefault | src/entities/League.js:190-210 | an empty table gets one active 'Default League'; otherwise nothing changes and the active league is returned, or, when none is active, the first league in list order (no league is listed ahead of it) |
| Leagues.SlotValues | src/entities/League.js:226-232 | exactly the values in any slot of the league's matches, empty names included |
| Leagues.DateRange | src/entities/League.js:237-240 | the earliest and latest match date, both taken from the matches and bounding every one |
| Leagues.GetStats | src/entities/League.js:215-241 | total_matches is the match count, total_players the number of distinct slot values, and date_range is null iff there are no matches |
| Leagues.CollectNames | src/entities/League.js:226-232 | the loop adds every slot value of every match to the set |
| Leagues.SlotValuesStep | src/entities/League.js:227-232 | one more match adds exactly its four slot values |
| Leagues.StatusBadge | src/pages/Leagues.jsx:216-224 | active gives "Active", else a truthy (present, non-empty) end date gives "Ended", else "Inactive" |
| Leagues.GatesFollowBadge | src/pages/Leagues.jsx:445-457 | "Activate" is offered iff the league is neither active nor ended, "End League" iff it is active, and an ended league is offered neither |
| Leagues.CreateRequest | src/pages/Leagues.jsx:75-88 | a name that is blank after trimming is refused with "League name is required"; otherwise the request carries the trimmed name and is never active |
| Leagues.EditRequest | src/pages/Leagues.jsx:106-118 | the same name check; the update sets the trimmed name and the description and leaves the flag alone |
| Leagues.PageCreateLeavesOthers | src/pages/Leagues.jsx:84-88 | a league created from the page is stored inactive and triggers no deactivation |
| MatchList.SortOrderIsStrictWeak | src/pages/Matches.jsx:120-131 | each of the four date comparators, and the all-equal one for an unknown key, is a strict weak order |
| MatchList.Kept | src/pages/Matches.jsx:99-117 | a match is kept iff the term is empty or hits one of the four lower-cased names, and it passes the result filter ('wins_team1', 'wins_team2', 'draws', anything else keeps all) |
| MatchList.Narrow | src/pages/Matches.jsx:97-117 | applying the search only for a non-empty term and the result filter only when it is not "all" gives exactly the kept matches in their original order |
| MatchList.FilterAndSort | src/pages/Matches.jsx:96-134 | the result is a permutation of the kept matches, sorted by the chosen date ascending or descending; matches the comparator does not separate keep their kept order (the sort is stable); an unknown sort key leaves the filtered order unchanged |
| MatchList.SameFilter | src/pages/Matches.jsx:100-117 | skipping a filter step equals filtering with a predicate that keeps everything, and applying it equals any predicate that agrees with it |
| MatchList.FilterSame | src/pages/Matches.jsx:101-116 | two predicates that agree on every match filter alike |
| MatchList.GetMatchStats | src/pages/Matches.jsx:160-167 | totalMatches is the list length; team1Wins counts the matches team 1 won, team2Wins those team 2 won, draws the level ones; the three add up to totalMatches |
| MatchList.OutcomesPartition | src/pages/Matches.jsx:162-164 | every match is exactly one of a team-1 win, a team-2 win and a draw |
| MatchList.SelectedSeasonName | src/pages/Matches.jsx:169-173 | 'All Time' for "all"; otherwise the name of a season whose id prints as the selection, or 'Unknown Season' when none does |
| MatchList.FirstNamed | src/pages/Matches.jsx:171-172 | 'Unknown Season' when no season's id prints as the selection; otherwise the name of such a season |
| MatchList.InitialSelection | src/pages/Matches.jsx:63-69 | "all" iff no season is active; otherwise the id of an active season, as text that parses back to it |
| MatchList.SelectedIsFirstNamed | src/pages/Matches.jsx:169-173 | for a selection other than "all", the name shown is that of the first season whose id prints as the selection |
| MatchList.FirstNamedAt | src/pages/Matches.jsx:171-172 | `find` gives the name of the first season whose id prints as the selection |
| MatchList.InitialSelectionFirstActive | src/pages/Matches.jsx:63-69 | the initial selection is the id of the first active season |
| PlayersPage.FilterPlayers | src/pages/Players.jsx:63-73 | an empty term keeps every player; otherwise exactly the players whose lower-cased name contains the lower-cased term, in their order |
| PlayersPage.Summarize | src/pages/Players.jsx:163-166 | totalPlayers is the list length, activePlayers counts the players with a match played, and topPlayer is the first player or null |
| PlayersPage.Submit | src/pages/Players.jsx:83-101 | a blank name is refused with "Player name is required"; otherwise the decision handleSubmit makes against an abstract player repository: update the player being edited, or create a new one (the source's `Player.update` is undefined, see Left out) |
| PlayersPage.AcceptedNameHasContent | src/pages/Players.jsx:86-89 | an accepted name holds a non-space character |
| Text.Split | src/pages/CsvUpload.jsx:79 | `split` on one character yields one piece more than there are separators, and no piece holds the separator |
| Text.JoinSplit | src/services/GitHubService.js:351 | joining the pieces of a split with the same separator gives the string back |
| Text.SplitJoin | src/services/GitHubService.js:351-360 | splitting a join of separator-free pieces gives the pieces back |
| Text.BeforeFirst | src/pages/CsvUpload.jsx:293 | `split(c)[0]` is the longest prefix without c, and the whole string when c does not occur |
| Text.BeforeFirstIsSplit | src/pages/CsvUpload.jsx:293 | the cut before the first c is the first piece of the split |
| Text.TrimStart | src/pages/CsvUpload.jsx:79 | removes exactly the leading white space |
| Text.TrimEnd | src/pages/CsvUpload.jsx:79 | removes exactly the trailing white space |
| Text.BlankIffAllSpace | src/pages/Seasons.jsx:90 | `!s.trim()` holds exactly when every character is white space |
| Text.Lower | src/pages/CsvUpload.jsx:85 | `toLowerCase` keeps the length and lowers each ASCII letter |
| Text.DigitPrefixLen | src/pages/CsvUpload.jsx:141 | `parseInt` reads the longest run of leading digits |
| Text.ParseIntOfIntToString | src/components/matches/EditMatchModal.jsx:37-38 | the decimal text of an integer parses back to that integer |
| Text.ParseIntEmpty | src/pages/AddMatch.jsx:92-101 | an empty string does not parse (NaN) |
| Text.StrLessTotal | src/pages/CsvUpload.jsx:171-176 | two strings are equal or one is less than the other under `<` |
| Text.StrLessTransitive | src/pages/CsvUpload.jsx:171-176 | string `<` is transitive |
| Text.StrLessIrreflexive | src/pages/CsvUpload.jsx:171-176 | no string is less than itself under `<` |
| Text.StrLessAsymmetric | src/pages/CsvUpload.jsx:171-176 | string `<` never holds both ways |
| CsvCodec.Scan | src/services/GitHubService.js:382-413 | the state machine keeps the fields already closed and adds at least one more |
| CsvCodec.ParseLine | src/services/GitHubService.js:382-413 | every line yields at least one field |
| CsvCodec.ParseCsvLine | src/services/GitHubService.js:382-413 | the character loop returns exactly the fields of the state machine: a doubled quote inside quotes gives one quote, any other quote toggles quoting and is dropped, and a comma outside quotes closes a field |
| CsvCodec.ScanLength | src/services/GitHubService.js:387-410 | the state machine closes one field per comma it meets outside quotes, plus the last one |
| CsvCodec.FieldCount | src/services/GitHubService.js:382-413 | a line has one field more than it has commas outside quotes |
| CsvCodec.ScanWithoutQuotes | src/services/GitHubService.js:400-406 | without quotes the state machine splits on every comma |
| CsvCodec.ParseLineWithoutQuotes | src/services/GitHubService.js:382-413 | on a line without quotes the parser is a plain `split(',')` |
| CsvCodec.DoubleQuotes | src/services/GitHubService.js:345 | every quote is doubled and no other character is added or lost |
| CsvCodec.Escape | src/services/GitHubService.js:344-347 | a string with a comma, quote or newline is wrapped in quotes; any other string is written as is; a newline survives escaping |
| CsvCodec.ScanPlain | src/services/GitHubService.js:404-406 | a value without commas or quotes is read into the current field unchanged |
| CsvCodec.ScanQuotedBody | src/services/GitHubService.js:391-399 | inside quotes, the doubled-quote body followed by the closing quote reads back as the original value |
| CsvCodec.ScanEscaped | src/services/GitHubService.js:341-406 | an escaped value reads back as the value itself when the next character is not a quote |
| CsvCodec.EscapeAll | src/services/GitHubService.js:341-348 | escapes each value of the row, in order |
| CsvCodec.RowLineCons | src/services/GitHubService.js:349 | a row line is its first escaped value, a comma and the line of the rest |
| CsvCodec.ScanComma | src/services/GitHubService.js:400-403 | a comma outside quotes closes the current field |
| CsvCodec.ScanRow | src/services/GitHubService.js:341-413 | scanning a written row appends its values, in order |
| CsvCodec.RowRoundTrip | src/services/GitHubService.js:341-413 | parsing a written row of strings returns those strings in order, whatever characters they contain |
| CsvCodec.RowLineOneLine | src/services/GitHubService.js:341-349 | a row of newline-free values is written on one line |
| CsvCodec.CellText | src/services/GitHubService.js:342-347 | falsy values are written as '' and strings are escaped |
| CsvCodec.ObjectLineIsRowLine | src/services/GitHubService.js:341-349 | the line of an all-string object is the row line of its strings in header order |
| CsvCodec.ObjectRoundTrip | src/services/GitHubService.js:341-412 | for an object whose header fields are all strings, parsing its row returns those strings in header order |
| CsvCodec.ToObject | src/services/GitHubService.js:369-373 | the object built from a line has exactly the given headers |
| CsvCodec.ToObjectAt | src/services/GitHubService.js:371-373 | a header takes the value at its last position, or '' when the line is short |
| CsvCodec.ReadBack | src/services/GitHubService.js:367-376 | an all-string object reads back with exactly the given headers |
| CsvCodec.ReadBackAt | src/services/GitHubService.js:367-376 | with distinct headers each header reads back the string it held |
| CsvCodec.ObjectsOf | src/services/GitHubService.js:367-376 | one object per data line, in order, each built from that line's fields |
| CsvCodec.TableLines | src/services/GitHubService.js:337-350 | the header line, then one line per object, in order |
| CsvCodec.BuildRows | src/services/GitHubService.js:337-350 | the loop pushes the header line, then the line of each object in turn |
| CsvCodec.CellTextOneLine | src/services/GitHubService.js:342-347 | a cell without a newline is written without one |
| CsvCodec.TableSplits | src/services/GitHubService.js:352-361 | with newline-free headers and values, splitting the joined table on newlines gives its lines back |
| CsvCodec.TrimmedStartsSolid | src/services/GitHubService.js:361 | a non-empty text that trim leaves alone starts and ends with a non-space |
| CsvCodec.TrimDropsFinalNewline | src/services/CsvService.js:38-47 | trimming removes a newline appended to a trimmed, non-empty text |
| CsvFiles.ArrayToCSV | src/services/CsvService.js:19-39 | empty data gives the header line followed by '\n'; otherwise the header line plus one line per row, quoted as needed, joined with '\n' |
| CsvFiles.DataLines | src/services/CsvService.js:51-54 | the first line is dropped exactly when more lines follow and it equals headers.join(',') |
| CsvFiles.CsvToArray | src/services/CsvService.js:44-66 | blank text gives []; otherwise one object per line, one fewer exactly when the header line was dropped, each object with exactly the given headers |
| CsvFiles.TableTextLines | src/services/CsvService.js:38-49 | a written non-empty table of newline-free values splits back into its lines |
| CsvFiles.BodyReadsBack | src/services/CsvService.js:56-65 | the lines after the header read back as the written objects |
| CsvFiles.CsvRoundTrip | src/services/CsvService.js:19-97 | a non-empty table of newline-free string values reads back as its objects, when the written text has no white space at either end for trim to remove |
| CsvFiles.HeaderLineIsRow | src/services/CsvService.js:21-24 | the header line of plain headers is their serialised row and holds no newline |
| CsvFiles.EmptyTableLines | src/services/CsvService.js:20-49 | a saved empty table is the header line alone once trimmed |
| CsvFiles.EmptyTableReadsBackHeaderRow | src/services/CsvService.js:20-65 | reading back a saved empty table yields one object whose values are the header names, because the lone header line is not skipped |
| CsvFiles.DataLinesAfterHeader | src/services/CsvService.js:51-54 | the corrected skip drops a leading header line even when it is the only line |
| CsvFiles.CsvToArrayHeaderAware | src/services/CsvService.js:44-66 | the corrected reader: blank text gives [], and every object has exactly the given headers |
| CsvFiles.HeaderAwareRoundTrip | src/services/CsvService.js:19-66 | with the corrected skip every saved table, the empty one included, reads back as its objects |
| CsvFiles.TableOf | src/services/CsvService.js:294-301 | the table is chosen by substring, testing 'players', then 'matches', then 'leagues' |
| CsvFiles.ReadCsv | src/services/CsvService.js:292-304 | an unmatched file name gives []; otherwise the chosen table is loaded |
| CsvFiles.WriteCsv | src/services/CsvService.js:309-322 | an unmatched file name gives false; otherwise the outcome of saving the chosen table |
| GitHubCsv.IsConfigured | src/services/GitHubService.js:24-27 | true iff a configuration is stored and its token, owner and repo are all non-empty |
| GitHubCsv.ArrayToCsv | src/services/GitHubService.js:334-353 | an empty array gives ''; otherwise the header line plus one line per object, joined with '\n' |
| GitHubCsv.CsvToArray | src/services/GitHubService.js:358-377 | blank text gives []; otherwise the first line is always dropped and there is one object per remaining line, each with exactly the given headers (none for a single line) |
| GitHubCsv.TableTextSolid | src/services/GitHubService.js:334-353 | a non-empty array is never written as the empty text |
| GitHubCsv.CsvRoundTrip | src/services/GitHubService.js:334-377 | an array whose header fields are newline-free strings reads back as those objects, when the written text has no white space at either end for trim to remove |
| GitHubCsv.NoteLine | src/services/GitHubService.js:341-349 | the value "a\nb" is written quoted, newline included |
| GitHubCsv.NoteWritten | src/services/GitHubService.js:334-353 | the one-object table holding "a\nb" is written as the header line and the quoted value |
| GitHubCsv.NewlineValueSplitsObject | src/services/GitHubService.js:344-367 | one object whose value holds a newline reads back as two objects, because the reader splits on every newline before looking at quotes |
| GitHubCsv.NoteTextTrimmed | src/services/GitHubService.js:361 | trim leaves that written text as it is |
| GitHubCsv.NoteTextSplits | src/services/GitHubService.js:361 | that text splits into three lines |
| GitHubCsv.Records | src/services/GitHubService.js:361 | the corrected record splitter keeps the records already closed and adds at least one |
| GitHubCsv.SplitRecordsWithoutQuotes | src/services/GitHubService.js:361 | on text without quotes the corrected splitter is the plain newline split |
| GitHubCsv.RecordsWithoutQuotes | src/services/GitHubService.js:361 | without quotes the record splitter closes a record at every newline |
| GitHubCsv.RecordsPlain | src/services/GitHubService.js:344-347 | a value without quotes or newlines passes through the record splitter into the current record |
| GitHubCsv.RecordsQuotedBody | src/services/GitHubService.js:345 | a doubled-quote body passes through the record splitter unchanged, inside quotes |
| GitHubCsv.RecordsEscaped | src/services/GitHubService.js:341-348 | an escaped value passes through the splitter whole and leaves the quote state closed |
| GitHubCsv.RecordsComma | src/services/GitHubService.js:349 | a comma outside quotes stays in the current record |
| GitHubCsv.RecordsRow | src/services/GitHubService.js:341-349 | a serialised row passes through the splitter whole |
| GitHubCsv.RowLines | src/services/GitHubService.js:349 | one line per row, in order |
| GitHubCsv.RowLinesCons | src/services/GitHubService.js:352 | the joined lines are the first line, a newline and the joined rest |
| GitHubCsv.RecordsNewline | src/services/GitHubService.js:352 | a newline outside quotes closes the current record |
| GitHubCsv.RecordsOfRows | src/services/GitHubService.js:349-352 | splitting the joined row lines into records gives the lines back |
| GitHubCsv.TableIsRows | src/services/GitHubService.js:337-350 | with plain headers, the table lines are the row lines of the headers and of each object's strings |
| GitHubCsv.SplitRecordsOfTable | src/services/GitHubService.js:334-353 | splitting a written table into records gives its lines back, newlines inside values included |
| GitHubCsv.CsvToArrayQuoteAware | src/services/GitHubService.js:358-377 | the corrected reader: blank text gives [], one object per record after the first, each with exactly the given headers |
| GitHubCsv.QuoteAwareAgreesWithoutQuotes | src/services/GitHubService.js:358-377 | on text without quotes the corrected reader returns what the reader as written returns |
| GitHubCsv.QuoteAwareRoundTrip | src/services/GitHubService.js:334-377 | with the corrected reader, string values read back whatever they contain, newlines included |
| KvCsv.ParseCsvToJson | src/services/VercelKvService.js:211-228 | empty text gives []; otherwise one object per trimmed line after the first, each with exactly the given headers |
| KvCsv.SplitObjects | src/services/VercelKvService.js:220-227 | one object per line, built from the line's comma-separated pieces in header order |
| KvCsv.AgreesWithoutQuotes | src/services/VercelKvService.js:211-228 | on text without quotes this reader returns exactly what the GitHub service's csvToArray returns |
| KvCsv.ObjectsAgree | src/services/VercelKvService.js:220-227 | line by line, a plain comma split and the quote-aware line parser build the same objects from lines without quotes |
| CsvUpload.HeaderCells | src/pages/CsvUpload.jsx:85 | one header cell per comma-separated piece of the first line, each trimmed and lower-cased |
| CsvUpload.FindIndex | src/pages/CsvUpload.jsx:108 | absent exactly when the spelling is not a header; otherwise its first position |
| CsvUpload.Column | src/pages/CsvUpload.jsx:106-114 | absent exactly when no spelling of the field is a header; otherwise the first position of the first spelling that is |
| CsvUpload.MissingFields | src/pages/CsvUpload.jsx:116-118 | empty exactly when every field has a column; it names exactly the fields without one |
| CsvUpload.Found | src/pages/CsvUpload.jsx:137-143 | the columns of the seven fields once each has one, in field order |
| CsvUpload.Cell | src/pages/CsvUpload.jsx:137-143 | present exactly when the index is inside the row, and then the value there |
| CsvUpload.Score | src/pages/CsvUpload.jsx:141-142 | an absent value is NaN; a present one is its parseInt |
| CsvUpload.RowMatch | src/pages/CsvUpload.jsx:136-152 | a row is kept exactly when both first players are non-empty and both scores parse; the kept match holds the mapped values |
| CsvUpload.Keep | src/pages/CsvUpload.jsx:129-152 | a line contributes one match exactly when it has at least seven values and its row is valid, and nothing otherwise |
| CsvUpload.ConcatAppend | src/pages/CsvUpload.jsx:128 | the rows of two blocks of lines are the rows of each, in order |
| CsvUpload.ConcatFrom | src/pages/CsvUpload.jsx:128 | every collected element comes from one line |
| CsvUpload.ConcatOf | src/pages/CsvUpload.jsx:128 | every line's elements are collected |
| CsvUpload.KeptRowFrom | src/pages/CsvUpload.jsx:128-153 | every parsed match has both first players and comes from a data line with at least seven values whose row is valid |
| CsvUpload.KeptMatch | src/pages/CsvUpload.jsx:129-152 | a match one line contributes is that line's valid row |
| CsvUpload.KeptRowOf | src/pages/CsvUpload.jsx:128-153 | every data line with at least seven values and a valid row is parsed |
| CsvUpload.MapColumn | src/pages/CsvUpload.jsx:106-114 | the spelling loop finds the field's column as defined by Column |
| CsvUpload.MapHeaders | src/pages/CsvUpload.jsx:99-119 | the header mapping loop gives every field's column and the missing fields in field order |
| CsvUpload.MissingAppend | src/pages/CsvUpload.jsx:116-118 | one more field adds its name to the missing list exactly when it has no column |
| CsvUpload.CollectRows | src/pages/CsvUpload.jsx:128-153 | the data-line loop collects the kept rows of every line after the first, in order |
| CsvUpload.KeepLine | src/pages/CsvUpload.jsx:129-152 | one data line yields what Keep says |
| CsvUpload.ParseCsvData | src/pages/CsvUpload.jsx:78-160 | fewer than two trimmed lines, a field without a column (with the cells found and the fields missing) and no valid row are the three errors, in that order; otherwise the kept rows |
| CsvUpload.NamesOf | src/pages/CsvUpload.jsx:164-169 | both first players always, the second players only when present and non-empty, and nothing else |
| CsvUpload.NotLessTransitive | src/pages/CsvUpload.jsx:172-175 | "not before" is transitive for the string comparison the reduces use |
| CsvUpload.StrLessIsStrictWeak | src/pages/CsvUpload.jsx:181 | the string order is a strict weak order, so the name sort is sound |
| CsvUpload.EarliestFromBound | src/pages/CsvUpload.jsx:172-173 | the min reduce yields a value no present date is before, which is the start value or one of the dates |
| CsvUpload.LatestFromBound | src/pages/CsvUpload.jsx:174-175 | the max reduce yields a value no present date is after, which is the start value or one of the dates |
| CsvUpload.DateRangeBounds | src/pages/CsvUpload.jsx:171-176 | the earliest date is before no present date and the latest after none; each is blank or one of the dates |
| CsvUpload.AddNames | src/pages/CsvUpload.jsx:163-169 | adding to the name set keeps it free of repeats and holds exactly the old and the added names |
| CsvUpload.CollectNames | src/pages/CsvUpload.jsx:163-169 | the name set holds every name the matches mention, each once |
| CsvUpload.GeneratePreview | src/pages/CsvUpload.jsx:162-185 | the match count, exactly the mentioned names strictly ascending, their count, the date range and the first five matches |
| CsvUpload.ImportGuard | src/pages/CsvUpload.jsx:187-201 | no error exactly when there are rows and the season choice is complete; otherwise the first failing guard's message |
| CsvUpload.FindSeason | src/pages/CsvUpload.jsx:214 | absent exactly when no season id written as text equals the selection; otherwise a season whose id does |
| CsvUpload.ChooseSeason | src/pages/CsvUpload.jsx:213-226 | an existing season that is not found is the only error; a new season is active, named by the trimmed name, with the trimmed description or an import note, starting at the date part of the earliest date: the longest space-free prefix of it, which ends at its first space |
| CsvUpload.PlayerTallyCounts | src/pages/CsvUpload.jsx:264-281 | each name lands in exactly one counter: created when its write succeeds, existing when refused as already present, an error line otherwise |
| CsvUpload.EnsureStep | src/pages/CsvUpload.jsx:267-278 | one more name updates the counters and the added players by one step |
| CsvUpload.NewPlayersFacts | src/pages/CsvUpload.jsx:267-271 | one added player per created count, numbered by creation, each a name whose write succeeded |
| CsvUpload.EnsurePlayersExist | src/pages/CsvUpload.jsx:264-281 | the loop returns the counters of PlayerTally and appends exactly the created players to the player store |
| CsvUpload.OrEmpty | src/pages/CsvUpload.jsx:298-300 | a present value is kept and an absent one becomes '' |
| CsvUpload.Shown | src/pages/CsvUpload.jsx:316 | a present value is kept and an absent one prints as 'undefined' |
| CsvUpload.ImportInput | src/pages/CsvUpload.jsx:290-305 | a row without a date fails; otherwise the date cut at its first space, no longer than before, the players with missing second players as '', and the scores |
| CsvUpload.ImportedCounts | src/pages/CsvUpload.jsx:283-323 | every row imports or fails, the failures are exactly the undated rows, and, when today's date holds no space, no imported date carries a time of day |
| CsvUpload.ImportedStep | src/pages/CsvUpload.jsx:286-320 | one more row either adds its record or its failure label |
| CsvUpload.ImportMatches | src/pages/CsvUpload.jsx:283-323 | the success count is the number of records created, the failures are the labels of the undated rows, and the store gains exactly those records, in the order the successive `Match.create` calls leave (AfterCreates) |
| CsvUpload.ImportRow | src/pages/CsvUpload.jsx:289-319 | one row adds its record to the store when it has a date and nothing otherwise, the store becoming the `Match.create` result |
| Sync.NewConflicts | src/services/SyncService.js:101-116 | the players conflict is recorded exactly when both stores hold data and the player counts differ, the matches conflict likewise for match counts, and nothing else |
| Sync.Recommend | src/services/SyncService.js:118-143 | exactly one of migrate, clear-legacy, resolve-conflicts and fix-api under the first branch that applies, or none exactly when the API is up, both stores agree on holding data and no conflict needs resolving |
| Sync.AsList | src/services/SyncService.js:118-143 | no recommendation appends nothing; one appends exactly it |
| Sync.DataState.Value | src/services/SyncService.js:98-99 | the record's two summaries, conflicts and recommendations as a value |
| Sync.DataState.AnalyzeConflicts | src/services/SyncService.js:98-144 | leaves both summaries alone, appends the new conflicts, then the recommendation computed from the conflicts now recorded |
| Sync.FreshStateResolves | src/services/SyncService.js:102-136 | on a fresh record, conflict resolution is recommended exactly when both stores hold data and a count differs |
| Sync.GetSyncStatus | src/services/SyncService.js:318-342 | in sync exactly when the state check succeeded with no conflicts; a failed check gives one 'error' conflict with its message, the critical 'check_setup' recommendation and no state |
| Migration.LocalStorage.constructor | src/utils/migration.js:11-12 | an empty local storage: no keys, no values |
| Migration.LocalStorage.Get | src/utils/migration.js:11-12 | `getItem` gives a value exactly for a key that is set, and that key's value |
| Migration.LocalStorage.Set | src/utils/migration.js:190-194 | `setItem` stores the value under the key, appending a new key to the key order and leaving an existing key in place (the key order is the model's choice; see Left out) |
| Migration.LocalStorage.HasLegacyData | src/utils/migration.js:10-15 | true exactly when 'fifa-players' or 'fifa-matches' holds a non-empty value |
| Migration.LocalStorage.CreateLegacyBackup | src/utils/migration.js:182-201 | the storage afterwards holds exactly the values BackedUp describes |
| Migration.BackupKey | src/utils/migration.js:190-194 | every backup key starts with 'fifa-legacy-backup-' |
| Migration.BackedUp | src/utils/migration.js:186-195 | every key kept; a non-empty legacy players value copied under its players backup key and a non-empty legacy matches value under its matches backup key; no other key changed, and a backup key with an empty legacy value is present only if it was before |
| Migration.BackupKeepsLegacyKeys | src/utils/migration.js:186-195 | a backup leaves both legacy keys and their values exactly as they were |
| Migration.MigratedPlayersStep | src/utils/migration.js:52-64 | one more legacy player adds its player or nothing to those already added |
| Migration.MigratedPlayersFacts | src/utils/migration.js:46-64 | the players added are as many as the legacy players whose lower-cased name the snapshot lacks, numbered by creation and stamped with the current time, none of them named in the snapshot |
| Migration.LegacyNames | src/utils/migration.js:46-47 | every legacy player's lower-cased name is in the snapshot `Player.list()` gives, which reads the same 'fifa-players' value |
| Migration.MigratedPlayers | src/utils/migration.js:52-64 | no more players are added than the legacy list holds |
| Migration.LegacyList | src/utils/migration.js:40-45 | a legacy list exactly when the key holds a non-empty value that parses to a list of records, and then that list |
| Migration.AllSkipped | src/utils/migration.js:41-66 | the report of a loop that skipped everything: none migrated; zeros for an empty key; otherwise every legacy record skipped and counted in the total |
| Migration.MigratedPlayersCount | src/utils/migration.js:52-64 | as many players are added as the legacy list has players the snapshot does not name |
| Migration.MigratedPlayersNumbered | src/utils/migration.js:52-64 | the added players are numbered by creation, stamped with the current time, and none is named in the snapshot |
| Migration.MigrateLegacyPlayers | src/utils/migration.js:47-64 | the loop against a given snapshot: migrated + skipped is the legacy count; the store gains exactly the legacy players the snapshot does not name, each stamped now, and nothing else changes |
| Migration.MigratePlayerAt | src/utils/migration.js:53-63 | one legacy player: skipped when named, otherwise created with the next id and the current time, keeping the loop's counts and list in step |
| Migration.MigratePlayers | src/utils/migration.js:38-71 | as written: an empty or absent legacy key gives zero counts without a total; a value that is not JSON, or JSON that is not a list, fails with 'Failed to migrate players' and creates nothing; otherwise the snapshot is the legacy list itself, so none is migrated, all are skipped, the total is the legacy count and the store is unchanged |
| Migration.SnapshotCoversLegacy | src/utils/migration.js:47-56 | when the snapshot names every legacy player, nothing is added |
| Migration.SnapshotNotRefreshed | src/utils/migration.js:47-63 | the snapshot is not refreshed by the loop: two legacy players of the same new name are both created |
| Migration.ScoreOrZeroFacts | src/utils/migration.js:121-122 | a score written as a number reads back as that number; an empty score reads as 0 |
| Migration.ConvertDefaults | src/utils/migration.js:114-125 | a legacy match without scores, date or creation time converts to a 0-0 match dated today, created now, in the chosen league, keeping its id and players |
| Migration.MigratedMatchesStep | src/utils/migration.js:107-133 | one more legacy match adds its conversion or nothing |
| Migration.MigratedMatchesFacts | src/utils/migration.js:101-133 | the matches added are as many as the legacy matches whose id is not in the snapshot, each new and in the chosen league |
| Migration.LegacyIds | src/utils/migration.js:101-102 | every legacy id is in the snapshot `Match.list()` gives, which reads the same 'fifa-matches' value |
| Migration.MigratedMatches | src/utils/migration.js:107-133 | no more matches are added than the legacy list holds |
| Migration.SnapshotCoversLegacyMatches | src/utils/migration.js:101-111 | when the snapshot holds every legacy id, no match is added |
| Migration.MigratedMatchesCount | src/utils/migration.js:107-133 | as many matches are added as the legacy list has ids the snapshot lacks |
| Migration.MigratedMatchesFresh | src/utils/migration.js:108-125 | every added match has an id the snapshot lacks and the chosen league |
| Migration.TargetLeague | src/utils/migration.js:86-99 | the given id when truthy, else the active league, else a newly created league |
| Migration.DefaultLeagueFor | src/utils/migration.js:87-95 | a league is created exactly when neither a target nor an active league is given, and it is the active 'Migrated Data League' |
| Migration.AddTargetLeague | src/utils/migration.js:87-95 | the league table gains exactly that default league, and players and matches are unchanged |
| Migration.MigrateLegacyMatches | src/utils/migration.js:101-133 | the loop against a given snapshot: migrated + skipped is the legacy count; the store gains exactly the converted legacy matches whose ids the snapshot lacks, and nothing else changes |
| Migration.MigrateMatchAt | src/utils/migration.js:108-132 | one legacy match: skipped when its id is in the snapshot, otherwise appended converted |
| Migration.MigrateMatches | src/utils/migration.js:76-140 | as written: an empty or absent legacy key migrates nothing; a value that is not JSON fails with 'Failed to migrate matches' and changes nothing; otherwise the target league is chosen (an active 'Migrated Data League' is created when there is none), so JSON that `for…of` cannot walk (an object, null, a number) fails with the same error after that league is created; a list of records reports the league, and since the snapshot is the legacy list itself, none is migrated, all are skipped and no match is written |
| Migration.MigrateAll | src/utils/migration.js:145-177 | as written: without legacy data a failure report and nothing changes; a failing step reports its error, and a matches value that is JSON but not iterable leaves the created default league behind; otherwise a successful report with every legacy record skipped, the league used, and the backup; players and matches are never changed |
| Migration.LegacyPlayerSkipped | src/utils/migration.js:38-66 | with 'fifa-players' holding only 'Ann', the as-written report is 0 migrated, 1 skipped, total 1, while an empty store lacks her and the intended migration creates her |
| Migration.MigratePlayersToStore | src/utils/migration.js:38-71 | corrected: skipping only names the store already holds, the store gains exactly the legacy players it lacks, and migrated, skipped and total count them; the same empty-key and parse-error outcomes |
| Migration.MigrateMatchesToStore | src/utils/migration.js:76-140 | corrected: skipping only ids the store already holds, the store gains exactly the converted legacy matches it lacks, in the chosen league, which is reported; the league table gains the default league only when it is created; the same errors as migrateMatches, a non-iterable JSON value failing after the default league is created |
| Migration.MigrateParsedMatches | src/utils/migration.js:101-133 | after the legacy list parsed and the league is chosen: the store gains exactly the converted legacy matches it lacks, in that league, migrated, skipped and total count them, and the league table is unchanged |
| Migration.MigrateAllToStore | src/utils/migration.js:145-177 | corrected: the same guard, order, errors and backup as migrateAll, with the store gaining exactly the players and matches it lacked and the report counting them |
| Migration.Stamp | src/utils/migration.js:248-249 | the timestamp read from a key is its last '-' piece, so it holds no '-' |
| Migration.Kind | src/utils/migration.js:250 | the kind read from a key is its second-to-last '-' piece, absent when the key has no '-' |
| Migration.HasStampStep | src/utils/migration.js:247-256 | one more key adds its timestamp exactly when it is a backup key |
| Migration.HasKindStep | src/utils/migration.js:247-256 | one more key adds its timestamp and kind exactly when it is a backup key |
| Migration.Flag | src/utils/migration.js:255 | flags the players or matches entry for that kind and leaves the timestamp alone |
| Migration.GroupFacts | src/utils/migration.js:243-256 | one entry per timestamp found on a backup key, each created once in first-seen order, flagged exactly with the kinds found for it |
| Migration.GroupOrder | src/utils/migration.js:252-254 | each timestamp's entry is created once, and exactly the grouped timestamps are listed |
| Migration.GroupStamps | src/utils/migration.js:244-254 | the grouped timestamps are exactly those found on keys with the backup prefix |
| Migration.GroupKinds | src/utils/migration.js:247-256 | each entry is flagged exactly with the kinds found for its timestamp |
| Migration.GroupBackups | src/utils/migration.js:246-256 | the `forEach` builds the grouping and the order in which its keys are created, as GroupFacts describes |
| Migration.NewestStampFirstOrder | src/utils/migration.js:258 | descending timestamp order is a strict weak order, so the sort is sound |
| Migration.Entries | src/utils/migration.js:258 | `Object.values(backups)`: one entry per timestamp, listed in JavaScript's key order (ObjectKeys.OwnKeys), so integer-like timestamps such as "45" come first, ascending |
| Migration.EntriesListed | src/utils/migration.js:258 | listing distinct timestamps that key their own entries gives every entry once, with distinct timestamps |
| Migration.EntriesAt | src/utils/migration.js:258 | the entry at each place is the one of the timestamp listed there |
| Migration.GroupEntries | src/utils/migration.js:243-258 | the entries have distinct timestamps, exactly those found, each flagged with the kinds found |
| Migration.SortedStrictly | src/utils/migration.js:258 | sorting entries with distinct timestamps leaves them strictly newest first |
| Migration.GetLegacyBackups | src/utils/migration.js:242-259 | strictly newest first; one entry per timestamp found on a backup key; each flagged exactly with the kinds found for it |
| Migration.BackupTimestamp | src/utils/migration.js:184 | the first 19 characters of the ISO time, each ':' replaced by '-' |
| Migration.DashedStampPieces | src/utils/migration.js:184-250 | a key written with a timestamp ending 'mid-last' lists under timestamp 'last' and kind 'mid', whatever kind it was written for |
| Migration.BackupListedUnderSeconds | src/utils/migration.js:184-250 | the backup of 2024-01-15T10:30:45 lists under timestamp '45' with kind '30'; no listing can carry the timestamp it was written under |
| Migration.ParseBackupKey | src/utils/migration.js:248-250 | the corrected key reader: a kind free of '-' taken after the prefix, absent for a key without the prefix or without a '-' after it |
| Migration.ParseBackupKeyRoundTrip | src/utils/migration.js:184-250 | with the corrected reader, every backup key reads back as the kind and timestamp it was written with, dashes in the timestamp included |
| SeedImport.TrimIsTrimmed | scripts/import-match-data.js:66-72 | a trimmed field has no white space at either end and gains no character |
| SeedImport.DataLines | scripts/import-match-data.js:59-63 | one data line per newline of the trimmed text, none holding a newline |
| SeedImport.ParseLine | scripts/import-match-data.js:64-73 | a line parses exactly when it has at least seven comma-separated fields; with fewer the trim of a missing field throws |
| SeedImport.FieldsClean | scripts/import-match-data.js:66-72 | the names and date of a parsed line hold no comma and no white space at either end |
| SeedImport.ParseEachOk | scripts/import-match-data.js:63-75 | the parse succeeds exactly when every data line parses |
| SeedImport.ParseEachValues | scripts/import-match-data.js:63-75 | a successful parse has one match per data line, the i-th line's |
| SeedImport.ParseEachError | scripts/import-match-data.js:63-75 | a failed parse stops at the first line refused, every earlier line having parsed |
| SeedImport.ParseEachStops | scripts/import-match-data.js:63-75 | once a line is refused, later lines change nothing |
| SeedImport.ParseEachStep | scripts/import-match-data.js:63-75 | one more line appends its match to a parse that has succeeded so far |
| SeedImport.ParseLines | scripts/import-match-data.js:63-75 | the loop returns what ParseEach describes |
| SeedImport.ParseMatchData | scripts/import-match-data.js:58-78 | `parseMatchData`, the same in the script and in api/migrate.js: every data line parsed in order, or the first line that throws |
| SeedImport.SlotNames | scripts/import-match-data.js:86-91 | four names per match are added to the set |
| SeedImport.SlotNamesMembers | scripts/import-match-data.js:86-91 | the names added are exactly the slots of the matches |
| SeedImport.InsertionOrder | scripts/import-match-data.js:84-93 | a `Set` lists each added value once, and exactly the values added |
| SeedImport.InsertionOrderStep | scripts/import-match-data.js:86-91 | adding one more value appends it when it is new and changes nothing otherwise |
| SeedImport.SlotNamesStep | scripts/import-match-data.js:86-91 | one more match adds its four slots |
| SeedImport.UniqueNamesFacts | scripts/import-match-data.js:83-94 | each non-blank name of any slot of any match, exactly once |
| SeedImport.ExtractUniquePlayerNames | api/migrate.js:73-84 | the set loop and the filter give each non-blank slot name exactly once, in first-seen order |
| SeedImport.ScriptPlayersStops | scripts/import-match-data.js:105-120 | once a failure is rethrown, later names change nothing |
| SeedImport.ScriptPlayersOutcome | scripts/import-match-data.js:99-126 | the loop completes exactly when no failure is rethrown, and then each name is created or existing; otherwise it stops at the first rethrown failure with every earlier name counted |
| SeedImport.ScriptPlayersRecords | scripts/import-match-data.js:105-120 | every created player has the next id, the write time and a name whose write succeeded; every existing name was refused as already present |
| SeedImport.ScriptEnsurePlayersExist | scripts/import-match-data.js:99-126 | the loop's outcome is ScriptPlayers, and the player store gains exactly the created players in order |
| SeedImport.NoneActiveUnchanged | scripts/import-match-data.js:135-149 | with no active row, clearing every active flag changes nothing |
| SeedImport.ScriptEnsureMigrationSeason | scripts/import-match-data.js:131-153 | the active season, table untouched; else a new active 'Migration Season 2025' appended as the only active row; a failed insert leaves the table as it was |
| SeedImport.ApiEnsureMigrationSeason | api/migrate.js:113-135 | the first active row, table untouched; else the insert of a new active 'Migration Season 2025' row with the next id, appended, or, when the insert fails, its error thrown as it is and the table untouched |
| SeedImport.TallyStep | scripts/import-match-data.js:165-201 | one more match adds a success or a failure with its label |
| SeedImport.Failures | scripts/import-match-data.js:193-200 | no more failures than writes |
| SeedImport.ImportTallyFacts | scripts/import-match-data.js:158-210 | success + failed is the match count, one error per failure, each naming a match whose write failed and carrying that error |
| SeedImport.DatePart | scripts/import-match-data.js:170-173 | the date cut before its first space: a prefix without a space, the whole date when it has none |
| SeedImport.DatePartIsSplit | scripts/import-match-data.js:171-173 | the cut is the first piece of the split on a space when the date holds one |
| SeedImport.StoreInput | scripts/import-match-data.js:176-185 | the four names as parsed, the parsed scores, and the date part |
| SeedImport.ScriptRecordsFacts | scripts/import-match-data.js:165-201 | one record per successful write, the k-th with the k-th id and the write time, its date free of a time part |
| SeedImport.ScriptRecordsStep | scripts/import-match-data.js:168-192 | one more match appends its record exactly when its write succeeds |
| SeedImport.ScriptCreate | scripts/import-match-data.js:176-185 | a successful write adds its record to the store as `Match.create` does, and a failed one adds nothing |
| SeedImport.ScriptImportMatches | scripts/import-match-data.js:158-210 | the counters are ImportTally's and the store gains exactly the records of the writes that succeed, in the order the successive `Match.create` calls leave (AfterCreates) |
| SeedImport.ScriptImportNext | scripts/import-match-data.js:166-197 | one match of the loop: the counters and the records move on by that match, and the store is the `Match.create` result |
| SeedImport.ApiColumns | api/migrate.js:149-159 | the insert binds the four names, both scores and the date part, and fails exactly when a score is NaN |
| SeedImport.NumberedAppend | api/migrate.js:149-159 | numbering two runs of inserts numbers the second on from the first |
| SeedImport.ApiRowsFacts | api/migrate.js:137-172 | the rows added are as many as the successes, numbered on from the sequence, all in the migration season, with dates free of a time part; a NaN score always fails |
| SeedImport.InsertedFacts | api/migrate.js:140-169 | one inserted column set per success, each date free of a time part |
| SeedImport.TallyAgrees | api/migrate.js:140-169 | the counters depend only on the outcomes of the writes actually made |
| SeedImport.ApiStep | api/migrate.js:140-169 | one more match adds its columns when its insert succeeds |
| SeedImport.RejectionAt | api/migrate.js:149-159 | the i-th insert fails on a NaN score and otherwise as the database reports |
| SeedImport.ApiInsert | api/migrate.js:149-168 | one INSERT: the failure it reports, and the table gains its row exactly when it succeeds |
| SeedImport.ApiImportMatches | api/migrate.js:137-172 | the counters are ImportTally's with NaN scores rejected, and the table gains exactly the rows of the successful inserts, numbered on |
| SeedImport.RowNames | api/migrate.js:91-93 | one name per row, in order |
| SeedImport.RowNamesAppend | api/migrate.js:98-103 | the names of two runs of rows are the names of each |
| SeedImport.RowsNamed | api/migrate.js:91-93 | the rows with exactly that name; some exist exactly when a row has it |
| SeedImport.PlayerTable.constructor | api/migrate.js:98-102 | an empty players table whose sequence starts at 1 |
| SeedImport.PlayerTable.Named | api/migrate.js:91-93 | `SELECT id FROM players WHERE name = $1` returns exactly the rows of that name (case-sensitive) |
| SeedImport.PlayerTable.Insert | api/migrate.js:98-102 | the INSERT appends a row with the next id, the name and the write time |
| SeedImport.ApiEnsureFacts | api/migrate.js:86-111 | created + existing is the name count; created rows are numbered on; a name gets a row exactly when no row had it; for distinct names, existing exactly when a row had it |
| SeedImport.ApiEnsureStep | api/migrate.js:89-108 | one more name is looked up against the rows so far, and either counted as existing or inserted |
| SeedImport.ApiEnsureName | api/migrate.js:90-107 | one name: a failing database call changes nothing and is rethrown as 'Failed to create player <name>: <message>'; otherwise look the name up and insert it when absent, keeping the table and the lists in step |
| SeedImport.ApiEnsurePlayersExist | api/migrate.js:86-111 | up to the first name whose database call fails, the table gains exactly the rows ApiEnsure creates for the names before it; that failure is rethrown with the name, and with none the outcome is ApiEnsure over all names |
| SeedImport.FirstError | api/migrate.js:89-107 | the position at which the loop stops: the first failing one, or the number of names when none fails |
| Sorting.Insert | src/entities/Match.js:15 | inserting keeps every element and adds exactly the new one |
| Sorting.SortBy | src/entities/Match.js:15 | `Array.prototype.sort`: a permutation of its input, of the same length |
| Sorting.InsertSorted | src/entities/Match.js:15 | under a strict weak order, inserting into a sorted list leaves it sorted |
| Sorting.SortBySorted | src/entities/Match.js:15 | under a strict weak order, no element of the result is ahead of an earlier one |
| Sorting.SortByNeverBefore | src/entities/Match.js:15 | a comparator that never separates two elements leaves the order as it was |
| Sorting.InsertKeepsTies | src/entities/Match.js:15 | inserting an element keeps the order of any class of elements the comparator never separates, the new one joining at its front |
| Sorting.SortByStable | src/pages/Matches.jsx:118-131 | the sort is stable: elements any two of which the comparator does not separate come out in their input order |
| Sorting.SortedHeadFirst | src/entities/Season.js:163-167 | under a strict weak order, nothing in a sorted list goes before its first element |
| Sorting.SortByMembers | src/entities/Match.js:15 | sorting keeps exactly the elements it was given |
| Sorting.KeyDescOrder | src/entities/Match.js:15 | `(a, b) => key(b) - key(a)` is a strict weak order |
| Sorting.KeyAscOrder | src/pages/Matches.jsx:123-124 | `(a, b) => key(a) - key(b)` is a strict weak order |
| Lists.Filter | src/pages/Ranking.jsx:115 | `Array.prototype.filter`: exactly the elements that pass, no more than there were, all of them exactly when every element passes |
| Lists.FilterAppend | src/pages/Ranking.jsx:115 | filtering two runs is filtering each, so survivors keep their order |
| Lists.TakeStep | src/pages/Ranking.jsx:115 | a longer prefix is the shorter one and the next element |
| Lists.FilterPrefixStep | src/pages/Ranking.jsx:115 | one more element adds one survivor exactly when it passes |
| Lists.FilterKeepsAll | src/pages/Ranking.jsx:115 | when every element passes, the filter is the identity |
| Lists.CountIf | src/pages/Players.jsx:163-166 | the number of elements that pass is the length of the filter |
| Lists.NoRepeatsCount | src/pages/CsvUpload.jsx:163-169 | a value occurs at most once in a list without repeats |
| Lists.Occurrences | src/pages/CsvUpload.jsx:163-169 | equal values at two positions occur at least twice |
| Lists.NoRepeatsPermutation | src/pages/CsvUpload.jsx:181 | a rearrangement of a list without repeats has none |
| Lists.FilterNoRepeats | scripts/import-match-data.js:93 | filtering keeps a list free of repeats |
| Lists.FilterNone | src/pages/Ranking.jsx:115 | when no element passes, the filter is empty |
| Lists.FilterSplit | src/pages/Ranking.jsx:115 | a filter and the filter of its complement together hold every element as often as the list does |
| Lists.FilterPrefixNext | src/services/DatabaseService.js:216-218 | the filter of a longer prefix is the shorter one's, then the next element when it passes |
| ObjectKeys.OwnKeysSpec | src/pages/Ranking.jsx:114 | the listing of an object's keys holds each key once; array-index keys come first in ascending numeric order; the others keep their creation order; without array-index keys it is the creation order |
| ObjectKeys.OwnKeysPermutation | src/pages/Ranking.jsx:114 | the listing is a rearrangement of the keys |
| ObjectKeys.SortedIndices | src/pages/Ranking.jsx:114 | the array-index keys are listed in ascending numeric order |
| ObjectKeys.IndicesFirst | src/pages/Ranking.jsx:114 | an array-index key is preceded only by smaller array-index keys |
| ObjectKeys.OthersInOrder | src/pages/Ranking.jsx:114 | the keys that are not array indices keep their creation order |
| ObjectKeys.IndexKeyListedFirst | src/pages/Ranking.jsx:114 | keys created as "b" then "1" are listed "1", "b" |

## Left out

- Network and storage clients: the HTTP requests of GitHubService (makeRequest, getFile, saveFile, testConnection), CsvService saveToBlob/loadFromBlob, the KV getters and setters, and SyncService checkDataState, migrateToBlob, backupAllData and downloadJson. Their results enter the model as parameters (local and blob summaries, `insertError`, `failure`).
- Floating-point averages and `toFixed` formatting (src/pages/Ranking.jsx:124-126, src/pages/Players.jsx:167-168). The success ratio is an exact real.
- Dates are abstract strings. `new Date(..)` is a `toTime` parameter, and the current time and date are `now` and `today` parameters.
- `parseInt` is decimal only: the hexadecimal `0x` prefix is not modelled.
- `trim` and `toLowerCase` cover ASCII whitespace and ASCII letters only.
- Season and league updates, deletes and ends. src/entities/Season.js:61,80,124,139 send 'leagues.update', 'leagues.delete' and 'leagues.endSeason' through `executeQuery`, and the database dispatch refuses them (`LeagueTable.SeasonActionsRefused`). src/entities/League.js:73,110,163 instead call `dbService.updateLeague` and `dbService.deleteLeague`, which src/services/DatabaseService.js does not define; its league methods are getLeagues, createLeague, getActiveLeague and setActiveLeague (245-263). The model applies the intended effect of both paths through `LeagueTable.LeagueTable.Patch`/`Remove`, not the refusal or the missing method.
- `Match.getByLeague` is called at src/entities/Season.js:73,191 and src/entities/League.js:102,221,259, but src/entities/Match.js does not define it. The season and league delete and statistics operations take the league's matches, or their count, as a parameter instead.
- The `is_locked` and `end_date` columns. The leagues table (scripts/setup-database.js:21-27) has neither, and the SELECTs of `leagues.list` and `leagues.getActive` (src/services/DatabaseService.js:104,127) return neither. Against that database every row reads back unlocked and without an end date, so canModify reduces to "the season exists" and the 'Ended' and 'Completed' badges never show. The model keeps both fields on the row, so the paths that read them are modelled as written.
- The create operations of the season and league entities (src/entities/Season.js, src/entities/League.js) pass an object as the league name. The model stores the fields directly. `leagues.create` stores no start or end date, and the model follows that.
- MatchForm.AddMatchPage.Submit: the "Failed to record match. Please try again." message for a failing `Match.create` is not modelled, because the local store's create cannot fail.
- MatchForm.Prefill: the empty-string prefill of a missing score or date is not modelled, because scores are integers in the model.
- LeagueTable.LeagueTable.Patch: the duplicate-name rewording of League.update's error is not modelled, because the patch cannot fail.
- The matches page (src/pages/Matches.jsx) passes a third argument to `Match.list`, which ignores it. The model has no such argument.
- SeedImport.StoreInput: a score that does not parse is stored as 0, whereas the script stores NaN, which JSON writes as null.
- MigrateMatchAt: the append stands for `CsvService.writeCsv(Match.CSV_FILENAME, …)` (src/utils/migration.js:128-130). That call cannot work as written: src/utils/migration.js:4 imports `CsvService` as a named export, which src/services/CsvService.js:375 does not provide, and src/entities/Match.js defines neither `CSV_FILENAME` nor `CSV_HEADERS`. For a legacy list of match records the write is never reached as written, because `MigrateMatches` skips every match; `MigrateMatchesToStore` models the intended append. Whether src/utils/migration.js loads at all depends on the bundler: under native ES modules (Vite's development server) the missing named export fails when the module is linked, and Rollup refuses it at build time by default, so that file and src/services/SyncService.js, which imports it, may not load. The model describes the module as if it loads.
- ApiEnsureMigrationSeason: the INSERT also writes `start_date` '2025-07-01' (api/migrate.js:123-127). The row has no start date, and the leagues table of scripts/setup-database.js:21-27 has no such column, so against that schema the insert fails. That failure is the `insertError` parameter; the model cannot tell which database it runs against.
- StrLess: compares strings by Unicode scalar values, while JavaScript's `<` compares UTF-16 code units. The two orders differ only for characters above U+FFFF.
- GetLegacyBackups: sorts with StrLess, while src/utils/migration.js:258 uses `localeCompare`, whose locale collation is not modelled. The two agree on the digit-and-dash timestamps the backups are written with, as long as the collation orders digits by value.
- Flag: for a kind other than 'players' or 'matches', src/utils/migration.js:255 also sets a property of that name on the entry. The Backup record has only the two flags, so that extra property is not modelled.
- PlayersPage.FilterPlayers, PlayersPage.Summarize, PlayersPage.Submit and Seasons.SeasonStats work against an abstract repository. Three calls they stand behind are undefined in the source: `Player.getAllPlayersWithStats` (src/pages/Players.jsx:53) and `Player.update` (src/pages/Players.jsx:93), since src/entities/Player.js defines only `list`, `create` and `delete`, and `Match.getBySeason` (src/pages/Seasons.jsx:66), which src/entities/Match.js does not define. As written, the players page always shows "Failed to load players" and its list stays empty, so the search and the summary only ever see []; submitting an edit throws and shows the caught error instead of updating; and with any season listed, loadData throws, shows "Failed to load seasons" and leaves the season stats {}. The model decides each call as the page intends it, given the rows or matches as parameters.
- Migration.LocalStorage keeps its keys in insertion order. Browsers promise no order for the keys of localStorage, so that order is the model's choice; GetLegacyBackups sorts the backups by timestamp afterwards, and nothing else depends on it.
- Migration.LegacyList: a legacy value that `for…of` can walk but whose items are not all records is not modelled: a JSON string, whose characters the loop visits, or a list holding null. The parse yields only `Malformed`, `NotIterable` or a list of records. For players such a value fails like a non-list (src/utils/migration.js:47 maps every item's name). For matches, `Match.list()` throws inside its sort and returns [] (src/entities/Match.js:11-26), so the snapshot is empty. The loop of migrateMatches then converts the items before the first bad one and reaches the write at src/utils/migration.js:128-130 before it fails, as with `[{"id":"1"},null]`.
- Standings.CalculateStats, Standings.RowsInOrder and Migration.GetLegacyBackups treat keys that are Object.prototype names ('__proto__', 'toString', 'constructor', …) as ordinary own keys. In JavaScript, `playerStats[player.name] = …` (src/pages/Ranking.jsx:44) with the name '__proto__' replaces the object's prototype instead of adding a key, so that player is missing from `Object.values` and from the rankings. `!backups[timestamp]` (src/utils/migration.js:252) finds an inherited 'toString' or 'constructor', so no entry is created for such a timestamp.
- LeagueTable.LeagueTable.GetActive and SeedImport.ApiEnsureMigrationSeason: `… WHERE is_active = true LIMIT 1` has no ORDER BY, so the database may return any active row. Picking the first active row in table order is the model's choice. The two agree whenever at most one row is active, which is what SetActive and an active Create leave behind.
- Numbers are unbounded integers. Scores, counts and ids in JavaScript are double-precision numbers that `parseInt` and arithmetic round above 2^53, which the model does not capture.
- Concurrency, interleaved requests and partially applied sequences of storage writes.
- restoreLegacyBackup and clearLegacyData in src/utils/migration.js are not part of this model. The legacy JSON parsing and the ISO timestamp come in as parameters.
- Rendering, routing, toasts and other UI-only state.

## Findings

| source | as written | input that shows it | evidently intended | confidence | as-written member | corrected member |
|---|---|---|---|---|---|---|
| src/services/GitHubService.js:344-361 | arrayToCsv quotes a value holding a newline, but csvToArray splits the whole text on every newline before parsing quotes | objects `[{note: "a\nb"}]` with headers `["note"]` read back as two objects | the array reads back unchanged | high; not executed | GitHubCsv.NewlineValueSplitsObject | GitHubCsv.QuoteAwareRoundTrip |
| src/services/CsvService.js:20-54 | an empty table is written as the header line plus a newline; after trimming, the lone header line is kept as a data row | `arrayToCSV([], ["id","name"])` reads back as `[{id: "id", name: "name"}]` | an empty table reads back as `[]` | high; not executed | CsvFiles.EmptyTableReadsBackHeaderRow | CsvFiles.HeaderAwareRoundTrip |
| src/utils/migration.js:184-250 | backup keys embed a timestamp that contains '-', and the backup listing takes the last '-' piece as the timestamp and the one before it as the kind | a backup made at 2024-01-15T10:30:45 is listed under timestamp "45" with kind "30", and neither kind flag is set | listed under "2024-01-15T10-30-45" with its kind flagged | high; not executed | Migration.BackupListedUnderSeconds | Migration.ParseBackupKeyRoundTrip |
| src/utils/migration.js:38-140 | `Player.list()` and `Match.list()` read the same 'fifa-players' and 'fifa-matches' values the legacy lists come from, so the names and ids to skip are the legacy records' own and every record is skipped | 'fifa-players' holding `[{"name":"Ann"}]` migrates as `{migrated: 0, skipped: 1, total: 1}` and creates no player | each legacy record the target store lacks is migrated | high; not executed | Migration.LegacyPlayerSkipped | Migration.MigrateAllToStore |
