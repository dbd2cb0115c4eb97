/** Seasons (src/entities/Season.js and the page src/pages/Seasons.jsx).
    A season is a row of the `leagues` table; the entity's decisions are
    made against that table. */
module Seasons {
  import opened Wrappers
  import opened Text
  import opened Records
  import opened LeagueTable
  import opened Lists

  /** What a caller passes to `Season.create`. Empty strings stand for
      absent or empty text. */
  datatype SeasonInput = SeasonInput(
    name: string, description: string, startDate: string, endDate: string, isActive: Flag)

  /** The record `Season.create` builds for storage. */
  datatype SeasonData = SeasonData(
    name: string, description: string, startDate: string, endDate: Option<string>,
    isActive: bool, isLocked: bool)

  /** Defaults: description '', start date today, end date null; the flag
      is stored true only for `true` or 'true'; a new season is never
      locked. */
  function SeasonRecord(data: SeasonInput, today: string): (r: SeasonData)
    ensures r.name == data.name && !r.isLocked
    ensures r.isActive <==> StrictlyTrue(data.isActive)
    ensures r.description == data.description
    ensures r.startDate == (if data.startDate == "" then today else data.startDate)
    ensures r.endDate.None? <==> data.endDate == ""
    ensures r.endDate.Some? ==> r.endDate.value == data.endDate
  {
    SeasonData(data.name, data.description,
      if data.startDate == "" then today else data.startDate,
      if data.endDate == "" then None else Some(data.endDate),
      StrictlyTrue(data.isActive), false)
  }

  /** `Season.create`: every season is deactivated first when the flag is
      truthy; then the record is inserted. `insertError` is the storage
      error, if the insert fails; a taken-name error is reworded. */
  method Create(t: LeagueTable, data: SeasonInput, today: string, now: string, toTime: string -> int,
                insertError: Option<string>)
    returns (r: Result<LeagueRow, string>)
    requires t.Valid()
    modifies t
    ensures t.Valid()
    ensures insertError.Some? ==> r == Err(DuplicateNameError(insertError.value, "season"))
    ensures insertError.Some? ==> t.rows == if Truthy(data.isActive) then Deactivated(old(t.rows)) else old(t.rows)
    ensures insertError.None? ==>
      r == Ok(LeagueRow(old(t.nextId), data.name, data.description, StrictlyTrue(data.isActive), false, None, now))
    ensures insertError.None? && Truthy(data.isActive) ==>
      t.rows == Deactivated(old(t.rows)) + [r.value] &&
      ActiveCount(t.rows) == (if StrictlyTrue(data.isActive) then 1 else 0)
    ensures insertError.None? && !Truthy(data.isActive) ==>
      t.rows == old(t.rows) + [r.value] && ActiveCount(t.rows) == ActiveCount(old(t.rows))
  {
    if Truthy(data.isActive) {
      var _ := DeactivateAll(t, toTime);
    }
    var record := SeasonRecord(data, today);
    if insertError.Some? {
      return Err(DuplicateNameError(insertError.value, "season"));
    }
    ghost var before := t.rows;
    var row := t.Create(record.name, record.description, record.isActive, now);
    if Truthy(data.isActive) {
      assert before == Deactivated(before);
    }
    r := Ok(row);
  }

  const ErrHasMatches := "Cannot delete season with existing matches. End the season first."

  /** `Season.delete`: refused while the season has matches (`matchCount`
      is what `Match.getByLeague` returns the length of); otherwise the row
      goes. */
  method Delete(t: LeagueTable, id: int, matchCount: nat) returns (r: Result<bool, string>)
    requires t.Valid()
    modifies t
    ensures t.Valid()
    ensures matchCount > 0 ==> r == Err(ErrHasMatches) && t.rows == old(t.rows)
    ensures matchCount == 0 ==> r == Ok(true) && t.rows == WithoutId(old(t.rows), id)
  {
    if matchCount > 0 {
      return Err(ErrHasMatches);
    }
    t.Remove(id);
    r := Ok(true);
  }

  /** `Season.canModify`: the season exists and is not locked. */
  predicate CanModify(t: LeagueTable, id: string, toTime: string -> int)
    reads t
  {
    var s := FindById(t.rows, id, toTime);
    s.Some? && !s.value.isLocked
  }

  lemma {:induction false} CanModifySpec(t: LeagueTable, id: string, toTime: string -> int)
    ensures CanModify(t, id, toTime) ==>
      exists x :: x in t.rows && ParseInt(id) == Some(x.id) && !x.isLocked
    ensures ParseInt(id).None? ==> !CanModify(t, id, toTime)
    ensures IdsDistinct(t.rows) && (exists x :: x in t.rows && ParseInt(id) == Some(x.id) && !x.isLocked) ==>
      CanModify(t, id, toTime)
  {
    if CanModify(t, id, toTime) {
      var x := FindById(t.rows, id, toTime).value;
      assert x in t.rows && ParseInt(id) == Some(x.id) && !x.isLocked;
    }
    if IdsDistinct(t.rows) && exists x :: x in t.rows && ParseInt(id) == Some(x.id) && !x.isLocked {
      var x :| x in t.rows && ParseInt(id) == Some(x.id) && !x.isLocked;
      var found := FindById(t.rows, id, toTime);
      assert found.Some?;
      var i :| 0 <= i < |t.rows| && t.rows[i] == found.value;
      var j :| 0 <= j < |t.rows| && t.rows[j] == x;
      assert i == j;
    }
  }

  /** `Season.createDefault`: an active 'Default Season' when the table is
      empty; otherwise the active season, or the first listed. */
  method CreateDefault(t: LeagueTable, today: string, now: string, toTime: string -> int)
    returns (season: LeagueRow)
    requires t.Valid()
    modifies t
    ensures t.Valid()
    ensures old(t.rows) == [] ==>
      t.rows == [season] && season.isActive && !season.isLocked &&
      season.name == "Default Season" && season.description == "Initial season for FIFA matches"
    ensures old(t.rows) != [] ==> t.rows == old(t.rows) && season in t.rows
    ensures old(t.rows) != [] && ActiveCount(t.rows) > 0 ==> season.isActive
    ensures old(t.rows) != [] && ActiveCount(t.rows) == 0 ==>
      forall x :: x in t.rows ==> !ListBefore(toTime)(x, season)
  {
    var listed := t.List(toTime);
    if |listed| == 0 {
      assert t.rows == [];
      var r := Create(t, SeasonInput("Default Season", "Initial season for FIFA matches", today, "", BoolFlag(true)),
                      today, now, toTime, None);
      assert Deactivated([]) == [];
      return r.value;
    }
    var active := t.GetActive();
    if active.Some? {
      return active.value;
    }
    assert listed[0] in multiset(t.rows);
    season := listed[0];
    forall x | x in t.rows
      ensures !ListBefore(toTime)(x, season)
    {
      t.ListedFirst(toTime, x);
    }
  }

  // ---------------------------------------------------------------------------
  // The seasons page
  // ---------------------------------------------------------------------------

  datatype Status = Ended | Active | Completed | Scheduled

  /** `getSeasonStatus`: locked wins over active, which wins over an end
      date. */
  function SeasonStatus(s: LeagueRow): (r: Status)
    ensures r == Ended <==> s.isLocked
    ensures r == Active <==> !s.isLocked && s.isActive
    ensures r == Completed <==> !s.isLocked && !s.isActive && HasEndDate(s)
  {
    if s.isLocked then Ended
    else if s.isActive then Active
    else if HasEndDate(s) then Completed
    else Scheduled
  }

  /** "Activate" in a season's card. */
  predicate ActivateOffered(s: LeagueRow)
  {
    !s.isActive && !s.isLocked
  }

  /** "End Season" in a season's card. */
  predicate EndOffered(s: LeagueRow, isAdmin: bool)
  {
    s.isActive && !s.isLocked && isAdmin
  }

  /** "End Season" in the active-season banner. */
  predicate BannerEndOffered(active: LeagueRow, isAdmin: bool)
  {
    isAdmin && !active.isLocked
  }

  /** The gates follow the status: "Activate" only for a completed or
      scheduled season, "End Season" only for the active one, never
      both, and nothing for an ended season. */
  lemma {:induction false} GatesFollowStatus(s: LeagueRow, isAdmin: bool)
    ensures ActivateOffered(s) <==> SeasonStatus(s) in {Completed, Scheduled}
    ensures EndOffered(s, isAdmin) <==> SeasonStatus(s) == Active && isAdmin
    ensures !(ActivateOffered(s) && EndOffered(s, isAdmin))
    ensures SeasonStatus(s) == Ended ==> !ActivateOffered(s) && !EndOffered(s, isAdmin)
    ensures s.isActive ==> (BannerEndOffered(s, isAdmin) <==> EndOffered(s, isAdmin))
  {
  }

  const ErrNameRequired := "Season name is required"

  /** The create form's fields. */
  datatype SeasonForm = SeasonForm(name: string, description: string, startDate: string, endDate: string)

  /** `handleCreateSeason`: a blank name is refused; otherwise the request
      carries the trimmed name and is never marked active. */
  function CreateRequest(f: SeasonForm): (r: Result<SeasonInput, string>)
    ensures r.Err? <==> IsBlank(f.name)
    ensures r.Err? ==> r.error == ErrNameRequired
    ensures r.Ok? ==> r.value.name == Trim(f.name) && r.value.name != "" && !Truthy(r.value.isActive)
    ensures r.Ok? ==> r.value.description == f.description && r.value.startDate == f.startDate && r.value.endDate == f.endDate
  {
    if IsBlank(f.name) then Err(ErrNameRequired)
    else Ok(SeasonInput(Trim(f.name), f.description, f.startDate, f.endDate, BoolFlag(false)))
  }

  /** `handleEditSeason`: the same name check; the update carries the
      trimmed name. */
  function EditRequest(f: SeasonForm): (r: Result<SeasonForm, string>)
    ensures r.Err? <==> IsBlank(f.name)
    ensures r.Err? ==> r.error == ErrNameRequired
    ensures r.Ok? ==> r.value == f.(name := Trim(f.name)) && r.value.name != ""
  {
    if IsBlank(f.name) then Err(ErrNameRequired) else Ok(f.(name := Trim(f.name)))
  }

  /** A page-created season leaves every other season's flag alone and is
      stored inactive. */
  method CreateFromPage(t: LeagueTable, f: SeasonForm, today: string, now: string, toTime: string -> int)
    returns (r: Result<LeagueRow, string>)
    requires t.Valid()
    modifies t
    ensures t.Valid()
    ensures IsBlank(f.name) ==> r == Err(ErrNameRequired) && t.rows == old(t.rows)
    ensures !IsBlank(f.name) ==>
      r.Ok? && !r.value.isActive && r.value.name == Trim(f.name) && t.rows == old(t.rows) + [r.value]
  {
    var request := CreateRequest(f);
    if request.Err? {
      return Err(request.error);
    }
    r := Create(t, request.value, today, now, toTime, None);
  }

  /** `handleEndSeason`'s first check. */
  function EndGuard(isAdmin: bool): (r: Option<string>)
    ensures r.None? <==> isAdmin
    ensures r.Some? ==> r.value == "Only administrators can end seasons"
  {
    if !isAdmin then Some("Only administrators can end seasons") else None
  }

  /** `openEditForm`'s check: a locked season is editable by an admin
      only. */
  function EditGuard(s: LeagueRow, isAdmin: bool): (r: Option<string>)
    ensures r.None? <==> !s.isLocked || isAdmin
    ensures r.Some? ==> r.value == "Cannot edit locked seasons"
  {
    if s.isLocked && !isAdmin then Some("Cannot edit locked seasons") else None
  }

  // ---------------------------------------------------------------------------
  // Per-season statistics
  // ---------------------------------------------------------------------------

  /** The non-empty names in any slot of the matches. */
  function PlayedNames(ms: seq<Match>): (r: set<string>)
    ensures forall n :: n in r <==> n != "" && exists m :: m in ms && n in Slots(m)
  {
    if ms == [] then {}
    else
      var here := set n | n in Slots(ms[0]) && n != "";
      assert forall m :: m in ms <==> m == ms[0] || m in ms[1..];
      here + PlayedNames(ms[1..])
  }

  datatype SeasonStat = SeasonStat(totalMatches: nat, uniquePlayers: nat)

  /** The stats loop of `loadData`: for every listed season, its match
      count and the number of distinct non-empty player names in its
      matches. `matchesOf` stands for `Match.getBySeason`, which
      src/entities/Match.js does not define; the model takes the intended
      per-season match source as a parameter. */
  method SeasonStats(seasons: seq<LeagueRow>, matchesOf: nat -> seq<Match>) returns (stats: map<nat, SeasonStat>)
    ensures stats.Keys == set s | s in seasons :: s.id
    ensures forall s :: s in seasons ==> stats[s.id] == StatOf(matchesOf(s.id))
  {
    stats := map[];
    var k := 0;
    while k < |seasons|
      invariant 0 <= k <= |seasons|
      invariant stats.Keys == set s | s in seasons[..k] :: s.id
      invariant forall s :: s in seasons[..k] ==> stats[s.id] == StatOf(matchesOf(s.id))
    {
      var ms := matchesOf(seasons[k].id);
      stats := stats[seasons[k].id := StatOf(ms)];
      TakeStep(seasons, k);
      k := k + 1;
    }
    assert seasons[..k] == seasons;
  }

  /** One season's figures: its match count and its distinct non-empty
      player names. */
  function StatOf(ms: seq<Match>): SeasonStat
  {
    SeasonStat(|ms|, |PlayedNames(ms)|)
  }
}
