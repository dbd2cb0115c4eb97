/** Leagues (src/entities/League.js and the page src/pages/Leagues.jsx),
    decided against the `leagues` table. */
module Leagues {
  import opened Wrappers
  import opened Text
  import opened Records
  import opened LeagueTable

  /** What a caller passes to `League.create`. */
  datatype LeagueInput = LeagueInput(name: string, description: string, isActive: Flag)

  /** What a caller passes to `League.update`; `None` and `Absent` are
      properties left undefined. */
  datatype LeagueUpdate = LeagueUpdate(name: Option<string>, description: Option<string>, isActive: Flag)

  const ErrNotFound := "League not found"
  const ErrActiveWithMatches := "Cannot delete active league with existing matches. End the league first."

  /** `League.create`: every league is deactivated first when the flag is
      truthy; the row stores the flag as true only for `true` or 'true'.
      `insertError` is the storage error, if the insert fails. */
  method Create(t: LeagueTable, data: LeagueInput, now: string, toTime: string -> int, insertError: Option<string>)
    returns (r: Result<LeagueRow, string>)
    requires t.Valid()
    modifies t
    ensures t.Valid()
    ensures insertError.Some? ==> r == Err(DuplicateNameError(insertError.value, "league"))
    ensures insertError.Some? ==> t.rows == if Truthy(data.isActive) then Deactivated(old(t.rows)) else old(t.rows)
    ensures insertError.None? ==>
      r == Ok(LeagueRow(old(t.nextId), data.name, data.description, StrictlyTrue(data.isActive), false, None, now))
    ensures insertError.None? && Truthy(data.isActive) ==>
      t.rows == Deactivated(old(t.rows)) + [r.value] &&
      ActiveCount(t.rows) == (if StrictlyTrue(data.isActive) then 1 else 0)
    ensures insertError.None? && !Truthy(data.isActive) ==>
      t.rows == old(t.rows) + [r.value] && ActiveCount(t.rows) == ActiveCount(old(t.rows))
  {
    if Truthy(data.isActive) {
      var _ := DeactivateAll(t, toTime);
    }
    if insertError.Some? {
      return Err(DuplicateNameError(insertError.value, "league"));
    }
    var row := t.Create(data.name, data.description, StrictlyTrue(data.isActive), now);
    r := Ok(row);
  }

  /** The update object with its undefined properties removed: name and
      description as given, the flag as `=== true || === 'true'` when
      given at all. */
  function PatchOf(data: LeagueUpdate): (p: LeaguePatch)
    ensures p.name == data.name && p.description == data.description
    ensures p.isActive.None? <==> data.isActive.Absent?
    ensures p.isActive.Some? ==> (p.isActive.value <==> StrictlyTrue(data.isActive))
  {
    LeaguePatch(data.name, data.description,
      if data.isActive.Absent? then None else Some(StrictlyTrue(data.isActive)))
  }

  /** `League.update`: a truthy flag deactivates every league first; then
      only the supplied columns of the league change. An unknown id gives
      'League not found' (after any deactivation). */
  method Update(t: LeagueTable, id: int, data: LeagueUpdate, toTime: string -> int)
    returns (r: Result<LeagueRow, string>)
    requires t.Valid()
    modifies t
    ensures t.Valid()
    ensures var base := if Truthy(data.isActive) then Deactivated(old(t.rows)) else old(t.rows);
      t.rows == PatchedRows(base, id, PatchOf(data))
    ensures r.Err? <==> !HasId(old(t.rows), id)
    ensures r.Err? ==> r.error == ErrNotFound
    ensures r.Ok? ==> r.value.id == id && r.value in t.rows
  {
    if Truthy(data.isActive) {
      var _ := DeactivateAll(t, toTime);
    }
    ghost var base := t.rows;
    assert HasId(base, id) <==> HasId(old(t.rows), id) by {
      if HasId(old(t.rows), id) {
        var k :| 0 <= k < |old(t.rows)| && old(t.rows)[k].id == id;
        assert base[k].id == id;
      }
    }
    var updated := t.Patch(id, PatchOf(data));
    if updated.None? {
      return Err(ErrNotFound);
    }
    r := Ok(updated.value);
  }

  /** `League.delete`: 'League not found' for an unknown id; an active
      league with matches is protected; any other league is removed, even
      an inactive one that has matches. */
  method Delete(t: LeagueTable, id: string, matchCount: nat, toTime: string -> int)
    returns (r: Result<bool, string>)
    requires t.Valid()
    modifies t
    ensures t.Valid()
    ensures var found := FindById(old(t.rows), id, toTime);
      if found.None? then r == Err(ErrNotFound) && t.rows == old(t.rows)
      else if found.value.isActive && matchCount > 0 then r == Err(ErrActiveWithMatches) && t.rows == old(t.rows)
      else r == Ok(true) && t.rows == WithoutId(old(t.rows), found.value.id)
  {
    var league := FindById(t.rows, id, toTime);
    if league.None? {
      return Err(ErrNotFound);
    }
    if league.value.isActive && matchCount > 0 {
      return Err(ErrActiveWithMatches);
    }
    t.Remove(league.value.id);
    r := Ok(true);
  }

  /** `League.setActive`: 'League not found' when the table returns no
      row; otherwise the league is the only active one. */
  method SetActive(t: LeagueTable, id: int) returns (r: Result<LeagueRow, string>)
    requires t.Valid()
    modifies t
    ensures t.Valid()
    ensures t.rows == ActivatedOnly(old(t.rows), id)
    ensures r.Err? <==> !HasId(old(t.rows), id)
    ensures r.Err? ==> r.error == ErrNotFound && ActiveCount(t.rows) == 0
    ensures r.Ok? ==> r.value.id == id && r.value.isActive && ActiveCount(t.rows) == 1
  {
    var row := t.SetActive(id);
    if row.None? {
      return Err(ErrNotFound);
    }
    r := Ok(row.value);
  }

  /** `League.endLeague`: 'League not found' for an unknown id; otherwise
      the league is switched off and nothing else about it changes (its
      end date in particular stays as it was). */
  method EndLeague(t: LeagueTable, id: string, toTime: string -> int) returns (r: Result<LeagueRow, string>)
    requires t.Valid()
    modifies t
    ensures t.Valid()
    ensures FindById(old(t.rows), id, toTime).None? ==> r == Err(ErrNotFound) && t.rows == old(t.rows)
    ensures FindById(old(t.rows), id, toTime).Some? ==>
      var found := FindById(old(t.rows), id, toTime).value;
      r.Ok? && r.value == found.(isActive := false) &&
      t.rows == PatchedRows(old(t.rows), found.id, LeaguePatch(None, None, Some(false)))
  {
    var league := FindById(t.rows, id, toTime);
    if league.None? {
      return Err(ErrNotFound);
    }
    ghost var before := t.rows;
    r := Update(t, league.value.id, LeagueUpdate(None, None, BoolFlag(false)), toTime);
    assert r.Ok? by {
      assert before[..] == old(t.rows);
      assert HasId(before, league.value.id) by {
        var k :| 0 <= k < |before| && before[k] == league.value;
      }
    }
    EndedRowIsFirst(before, league.value);
  }

  /** With distinct ids, the first row with a row's id is that row. */
  lemma {:induction false} EndedRowIsFirst(rows: seq<LeagueRow>, row: LeagueRow)
    requires IdsDistinct(rows) && row in rows
    ensures var after := PatchedRows(rows, row.id, LeaguePatch(None, None, Some(false)));
      FirstWithId(after, row.id) == Some(row.(isActive := false))
  {
    var after := PatchedRows(rows, row.id, LeaguePatch(None, None, Some(false)));
    var k :| 0 <= k < |rows| && rows[k] == row;
    var f := FirstWithId(after, row.id).value;
    var j :| 0 <= j < |after| && after[j] == f;
    assert rows[j].id == row.id;
  }

  /** `League.createDefault`: an active 'Default League' when the table is
      empty; otherwise the active league, or the first listed. */
  method CreateDefault(t: LeagueTable, now: string, toTime: string -> int) returns (league: LeagueRow)
    requires t.Valid()
    modifies t
    ensures t.Valid()
    ensures old(t.rows) == [] ==>
      t.rows == [league] && league.isActive &&
      league.name == "Default League" && league.description == "Initial league for FIFA matches"
    ensures old(t.rows) != [] ==> t.rows == old(t.rows) && league in t.rows
    ensures old(t.rows) != [] && ActiveCount(t.rows) > 0 ==> league.isActive
    ensures old(t.rows) != [] && ActiveCount(t.rows) == 0 ==>
      forall x :: x in t.rows ==> !ListBefore(toTime)(x, league)
  {
    var listed := t.List(toTime);
    if |listed| == 0 {
      assert t.rows == [];
      var r := Create(t, LeagueInput("Default League", "Initial league for FIFA matches", BoolFlag(true)), now, toTime, None);
      assert Deactivated([]) == [];
      return r.value;
    }
    var active := t.GetActive();
    if active.Some? {
      return active.value;
    }
    assert listed[0] in multiset(t.rows);
    league := listed[0];
    forall x | x in t.rows
      ensures !ListBefore(toTime)(x, league)
    {
      t.ListedFirst(toTime, x);
    }
  }

  // ---------------------------------------------------------------------------
  // League statistics
  // ---------------------------------------------------------------------------

  /** Every slot value of the matches, empty names included. */
  function SlotValues(ms: seq<Match>): (r: set<string>)
    ensures forall n :: n in r <==> exists m :: m in ms && n in Slots(m)
  {
    if ms == [] then {}
    else
      var last := ms[|ms| - 1];
      assert forall m :: m in ms <==> m == last || m in ms[..|ms| - 1];
      assert Slots(last) == [last.team1Player1, last.team1Player2, last.team2Player1, last.team2Player2];
      SlotValues(ms[..|ms| - 1]) + {last.team1Player1, last.team1Player2, last.team2Player1, last.team2Player2}
  }

  /** The earliest and latest match date. */
  function DateRange(ms: seq<Match>, toTime: string -> int): (r: (int, int))
    requires ms != []
    ensures r.0 <= r.1
    ensures exists i :: 0 <= i < |ms| && toTime(ms[i].matchDate) == r.0
    ensures exists i :: 0 <= i < |ms| && toTime(ms[i].matchDate) == r.1
    ensures forall i :: 0 <= i < |ms| ==> r.0 <= toTime(ms[i].matchDate) <= r.1
  {
    var t := toTime(ms[0].matchDate);
    if |ms| == 1 then (t, t)
    else
      var rest := DateRange(ms[1..], toTime);
      var lo := if t < rest.0 then t else rest.0;
      var hi := if t > rest.1 then t else rest.1;
      assert forall i :: 1 <= i < |ms| ==> ms[i] == ms[1..][i - 1];
      (lo, hi)
  }

  datatype LeagueStats = LeagueStats(totalMatches: nat, totalPlayers: nat, dateRange: Option<(int, int)>)

  /** `League.getStats` over the league's matches (`Match.getByLeague`):
      the match count, the number of distinct slot values (an empty slot
      counts as one name), and the date range, null without matches. */
  method GetStats(ms: seq<Match>, toTime: string -> int) returns (stats: LeagueStats)
    ensures stats.totalMatches == |ms|
    ensures stats.totalPlayers == |SlotValues(ms)|
    ensures stats.dateRange.None? <==> ms == []
    ensures stats.dateRange.Some? ==> stats.dateRange.value == DateRange(ms, toTime)
  {
    var names := CollectNames(ms);
    stats := LeagueStats(|ms|, |names|, if |ms| > 0 then Some(DateRange(ms, toTime)) else None);
  }

  /** The `Set` of slot values built over the matches. */
  method CollectNames(ms: seq<Match>) returns (names: set<string>)
    ensures names == SlotValues(ms)
  {
    names := {};
    var k := 0;
    while k < |ms|
      invariant 0 <= k <= |ms|
      invariant names == SlotValues(ms[..k])
    {
      SlotValuesStep(ms, k);
      names := names + {ms[k].team1Player1, ms[k].team1Player2, ms[k].team2Player1, ms[k].team2Player2};
      k := k + 1;
    }
    assert ms[..k] == ms;
  }

  lemma {:induction false} SlotValuesStep(ms: seq<Match>, k: nat)
    requires k < |ms|
    ensures SlotValues(ms[..k + 1]) ==
      SlotValues(ms[..k]) + {ms[k].team1Player1, ms[k].team1Player2, ms[k].team2Player1, ms[k].team2Player2}
  {
    assert ms[..k + 1][..k] == ms[..k];
  }

  // ---------------------------------------------------------------------------
  // The leagues page
  // ---------------------------------------------------------------------------

  datatype Badge = ActiveBadge | EndedBadge | InactiveBadge

  /** `getLeagueStatusBadge`: active wins over an end date. */
  function StatusBadge(l: LeagueRow): (b: Badge)
    ensures b == ActiveBadge <==> l.isActive
    ensures b == EndedBadge <==> !l.isActive && HasEndDate(l)
  {
    if l.isActive then ActiveBadge
    else if HasEndDate(l) then EndedBadge
    else InactiveBadge
  }

  predicate ActivateOffered(l: LeagueRow)
  {
    !l.isActive && !HasEndDate(l)
  }

  predicate EndOffered(l: LeagueRow)
  {
    l.isActive
  }

  /** Exactly one of the two buttons is offered to an active or inactive
      league, and none to an ended one; the badge tells which. */
  lemma {:induction false} GatesFollowBadge(l: LeagueRow)
    ensures ActivateOffered(l) <==> StatusBadge(l) == InactiveBadge
    ensures EndOffered(l) <==> StatusBadge(l) == ActiveBadge
    ensures StatusBadge(l) == EndedBadge <==> !ActivateOffered(l) && !EndOffered(l)
  {
  }

  const ErrNameRequired := "League name is required"

  datatype LeagueForm = LeagueForm(name: string, description: string)

  /** `handleCreateLeague`: a blank name is refused; otherwise the request
      carries the trimmed name and is never active. */
  function CreateRequest(f: LeagueForm): (r: Result<LeagueInput, string>)
    ensures r.Err? <==> IsBlank(f.name)
    ensures r.Err? ==> r.error == ErrNameRequired
    ensures r.Ok? ==> r.value == LeagueInput(Trim(f.name), f.description, BoolFlag(false))
    ensures r.Ok? ==> r.value.name != "" && !Truthy(r.value.isActive)
  {
    if IsBlank(f.name) then Err(ErrNameRequired)
    else Ok(LeagueInput(Trim(f.name), f.description, BoolFlag(false)))
  }

  /** `handleEditLeague`: the same check; the update sets the trimmed name
      and the description and leaves the flag alone. */
  function EditRequest(f: LeagueForm): (r: Result<LeagueUpdate, string>)
    ensures r.Err? <==> IsBlank(f.name)
    ensures r.Err? ==> r.error == ErrNameRequired
    ensures r.Ok? ==> r.value == LeagueUpdate(Some(Trim(f.name)), Some(f.description), Absent)
    ensures r.Ok? ==> PatchOf(r.value).isActive.None?
  {
    if IsBlank(f.name) then Err(ErrNameRequired)
    else Ok(LeagueUpdate(Some(Trim(f.name)), Some(f.description), Absent))
  }

  /** A league created from the page is inactive and leaves every other
      league as it was. */
  lemma {:induction false} PageCreateLeavesOthers(f: LeagueForm)
    requires !IsBlank(f.name)
    ensures CreateRequest(f).Ok? && !StrictlyTrue(CreateRequest(f).value.isActive)
    ensures !Truthy(CreateRequest(f).value.isActive)
  {
  }
}
