/** The server side of the database service (src/services/DatabaseService.js,
    `executeServerQuery`): the action dispatch, the `leagues` and `matches`
    tables as in-memory rows, each SQL statement as an update of those
    rows, and the text of the `matches.list` query. Seasons and leagues
    share the `leagues` table. */
module LeagueTable {
  import opened Wrappers
  import opened Text
  import opened Sorting
  import opened Lists

  // ---------------------------------------------------------------------------
  // Action dispatch
  // ---------------------------------------------------------------------------

  datatype Action =
    | Ping
    | PlayersList | PlayersCreate | PlayersUpdate | PlayersDelete
    | LeaguesList | LeaguesCreate | LeaguesGetActive | LeaguesSetActive
    | MatchesList | MatchesCreate | MatchesUpdate | MatchesDelete

  /** The `switch (action)` cases and the statement each selects. */
  const Actions: map<string, Action> := map[
    "ping" := Ping,
    "players.list" := PlayersList, "players.create" := PlayersCreate,
    "players.update" := PlayersUpdate, "players.delete" := PlayersDelete,
    "leagues.list" := LeaguesList, "leagues.create" := LeaguesCreate,
    "leagues.getActive" := LeaguesGetActive, "leagues.setActive" := LeaguesSetActive,
    "matches.list" := MatchesList, "matches.create" := MatchesCreate,
    "matches.update" := MatchesUpdate, "matches.delete" := MatchesDelete]

  /** `executeServerQuery`'s `switch`: a listed name selects its
      statement; anything else is refused with
      'Unknown database action: <action>'. */
  function Dispatch(action: string): (r: Result<Action, string>)
    ensures r.Ok? <==> action in Actions
    ensures r.Ok? ==> r.value == Actions[action]
    ensures r.Err? ==> r.error == "Unknown database action: " + action
  {
    if action in Actions then Ok(Actions[action]) else Err("Unknown database action: " + action)
  }

  /** The actions the season entity sends for update, delete and end have
      no case in the switch. */
  lemma {:induction false} SeasonActionsRefused()
    ensures Dispatch("leagues.update") == Err("Unknown database action: " + "leagues.update")
    ensures Dispatch("leagues.delete") == Err("Unknown database action: " + "leagues.delete")
    ensures Dispatch("leagues.endSeason") == Err("Unknown database action: " + "leagues.endSeason")
  {
  }

  /** Distinct names select distinct statements. */
  lemma {:induction false} DispatchInjective(a: string, b: string)
    requires Dispatch(a).Ok? && Dispatch(b).Ok? && a != b
    ensures Dispatch(a).value != Dispatch(b).value
  {
  }

  // ---------------------------------------------------------------------------
  // The leagues table
  // ---------------------------------------------------------------------------

  /** A row of `leagues`; seasons are rows of the same table. */
  datatype LeagueRow = LeagueRow(
    id: nat, name: string, description: string,
    isActive: bool, isLocked: bool, endDate: Option<string>, createdDate: string)

  /** The pages test `end_date` for truthiness: an absent date and the
      empty string both read as no end date. */
  predicate HasEndDate(row: LeagueRow)
  {
    row.endDate.Some? && row.endDate.value != ""
  }

  /** The columns an update may set; `None` leaves a column as it is. */
  datatype LeaguePatch = LeaguePatch(name: Option<string>, description: Option<string>, isActive: Option<bool>)

  function ApplyPatch(row: LeagueRow, p: LeaguePatch): (r: LeagueRow)
    ensures r.id == row.id && r.isLocked == row.isLocked && r.endDate == row.endDate && r.createdDate == row.createdDate
    ensures r.name == (if p.name.Some? then p.name.value else row.name)
    ensures r.description == (if p.description.Some? then p.description.value else row.description)
    ensures r.isActive == (if p.isActive.Some? then p.isActive.value else row.isActive)
  {
    row.(name := p.name.GetOr(row.name),
         description := p.description.GetOr(row.description),
         isActive := p.isActive.GetOr(row.isActive))
  }

  /** Number of active rows. */
  function ActiveCount(rows: seq<LeagueRow>): (n: nat)
    ensures n <= |rows|
    ensures n == 0 <==> forall i :: 0 <= i < |rows| ==> !rows[i].isActive
  {
    if rows == [] then 0
    else ActiveCount(rows[..|rows| - 1]) + (if rows[|rows| - 1].isActive then 1 else 0)
  }

  lemma {:induction false} ActiveCountAppend(rows: seq<LeagueRow>, row: LeagueRow)
    ensures ActiveCount(rows + [row]) == ActiveCount(rows) + (if row.isActive then 1 else 0)
  {
    assert (rows + [row])[..|rows|] == rows;
  }

  predicate IdsDistinct(rows: seq<LeagueRow>)
  {
    forall i, j :: 0 <= i < j < |rows| ==> rows[i].id != rows[j].id
  }

  predicate HasId(rows: seq<LeagueRow>, id: int)
  {
    exists i :: 0 <= i < |rows| && rows[i].id == id
  }

  /** `UPDATE leagues SET is_active = false`. */
  function Deactivated(rows: seq<LeagueRow>): (r: seq<LeagueRow>)
    ensures |r| == |rows| && ActiveCount(r) == 0
    ensures forall i :: 0 <= i < |rows| ==> r[i] == rows[i].(isActive := false)
  {
    seq(|rows|, i requires 0 <= i < |rows| => rows[i].(isActive := false))
  }

  /** `UPDATE leagues SET is_active = false` followed by
      `UPDATE leagues SET is_active = true WHERE id = ..`. */
  function ActivatedOnly(rows: seq<LeagueRow>, id: int): (r: seq<LeagueRow>)
    ensures |r| == |rows|
    ensures forall i :: 0 <= i < |rows| ==> r[i] == rows[i].(isActive := rows[i].id == id)
  {
    seq(|rows|, i requires 0 <= i < |rows| => rows[i].(isActive := rows[i].id == id))
  }

  /** After activating one id, the active rows are exactly the rows with
      that id: one when the id exists (ids being distinct), none otherwise. */
  lemma {:induction false} ActivatedOnlyCount(rows: seq<LeagueRow>, id: int)
    requires IdsDistinct(rows)
    ensures ActiveCount(ActivatedOnly(rows, id)) == if HasId(rows, id) then 1 else 0
  {
    if rows != [] {
      var front := rows[..|rows| - 1];
      var last := rows[|rows| - 1];
      ActivatedOnlyCount(front, id);
      assert ActivatedOnly(rows, id)[..|rows| - 1] == ActivatedOnly(front, id);
      if last.id == id {
        assert !HasId(front, id);
      }
      if HasId(rows, id) && last.id != id {
        var k :| 0 <= k < |rows| && rows[k].id == id;
        assert front[k].id == id;
      }
    }
  }

  /** The first row with the id, as `RETURNING` yields it (`rows[0]`). */
  function FirstWithId(rows: seq<LeagueRow>, id: int): (r: Option<LeagueRow>)
    ensures r.None? <==> !HasId(rows, id)
    ensures r.Some? ==> r.value in rows && r.value.id == id
  {
    if rows == [] then None
    else if rows[0].id == id then Some(rows[0])
    else
      var rest := FirstWithId(rows[1..], id);
      assert HasId(rows, id) && rows[0].id != id ==> HasId(rows[1..], id) by {
        if HasId(rows, id) && rows[0].id != id {
          var k :| 0 <= k < |rows| && rows[k].id == id;
          assert rows[1..][k - 1].id == id;
        }
      }
      assert HasId(rows[1..], id) ==> HasId(rows, id) by {
        if HasId(rows[1..], id) {
          var k :| 0 <= k < |rows[1..]| && rows[1..][k].id == id;
          assert rows[k + 1].id == id;
        }
      }
      rest
  }

  /** `ORDER BY is_active DESC, created_date DESC`. */
  function ListBefore(toTime: string -> int): (LeagueRow, LeagueRow) -> bool
  {
    (a: LeagueRow, b: LeagueRow) =>
      (a.isActive && !b.isActive) ||
      (a.isActive == b.isActive && toTime(a.createdDate) > toTime(b.createdDate))
  }

  lemma {:induction false} ListBeforeOrder(toTime: string -> int)
    ensures StrictWeakOrder(ListBefore(toTime))
  {
  }

  /** The rows with the given id removed (`DELETE .. WHERE id = ..`). */
  function WithoutId(rows: seq<LeagueRow>, id: int): (r: seq<LeagueRow>)
    ensures !HasId(r, id)
    ensures forall x :: x in r <==> x in rows && x.id != id
    ensures IdsDistinct(rows) ==> IdsDistinct(r)
    ensures forall x :: x in r ==> exists i :: 0 <= i < |rows| && rows[i] == x
  {
    if rows == [] then []
    else
      var rest := WithoutId(rows[1..], id);
      assert forall x :: x in rows <==> x == rows[0] || x in rows[1..];
      if rows[0].id == id then rest
      else
        assert IdsDistinct(rows) ==> IdsDistinct([rows[0]] + rest) by {
          if IdsDistinct(rows) {
            forall y | y in rest ensures y.id != rows[0].id {
              var k :| 0 <= k < |rows[1..]| && rows[1..][k] == y;
              assert rows[k + 1] == y;
            }
            ConsDistinct(rows[0], rest);
          }
        }
        [rows[0]] + rest
  }

  /** A row whose id no other row has keeps the ids distinct. */
  lemma {:induction false} ConsDistinct(x: LeagueRow, rest: seq<LeagueRow>)
    requires IdsDistinct(rest) && forall y :: y in rest ==> y.id != x.id
    ensures IdsDistinct([x] + rest)
  {
    var r := [x] + rest;
    forall i, j | 0 <= i < j < |r| ensures r[i].id != r[j].id {
      assert r[j] == rest[j - 1];
      if i > 0 {
        assert r[i] == rest[i - 1];
      }
    }
  }

  /** The rows with the patch applied to every row with the id. */
  function PatchedRows(rows: seq<LeagueRow>, id: int, p: LeaguePatch): (r: seq<LeagueRow>)
    ensures |r| == |rows|
    ensures forall i :: 0 <= i < |rows| ==> r[i] == if rows[i].id == id then ApplyPatch(rows[i], p) else rows[i]
  {
    seq(|rows|, i requires 0 <= i < |rows| => if rows[i].id == id then ApplyPatch(rows[i], p) else rows[i])
  }

  class LeagueTable {
    var rows: seq<LeagueRow>
    /** The next value of the `id` sequence. */
    var nextId: nat

    ghost predicate Valid()
      reads this
    {
      IdsDistinct(rows) && forall i :: 0 <= i < |rows| ==> rows[i].id < nextId
    }

    constructor ()
      ensures rows == [] && nextId == 1 && Valid()
    {
      rows := [];
      nextId := 1;
    }

    /** `leagues.list`: active rows first, then newest first. */
    function List(toTime: string -> int): (r: seq<LeagueRow>)
      reads this
      ensures multiset(r) == multiset(rows)
    {
      SortBy(rows, ListBefore(toTime))
    }

    lemma {:induction false} ListOrdered(toTime: string -> int)
      ensures Sorted(List(toTime), ListBefore(toTime))
    {
      ListBeforeOrder(toTime);
      SortBySorted(rows, ListBefore(toTime));
    }

    /** No row is listed ahead of the first listed one. */
    lemma {:induction false} ListedFirst(toTime: string -> int, x: LeagueRow)
      requires x in rows
      ensures |List(toTime)| > 0 && !ListBefore(toTime)(x, List(toTime)[0])
    {
      var listed := List(toTime);
      assert x in multiset(listed);
      ListBeforeOrder(toTime);
      ListOrdered(toTime);
      SortedHeadFirst(listed, ListBefore(toTime), x);
    }

    /** `leagues.getActive`: an active row, or null when none is active.
        Without an ORDER BY the database may return any active row; the
        model takes the first in table order. */
    function GetActive(): (r: Option<LeagueRow>)
      reads this
      ensures r.None? <==> ActiveCount(rows) == 0
      ensures r.Some? ==> r.value in rows && r.value.isActive
    {
      FirstActive(rows)
    }

    /** `leagues.create`: when the new league is active every existing row
        is deactivated first, so it ends up the only active one; otherwise
        the existing rows are untouched. */
    method Create(name: string, description: string, isActive: bool, now: string) returns (row: LeagueRow)
      requires Valid()
      modifies this
      ensures Valid()
      ensures row == LeagueRow(old(nextId), name, description, isActive, false, None, now)
      ensures isActive ==> rows == Deactivated(old(rows)) + [row] && ActiveCount(rows) == 1
      ensures !isActive ==> rows == old(rows) + [row] && ActiveCount(rows) == ActiveCount(old(rows))
      ensures nextId == old(nextId) + 1
    {
      if isActive {
        rows := Deactivated(rows);
      }
      row := LeagueRow(nextId, name, description, isActive, false, None, now);
      ActiveCountAppend(rows, row);
      rows := rows + [row];
      nextId := nextId + 1;
    }

    /** `leagues.setActive`: clears every flag, then sets the one row;
        afterwards exactly one row is active if the id exists, none
        otherwise. */
    method SetActive(id: int) returns (r: Option<LeagueRow>)
      requires Valid()
      modifies this
      ensures Valid() && nextId == old(nextId)
      ensures rows == ActivatedOnly(old(rows), id)
      ensures ActiveCount(rows) == if HasId(old(rows), id) then 1 else 0
      ensures r == FirstWithId(rows, id)
      ensures r.Some? ==> r.value.isActive
    {
      rows := Deactivated(rows);
      var cleared := rows;
      rows := seq(|cleared|, i requires 0 <= i < |cleared| =>
        if cleared[i].id == id then cleared[i].(isActive := true) else cleared[i]);
      assert rows == ActivatedOnly(old(rows), id);
      ActivatedOnlyCount(old(rows), id);
      r := FirstWithId(rows, id);
    }

    /** The repository's update of one league: the supplied columns of the
        row with the id are set; the updated row, or none for an unknown
        id. */
    method Patch(id: int, p: LeaguePatch) returns (r: Option<LeagueRow>)
      requires Valid()
      modifies this
      ensures Valid() && nextId == old(nextId)
      ensures rows == PatchedRows(old(rows), id, p)
      ensures r == FirstWithId(rows, id)
      ensures r.None? <==> !HasId(old(rows), id)
    {
      rows := PatchedRows(rows, id, p);
      r := FirstWithId(rows, id);
      assert HasId(rows, id) <==> HasId(old(rows), id) by {
        if HasId(old(rows), id) {
          var k :| 0 <= k < |old(rows)| && old(rows)[k].id == id;
          assert rows[k].id == id;
        }
      }
    }

    /** The repository's delete of one league. */
    method Remove(id: int)
      requires Valid()
      modifies this
      ensures Valid() && nextId == old(nextId)
      ensures rows == WithoutId(old(rows), id)
    {
      rows := WithoutId(rows, id);
    }
  }

  /** The first active row. */
  function FirstActive(rows: seq<LeagueRow>): (r: Option<LeagueRow>)
    ensures r.None? <==> ActiveCount(rows) == 0
    ensures r.Some? ==> r.value in rows && r.value.isActive
  {
    if rows == [] then None
    else if rows[0].isActive then Some(rows[0])
    else
      var rest := FirstActive(rows[1..]);
      assert ActiveCount(rows) == 0 <==> ActiveCount(rows[1..]) == 0 by {
        assert forall i :: 0 < i < |rows| ==> rows[i] == rows[1..][i - 1];
      }
      rest
  }

  /** The rows with `is_active` cleared on every row whose id is in `ids`. */
  function OffFor(rows: seq<LeagueRow>, ids: set<int>): (r: seq<LeagueRow>)
    ensures |r| == |rows|
  {
    seq(|rows|, i requires 0 <= i < |rows| => if rows[i].id in ids then rows[i].(isActive := false) else rows[i])
  }

  lemma {:induction false} OffForCovers(rows: seq<LeagueRow>, ids: set<int>)
    requires forall i :: 0 <= i < |rows| && rows[i].isActive ==> rows[i].id in ids
    ensures OffFor(rows, ids) == Deactivated(rows)
  {
  }

  /** One `is_active = false` update, as the loop below issues it. */
  method SwitchOff(t: LeagueTable, id: nat, ghost start: seq<LeagueRow>, ghost done: set<int>)
    requires t.Valid() && t.rows == OffFor(start, done)
    modifies t
    ensures t.Valid() && t.nextId == old(t.nextId)
    ensures t.rows == OffFor(start, done + {id})
  {
    PatchOff(t.rows, start, done, id);
    var _ := t.Patch(id, LeaguePatch(None, None, Some(false)));
  }

  /** Clearing the flag of one more id extends the set switched off. */
  lemma {:induction false} PatchOff(rows: seq<LeagueRow>, start: seq<LeagueRow>, done: set<int>, id: int)
    requires rows == OffFor(start, done)
    ensures PatchedRows(rows, id, LeaguePatch(None, None, Some(false))) == OffFor(start, done + {id})
  {
    var a := PatchedRows(rows, id, LeaguePatch(None, None, Some(false)));
    var b := OffFor(start, done + {id});
    forall i | 0 <= i < |a|
      ensures a[i] == b[i]
    {
    }
  }

  /** The entities' `deactivateAll`: every league listed as active gets an
      `is_active = false` update, one at a time, in list order. Returns the
      ids updated; afterwards no row is active and nothing else changed. */
  method DeactivateAll(t: LeagueTable, toTime: string -> int) returns (issued: seq<nat>)
    requires t.Valid()
    modifies t
    ensures t.Valid() && t.nextId == old(t.nextId)
    ensures t.rows == Deactivated(old(t.rows))
    ensures ActiveCount(t.rows) == 0
    ensures forall id :: id in issued <==> exists i :: 0 <= i < |old(t.rows)| && old(t.rows)[i].isActive && old(t.rows)[i].id == id
  {
    var listed := t.List(toTime);
    ghost var start := t.rows;
    ghost var done: set<int> := {};
    assert t.rows == OffFor(start, done);
    issued := [];
    var k := 0;
    while k < |listed|
      invariant 0 <= k <= |listed|
      invariant t.Valid() && t.nextId == old(t.nextId)
      invariant t.rows == OffFor(start, done)
      invariant forall id :: id in done <==> id in issued
      invariant forall j :: 0 <= j < k && listed[j].isActive ==> listed[j].id in done
      invariant forall id :: id in issued ==> exists j :: 0 <= j < k && listed[j].isActive && listed[j].id == id
    {
      done, issued := DeactivateAt(t, listed, k, start, done, issued);
      k := k + 1;
    }
    ListedCoversActive(start, listed, done, issued);
  }

  /** The loop body for listed row `k`: an active row gets its update. */
  method DeactivateAt(t: LeagueTable, listed: seq<LeagueRow>, k: nat, ghost start: seq<LeagueRow>, ghost done: set<int>,
                      issued: seq<nat>)
    returns (ghost done': set<int>, issued': seq<nat>)
    requires k < |listed| && t.Valid() && t.rows == OffFor(start, done)
    requires forall id :: id in done <==> id in issued
    requires forall j :: 0 <= j < k && listed[j].isActive ==> listed[j].id in done
    requires forall id :: id in issued ==> exists j :: 0 <= j < k && listed[j].isActive && listed[j].id == id
    modifies t
    ensures t.Valid() && t.nextId == old(t.nextId) && t.rows == OffFor(start, done')
    ensures forall id :: id in done' <==> id in issued'
    ensures forall j :: 0 <= j < k + 1 && listed[j].isActive ==> listed[j].id in done'
    ensures forall id :: id in issued' ==> exists j :: 0 <= j < k + 1 && listed[j].isActive && listed[j].id == id
  {
    done', issued' := done, issued;
    if listed[k].isActive {
      SwitchOff(t, listed[k].id, start, done);
      done' := done + {listed[k].id};
      issued' := issued + [listed[k].id];
    }
  }

  /** After the loop: the ids updated are those of the active rows of the
      listing, which holds the table's rows in another order, so every
      active row was switched off and no other id was touched. */
  lemma {:induction false} ListedCoversActive(start: seq<LeagueRow>, listed: seq<LeagueRow>, done: set<int>, issued: seq<nat>)
    requires multiset(listed) == multiset(start)
    requires forall id :: id in done <==> id in issued
    requires forall j :: 0 <= j < |listed| && listed[j].isActive ==> listed[j].id in done
    requires forall id :: id in issued ==> exists j :: 0 <= j < |listed| && listed[j].isActive && listed[j].id == id
    ensures OffFor(start, done) == Deactivated(start)
    ensures forall id :: id in issued <==> exists i :: 0 <= i < |start| && start[i].isActive && start[i].id == id
  {
    forall i | 0 <= i < |start| && start[i].isActive
      ensures start[i].id in done
    {
      assert start[i] in multiset(listed);
    }
    OffForCovers(start, done);
    forall id | id in issued
      ensures exists i :: 0 <= i < |start| && start[i].isActive && start[i].id == id
    {
      var j :| 0 <= j < |listed| && listed[j].isActive && listed[j].id == id;
      assert listed[j] in multiset(start);
      var i :| 0 <= i < |start| && start[i] == listed[j];
    }
  }

  /** A row found in a permutation of the table is in the table, and a
      row missing from the permutation is missing from the table. */
  lemma {:induction false} FoundInPermutation(listed: seq<LeagueRow>, rows: seq<LeagueRow>, id: int)
    requires multiset(listed) == multiset(rows)
    ensures FirstWithId(listed, id).Some? ==> FirstWithId(listed, id).value in rows
    ensures FirstWithId(listed, id).None? ==> forall x :: x in rows ==> x.id != id
  {
    var r := FirstWithId(listed, id);
    if r.Some? {
      assert r.value in multiset(listed);
    } else {
      forall x | x in rows ensures x.id != id {
        assert x in multiset(listed);
        var i :| 0 <= i < |listed| && listed[i] == x;
      }
    }
  }

  /** `findById` of both entities: the listed row whose id equals
      `parseInt(id)`; nothing when the text does not parse. */
  function FindById(rows: seq<LeagueRow>, id: string, toTime: string -> int): (r: Option<LeagueRow>)
    ensures ParseInt(id).None? ==> r.None?
    ensures r.Some? ==> r.value in rows && ParseInt(id) == Some(r.value.id)
    ensures ParseInt(id).Some? && r.None? ==> forall x :: x in rows ==> x.id != ParseInt(id).value
  {
    var n := ParseInt(id);
    if n.None? then None
    else
      var listed := SortBy(rows, ListBefore(toTime));
      FoundInPermutation(listed, rows, n.value);
      FirstWithId(listed, n.value)
  }

  /** The `is_active` property of a create or update request: absent, a
      boolean, or text (a form value). */
  datatype Flag = Absent | BoolFlag(b: bool) | TextFlag(s: string)

  /** JavaScript truthiness, which guards the deactivation. */
  predicate Truthy(f: Flag)
  {
    match f
    case Absent => false
    case BoolFlag(b) => b
    case TextFlag(s) => s != ""
  }

  /** `=== true || === 'true'`, which decides the stored flag. */
  predicate StrictlyTrue(f: Flag)
  {
    f == BoolFlag(true) || f == TextFlag("true")
  }

  /** The stored flag implies the deactivation, but not conversely: a
      truthy text such as "yes" deactivates every row yet stores false. */
  lemma {:induction false} StrictlyTrueIsTruthy(f: Flag)
    ensures StrictlyTrue(f) ==> Truthy(f)
    ensures !StrictlyTrue(TextFlag("yes")) && Truthy(TextFlag("yes"))
  {
  }

  /** Storage errors about a taken name are re-raised with a friendly
      message naming the entity; any other error passes through. */
  function DuplicateNameError(message: string, entity: string): (r: string)
    ensures (Contains(message, "duplicate key value") || Contains(message, "already exists")) ==>
      r == "A " + entity + " with this name already exists. Please choose a different name."
    ensures !(Contains(message, "duplicate key value") || Contains(message, "already exists")) ==> r == message
  {
    if Contains(message, "duplicate key value") || Contains(message, "already exists") then
      "A " + entity + " with this name already exists. Please choose a different name."
    else message
  }

  // ---------------------------------------------------------------------------
  // The matches table
  // ---------------------------------------------------------------------------

  datatype MatchRow = MatchRow(
    id: nat, leagueId: int,
    team1Player1: string, team1Player2: string,
    team2Player1: string, team2Player2: string,
    team1Score: int, team2Score: int, matchDate: string, createdDate: string)

  /** The seven columns `matches.update` sets. */
  datatype MatchColumns = MatchColumns(
    team1Player1: string, team1Player2: string,
    team2Player1: string, team2Player2: string,
    team1Score: int, team2Score: int, matchDate: string)

  function Overwrite(row: MatchRow, c: MatchColumns): (r: MatchRow)
    ensures r.id == row.id && r.leagueId == row.leagueId && r.createdDate == row.createdDate
    ensures MatchColumns(r.team1Player1, r.team1Player2, r.team2Player1, r.team2Player2,
                         r.team1Score, r.team2Score, r.matchDate) == c
  {
    row.(team1Player1 := c.team1Player1, team1Player2 := c.team1Player2,
         team2Player1 := c.team2Player1, team2Player2 := c.team2Player2,
         team1Score := c.team1Score, team2Score := c.team2Score, matchDate := c.matchDate)
  }

  /** The rows a delete by `id` keeps. */
  function OtherId(id: int): MatchRow -> bool
  {
    (m: MatchRow) => m.id != id
  }

  class MatchTable {
    var rows: seq<MatchRow>
    var nextId: nat

    constructor ()
      ensures rows == [] && nextId == 1
    {
      rows := [];
      nextId := 1;
    }

    /** `matches.create`: one row appended with a fresh id. */
    method Create(leagueId: int, c: MatchColumns, now: string) returns (row: MatchRow)
      modifies this
      ensures row == MatchRow(old(nextId), leagueId, c.team1Player1, c.team1Player2, c.team2Player1,
                              c.team2Player2, c.team1Score, c.team2Score, c.matchDate, now)
      ensures rows == old(rows) + [row] && nextId == old(nextId) + 1
    {
      row := MatchRow(nextId, leagueId, c.team1Player1, c.team1Player2, c.team2Player1,
                      c.team2Player2, c.team1Score, c.team2Score, c.matchDate, now);
      rows := rows + [row];
      nextId := nextId + 1;
    }

    /** `matches.update`: the seven columns of the rows with the id are
        overwritten; `league_id` and `created_date` stay. The result is
        `rows[0]` of the RETURNING set, taken here as the first updated row
        in table order (ids are serial, so there is at most one), and
        undefined (None) when no row has the id. */
    method Update(id: int, c: MatchColumns) returns (updated: Option<MatchRow>)
      modifies this
      ensures nextId == old(nextId) && |rows| == |old(rows)|
      ensures forall i :: 0 <= i < |rows| ==>
        rows[i] == if old(rows)[i].id == id then Overwrite(old(rows)[i], c) else old(rows)[i]
      ensures updated.None? <==> forall m :: m in rows ==> m.id != id
      ensures updated.Some? ==> updated.value.id == id
      ensures updated.Some? ==>
        exists k :: 0 <= k < |rows| && rows[k] == updated.value && (forall j :: 0 <= j < k ==> rows[j].id != id)
    {
      var before := rows;
      rows := seq(|before|, i requires 0 <= i < |before| =>
        if before[i].id == id then Overwrite(before[i], c) else before[i]);
      var k := 0;
      while k < |rows| && rows[k].id != id
        invariant 0 <= k <= |rows|
        invariant forall j :: 0 <= j < k ==> rows[j].id != id
      {
        k := k + 1;
      }
      if k < |rows| {
        updated := Some(rows[k]);
      } else {
        updated := None;
      }
    }

    /** `matches.delete`: every row with the id goes, the others stay in
        table order. */
    method Delete(id: int)
      modifies this
      ensures nextId == old(nextId)
      ensures rows == Filter(old(rows), OtherId(id))
      ensures forall m :: m in rows <==> m in old(rows) && m.id != id
    {
      var kept: seq<MatchRow> := [];
      var k := 0;
      while k < |rows|
        invariant 0 <= k <= |rows|
        invariant kept == Filter(rows[..k], OtherId(id))
        invariant rows == old(rows) && nextId == old(nextId)
      {
        FilterPrefixNext(rows, k, OtherId(id));
        if rows[k].id != id {
          kept := kept + [rows[k]];
        }
        k := k + 1;
      }
      assert rows[..k] == rows;
      rows := kept;
    }
  }

  // ---------------------------------------------------------------------------
  // The matches.list query
  // ---------------------------------------------------------------------------

  const SelectMatches := "SELECT id, league_id, team1_player1, team1_player2, team2_player1, team2_player2, team1_score, team2_score, match_date, created_date FROM matches"

  /** The ORDER BY clause for a sort key; unknown keys add none. */
  function OrderClause(sort: string): (r: string)
    ensures sort !in {"-created_date", "created_date", "-match_date", "match_date"} <==> r == ""
  {
    if sort == "-created_date" then " ORDER BY created_date DESC"
    else if sort == "created_date" then " ORDER BY created_date ASC"
    else if sort == "-match_date" then " ORDER BY match_date DESC"
    else if sort == "match_date" then " ORDER BY match_date ASC"
    else ""
  }

  /** The parameters of `matches.list`; `None` is an absent property. A
      league id or limit of 0 is falsy, like an absent one. */
  datatype ListParams = ListParams(sort: Option<string>, limit: Option<int>, leagueId: Option<int>)

  predicate Present(v: Option<int>)
  {
    v.Some? && v.value != 0
  }

  /** The query text and its parameter list, built clause by clause; each
      placeholder `$k` is numbered by the length of the parameter list at
      the moment its value is pushed, so `$k` names the k-th parameter. */
  method BuildMatchesList(p: ListParams) returns (query: string, params: seq<int>)
    ensures params == (if Present(p.leagueId) then [p.leagueId.value] else []) +
                      (if Present(p.limit) then [p.limit.value] else [])
    ensures query ==
      SelectMatches +
      (if Present(p.leagueId) then " WHERE league_id = $" + IntToString(1) else "") +
      OrderClause(if p.sort.Some? then p.sort.value else "-created_date") +
      (if Present(p.limit) then " LIMIT $" + IntToString(|params|) else "")
    // `$1` is the league id when it is filtered on
    ensures Present(p.leagueId) ==> |params| >= 1 && params[0] == p.leagueId.value
    // the LIMIT placeholder is `$2` with a league filter, `$1` without, and names the limit
    ensures Present(p.limit) ==>
      |params| == (if Present(p.leagueId) then 2 else 1) && params[|params| - 1] == p.limit.value
  {
    var sort := if p.sort.Some? then p.sort.value else "-created_date";
    params := [];
    var where, limit := "", "";
    if Present(p.leagueId) {
      where := " WHERE league_id = $" + IntToString(|params| + 1);
      params := params + [p.leagueId.value];
    }
    var order := OrderClause(sort);
    ghost var before := params;
    assert before == if Present(p.leagueId) then [p.leagueId.value] else [];
    if Present(p.limit) {
      limit := " LIMIT $" + IntToString(|params| + 1);
      params := params + [p.limit.value];
      assert |params| == |before| + 1 && params[|params| - 1] == p.limit.value;
    }
    query := SelectMatches + where + order + limit;
  }
}
