/** The players page (src/pages/Players.jsx): the search, the summary
    counts and the submit decision, against an abstract player repository.
    The page expects rows of player and counters from
    `Player.getAllPlayersWithStats`, and the submit of an edit calls
    `Player.update`; src/entities/Player.js defines neither, so the rows
    are a parameter here and the submit is modelled as the decision the
    page makes. */
module PlayersPage {
  import opened Wrappers
  import opened Text
  import opened Records
  import opened Lists
  import opened Standings

  predicate NameHit(row: StatRow, term: string)
  {
    Contains(Lower(row.player.name), Lower(term))
  }

  /** `filterPlayers`: every row for an empty term; otherwise the rows whose
      lower-cased name contains the lower-cased term, in their order. */
  function FilterPlayers(rows: seq<StatRow>, term: string): (r: seq<StatRow>)
    ensures term == "" ==> r == rows
    ensures term != "" ==> forall x :: x in r <==> x in rows && NameHit(x, term)
    ensures |r| <= |rows|
  {
    if term == "" then rows else Filter(rows, (x: StatRow) => NameHit(x, term))
  }

  datatype Summary = Summary(totalPlayers: nat, activePlayers: nat, topPlayer: Option<StatRow>)

  /** The summary counts: all rows, rows with a match played, and the
      first row, if any. */
  function Summarize(rows: seq<StatRow>): (s: Summary)
    ensures s.totalPlayers == |rows|
    ensures s.activePlayers == |Filter(rows, (x: StatRow) => x.stats.played > 0)| <= s.totalPlayers
    ensures s.topPlayer.None? <==> rows == []
    ensures s.topPlayer.Some? ==> s.topPlayer.value == rows[0]
  {
    Summary(|rows|, CountIf(rows, (x: StatRow) => x.stats.played > 0),
      if rows == [] then None else Some(rows[0]))
  }

  /** What a submit does. */
  datatype SubmitAction = Reject(message: string) | UpdatePlayer(id: string, name: string) | CreatePlayer(name: string)

  /** `handleSubmit`: a blank name is refused with "Player name is
      required"; otherwise the decision is to update the player being
      edited (`Player.update`, undefined in the source) or to create a new
      one, with the name as typed (untrimmed). */
  function Submit(name: string, editing: Option<Player>): (r: SubmitAction)
    ensures r.Reject? <==> IsBlank(name)
    ensures r.Reject? ==> r.message == "Player name is required"
    ensures !IsBlank(name) && editing.Some? ==> r == UpdatePlayer(editing.value.id, name)
    ensures !IsBlank(name) && editing.None? ==> r == CreatePlayer(name)
  {
    if IsBlank(name) then Reject("Player name is required")
    else if editing.Some? then UpdatePlayer(editing.value.id, name)
    else CreatePlayer(name)
  }

  /** An accepted name holds a non-space character. */
  lemma {:induction false} AcceptedNameHasContent(name: string, editing: Option<Player>)
    requires !Submit(name, editing).Reject?
    ensures exists i :: 0 <= i < |name| && !IsSpace(name[i])
  {
    BlankIffAllSpace(name);
  }
}
