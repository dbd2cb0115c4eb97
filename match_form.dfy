/** The match entry forms: the add page (src/pages/AddMatch.jsx) and the
    edit dialog (src/components/matches/EditMatchModal.jsx). Both keep the
    form as strings and check it in a fixed order, reporting the first
    failure. */
module MatchForm {
  import opened Wrappers
  import opened Text
  import opened Records
  import opened Lists
  import opened MatchStore

  /** The seven match fields as the inputs hold them. */
  datatype MatchFields = MatchFields(
    team1Player1: string, team1Player2: string,
    team2Player1: string, team2Player2: string,
    team1Score: string, team2Score: string, matchDate: string)

  /** The add page's form: the match fields plus the chosen season id. */
  datatype AddForm = AddForm(fields: MatchFields, seasonId: string)

  const ErrPlayers := "Please select all players for both teams"
  const ErrDuplicate := "Each player can only be selected once per match"
  const ErrScoresMissing := "Please enter scores for both teams"
  const ErrScoresInvalid := "Please enter valid scores (0 or higher)"
  const ErrSeason := "Please select a season for this match"
  const ErrRecordFailed := "Failed to record match. Please try again."
  const ErrUpdateFailed := "Failed to update match. Please try again."
  const MsgRecorded := "Match recorded successfully!"

  predicate AllSelected(f: MatchFields)
  {
    f.team1Player1 != "" && f.team1Player2 != "" && f.team2Player1 != "" && f.team2Player2 != ""
  }

  predicate PairwiseDistinct(f: MatchFields)
  {
    f.team1Player1 != f.team1Player2 && f.team1Player1 != f.team2Player1 &&
    f.team1Player1 != f.team2Player2 && f.team1Player2 != f.team2Player1 &&
    f.team1Player2 != f.team2Player2 && f.team2Player1 != f.team2Player2
  }

  /** A score the forms accept: non-empty and parsing to an integer >= 0. */
  predicate ValidScore(s: string)
  {
    s != "" && ParseInt(s).Some? && ParseInt(s).value >= 0
  }

  /** Four values make a set of size four exactly when they are pairwise
      distinct. */
  lemma {:induction false} SetOfFour(a: string, b: string, c: string, d: string)
    ensures |{a, b, c, d}| == 4 <==>
      a != b && a != c && a != d && b != c && b != d && c != d
  {
    if a == b { assert {a, b, c, d} == {a, c, d}; }
    else if a == c { assert {a, b, c, d} == {a, b, d}; }
    else if a == d { assert {a, b, c, d} == {a, b, c}; }
    else if b == c { assert {a, b, c, d} == {a, b, d}; }
    else if b == d { assert {a, b, c, d} == {a, b, c}; }
    else if c == d { assert {a, b, c, d} == {a, b, c}; }
    else {
      assert {a, b, c, d} == {a, b, c} + {d};
      assert {a, b, c} == {a, b} + {c};
    }
  }

  /** The edit dialog's `validateMatch`: null exactly when the four slots
      are filled with distinct names and both scores are valid; otherwise
      the message of the first check that fails. */
  function ValidateEdit(f: MatchFields): (r: Option<string>)
    ensures r.None? <==> AllSelected(f) && PairwiseDistinct(f) &&
                         ValidScore(f.team1Score) && ValidScore(f.team2Score)
    ensures !AllSelected(f) ==> r == Some(ErrPlayers)
    ensures AllSelected(f) && !PairwiseDistinct(f) ==> r == Some(ErrDuplicate)
    ensures AllSelected(f) && PairwiseDistinct(f) && (f.team1Score == "" || f.team2Score == "") ==>
      r == Some(ErrScoresMissing)
    ensures (AllSelected(f) && PairwiseDistinct(f) && f.team1Score != "" && f.team2Score != "" &&
             !(ValidScore(f.team1Score) && ValidScore(f.team2Score))) ==> r == Some(ErrScoresInvalid)
  {
    SetOfFour(f.team1Player1, f.team1Player2, f.team2Player1, f.team2Player2);
    if f.team1Player1 == "" || f.team1Player2 == "" || f.team2Player1 == "" || f.team2Player2 == "" then
      Some(ErrPlayers)
    else if |{f.team1Player1, f.team1Player2, f.team2Player1, f.team2Player2}| != 4 then
      Some(ErrDuplicate)
    else if f.team1Score == "" || f.team2Score == "" then
      Some(ErrScoresMissing)
    else
      var score1 := ParseInt(f.team1Score);
      var score2 := ParseInt(f.team2Score);
      if score1.None? || score2.None? || score1.value < 0 || score2.value < 0 then
        Some(ErrScoresInvalid)
      else
        None
  }

  /** The add page's `validateMatch`: the edit dialog's four checks, with
      their messages, then a season must be chosen. */
  function ValidateAdd(form: AddForm): (r: Option<string>)
    ensures r.None? <==> ValidateEdit(form.fields).None? && form.seasonId != ""
    ensures ValidateEdit(form.fields).Some? ==> r == ValidateEdit(form.fields)
    ensures r.Some? && ValidateEdit(form.fields).None? ==> r == Some(ErrSeason)
  {
    var e := ValidateEdit(form.fields);
    if e.Some? then e
    else if form.seasonId == "" then Some(ErrSeason)
    else None
  }

  // ---------------------------------------------------------------------------
  // Player dropdowns
  // ---------------------------------------------------------------------------

  /** The four player inputs, in field order. */
  datatype Slot = Team1Player1 | Team1Player2 | Team2Player1 | Team2Player2

  function SlotValue(f: MatchFields, s: Slot): string
  {
    match s
    case Team1Player1 => f.team1Player1
    case Team1Player2 => f.team1Player2
    case Team2Player1 => f.team2Player1
    case Team2Player2 => f.team2Player2
  }

  /** The non-empty values of the player inputs other than `current`. */
  function Taken(f: MatchFields, current: Slot): (r: seq<string>)
    ensures forall n :: n in r <==> n != "" && exists s :: s != current && SlotValue(f, s) == n
  {
    Filter(MapValues(f, Others(current)), (n: string) => n != "")
  }

  /** The player inputs other than `current`. */
  function Others(current: Slot): (r: seq<Slot>)
    ensures forall s :: s in r <==> s != current
  {
    AllSlotsListed();
    Filter(AllSlots, (s: Slot) => s != current)
  }

  const AllSlots := [Team1Player1, Team1Player2, Team2Player1, Team2Player2]

  lemma {:induction false} AllSlotsListed()
    ensures forall s: Slot :: s in AllSlots
  {
    forall s: Slot
      ensures s in AllSlots
    {
      match s {
        case Team1Player1 => assert AllSlots[0] == s;
        case Team1Player2 => assert AllSlots[1] == s;
        case Team2Player1 => assert AllSlots[2] == s;
        case Team2Player2 => assert AllSlots[3] == s;
      }
    }
  }

  function MapValues(f: MatchFields, slots: seq<Slot>): (r: seq<string>)
    ensures forall n :: n in r <==> exists s :: s in slots && SlotValue(f, s) == n
  {
    if slots == [] then [] else [SlotValue(f, slots[0])] + MapValues(f, slots[1..])
  }

  /** `getAvailablePlayersForSelect(current)`: the players, in their
      original order, whose name is not held by another player input. */
  function AvailablePlayers(players: seq<Player>, f: MatchFields, current: Slot): (r: seq<Player>)
    ensures forall p :: p in r <==>
      (p in players && forall s :: s != current && SlotValue(f, s) != "" ==> p.name != SlotValue(f, s))
    ensures |r| <= |players|
  {
    var taken := Taken(f, current);
    Filter(players, (p: Player) => p.name !in taken)
  }

  /** The name an input already holds stays offered by its own dropdown
      while no other input holds it. */
  lemma {:induction false} OwnChoiceStaysAvailable(players: seq<Player>, f: MatchFields, current: Slot, p: Player)
    requires p in players && p.name == SlotValue(f, current)
    requires forall s :: s != current ==> SlotValue(f, s) != p.name
    ensures p in AvailablePlayers(players, f, current)
  {
  }

  /** With no other input filled, every player is offered, in order. */
  lemma {:induction false} NothingTakenOffersAll(players: seq<Player>, f: MatchFields, current: Slot)
    requires forall s :: s != current ==> SlotValue(f, s) == ""
    ensures AvailablePlayers(players, f, current) == players
  {
    var taken := Taken(f, current);
    FilterKeepsAll(players, (p: Player) => p.name !in taken);
  }

  // ---------------------------------------------------------------------------
  // Submitting, loading and prefilling
  // ---------------------------------------------------------------------------

  /** The object passed to `Match.create` / `Match.update`: the fields with
      both scores through `parseInt`. */
  function Submitted(f: MatchFields): (d: MatchInput)
    requires ValidScore(f.team1Score) && ValidScore(f.team2Score)
    ensures d.team1Score == ParseInt(f.team1Score).value >= 0
    ensures d.team2Score == ParseInt(f.team2Score).value >= 0
    ensures [d.team1Player1, d.team1Player2, d.team2Player1, d.team2Player2] ==
      [f.team1Player1, f.team1Player2, f.team2Player1, f.team2Player2]
    ensures d.matchDate == f.matchDate
  {
    MatchInput(f.team1Player1, f.team1Player2, f.team2Player1, f.team2Player2,
      ParseInt(f.team1Score).value, ParseInt(f.team2Score).value, f.matchDate)
  }

  /** The empty form: every field blank, the date today. */
  function Blank(today: string): (f: MatchFields)
    ensures !AllSelected(f) && f.team1Score == "" && f.team2Score == "" && f.matchDate == today
  {
    MatchFields("", "", "", "", "", "", today)
  }

  /** The season chosen when the page loads: the active season's id, only
      when none is selected yet. */
  function DefaultSeason(form: AddForm, activeId: Option<nat>): (r: AddForm)
    ensures r.fields == form.fields
    ensures form.seasonId != "" || activeId.None? ==> r == form
    ensures form.seasonId == "" && activeId.Some? ==> ParseInt(r.seasonId) == Some(activeId.value as int)
  {
    if activeId.Some? && form.seasonId == "" then
      ParseIntOfIntToString(activeId.value);
      form.(seasonId := IntToString(activeId.value))
    else form
  }

  /** What the edit dialog shows for a stored match: scores as decimal
      text, the other fields copied. */
  function Prefill(m: Match): (f: MatchFields)
    ensures [f.team1Player1, f.team1Player2, f.team2Player1, f.team2Player2] == Slots(m)
    ensures ParseInt(f.team1Score) == Some(m.team1Score) && ParseInt(f.team2Score) == Some(m.team2Score)
    ensures f.matchDate == m.matchDate
  {
    ParseIntOfIntToString(m.team1Score);
    ParseIntOfIntToString(m.team2Score);
    MatchFields(m.team1Player1, m.team1Player2, m.team2Player1, m.team2Player2,
      IntToString(m.team1Score), IntToString(m.team2Score), m.matchDate)
  }

  /** A well-formed stored match passes the edit check unchanged, and
      saving it writes back the same players, scores and date. */
  lemma {:induction false} PrefillRevalidates(m: Match)
    requires forall i :: 0 <= i < 4 ==> Slots(m)[i] != ""
    requires forall i, j :: 0 <= i < j < 4 ==> Slots(m)[i] != Slots(m)[j]
    requires m.team1Score >= 0 && m.team2Score >= 0
    ensures ValidateEdit(Prefill(m)).None?
    ensures Submitted(Prefill(m)) ==
      MatchInput(m.team1Player1, m.team1Player2, m.team2Player1, m.team2Player2,
                 m.team1Score, m.team2Score, m.matchDate)
  {
    var f := Prefill(m);
    assert Slots(m)[0] != Slots(m)[1] && Slots(m)[0] != Slots(m)[2] && Slots(m)[0] != Slots(m)[3];
    assert Slots(m)[1] != Slots(m)[2] && Slots(m)[1] != Slots(m)[3] && Slots(m)[2] != Slots(m)[3];
  }

  /** The add page's form state. */
  class AddMatchPage {
    var form: AddForm
    var error: string
    var success: string

    constructor (today: string)
      ensures form == AddForm(Blank(today), "") && error == "" && success == ""
    {
      form := AddForm(Blank(today), "");
      error := "";
      success := "";
    }

    /** `loadData`'s default season. */
    method Load(activeId: Option<nat>)
      modifies this
      ensures form == DefaultSeason(old(form), activeId)
      ensures error == old(error) && success == old(success)
    {
      form := DefaultSeason(form, activeId);
    }

    /** `handleSubmit`: an invalid form shows its message and never reaches
        the store; a valid one is created with integer scores, then every
        field is reset except the season. */
    method Submit(store: MatchStore, newId: string, now: string, today: string, toTime: string -> int)
      returns (created: Option<Match>)
      modifies this, store
      ensures ValidateAdd(old(form)).Some? ==>
        created.None? && error == ValidateAdd(old(form)).value && success == old(success) &&
        form == old(form) && store.stored == old(store.stored)
      ensures ValidateAdd(old(form)).None? ==>
        ValidScore(old(form).fields.team1Score) && ValidScore(old(form).fields.team2Score) &&
        created == Some(NewRecord(Submitted(old(form).fields), newId, now, today)) &&
        store.stored == Items(NewestFirst(ReadItems(old(store.stored)), toTime) + [created.value]) &&
        form == AddForm(Blank(today), old(form).seasonId) &&
        error == "" && success == MsgRecorded
    {
      var validation := ValidateAdd(form);
      if validation.Some? {
        error := validation.value;
        return None;
      }
      error := "";
      var m := store.Create(Submitted(form.fields), newId, now, today, toTime);
      success := MsgRecorded;
      form := AddForm(Blank(today), form.seasonId);
      created := Some(m);
    }
  }

  /** The edit dialog's state. */
  class EditMatchDialog {
    const matchId: string
    var fields: MatchFields
    var error: string

    /** Opening the dialog on a match copies its fields. */
    constructor (m: Match)
      ensures matchId == m.id && fields == Prefill(m) && error == ""
    {
      matchId := m.id;
      fields := Prefill(m);
      error := "";
    }

    /** `handleSave`: an invalid form shows its message and updates
        nothing; a valid one goes to `Match.update` with integer scores, and
        a failed update shows the failure message. */
    method Save(store: MatchStore, now: string, toTime: string -> int) returns (saved: Option<Match>)
      modifies this, store
      ensures fields == old(fields)
      ensures ValidateEdit(fields).Some? ==>
        saved.None? && error == ValidateEdit(fields).value && store.stored == old(store.stored)
      ensures ValidateEdit(fields).None? ==>
        var ms := NewestFirst(ReadItems(old(store.stored)), toTime);
        match FirstIndex(ms, matchId)
        case None => saved.None? && error == ErrUpdateFailed && store.stored == old(store.stored)
        case Some(k) =>
          saved == Some(Updated(ms[k], Submitted(fields), now)) && error == "" &&
          store.stored == Items(ms[k := saved.value])
    {
      var validation := ValidateEdit(fields);
      if validation.Some? {
        error := validation.value;
        return None;
      }
      error := "";
      var r := store.Update(matchId, Submitted(fields), now, toTime);
      if r.Err? {
        error := ErrUpdateFailed;
        return None;
      }
      saved := Some(r.value);
    }
  }
}
