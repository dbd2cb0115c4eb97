/** The match history page (src/pages/Matches.jsx): search, result
    filter and sort of the loaded matches, the summary counts and the
    season selector. */
module MatchList {
  import opened Wrappers
  import opened Text
  import opened Records
  import opened Lists
  import opened Sorting
  import opened LeagueTable

  /** The search keeps a match when the lower-cased term occurs in one of
      its four lower-cased player names. */
  predicate SearchHit(m: Match, term: string)
  {
    var t := Lower(term);
    Contains(Lower(m.team1Player1), t) || Contains(Lower(m.team1Player2), t) ||
    Contains(Lower(m.team2Player1), t) || Contains(Lower(m.team2Player2), t)
  }

  /** The result filter: team 1 won, team 2 won, a draw, or anything for
      "all" and unknown values. */
  predicate ResultHit(m: Match, filterBy: string)
  {
    if filterBy == "wins_team1" then m.team1Score > m.team2Score
    else if filterBy == "wins_team2" then m.team2Score > m.team1Score
    else if filterBy == "draws" then m.team1Score == m.team2Score
    else true
  }

  /** The comparator of the sort: by creation or match date, newest or
      oldest first; an unknown key compares everything equal. */
  function SortOrder(sortBy: string, toTime: string -> int): (Match, Match) -> bool
  {
    if sortBy == "-created_date" then KeyDesc((m: Match) => toTime(m.createdDate))
    else if sortBy == "created_date" then KeyAsc((m: Match) => toTime(m.createdDate))
    else if sortBy == "-match_date" then KeyDesc((m: Match) => toTime(m.matchDate))
    else if sortBy == "match_date" then KeyAsc((m: Match) => toTime(m.matchDate))
    else (a: Match, b: Match) => false
  }

  lemma {:induction false} SortOrderIsStrictWeak(sortBy: string, toTime: string -> int)
    ensures StrictWeakOrder(SortOrder(sortBy, toTime))
  {
    KeyDescOrder((m: Match) => toTime(m.createdDate));
    KeyAscOrder((m: Match) => toTime(m.createdDate));
    KeyDescOrder((m: Match) => toTime(m.matchDate));
    KeyAscOrder((m: Match) => toTime(m.matchDate));
  }

  const SortKeys: set<string> := {"-created_date", "created_date", "-match_date", "match_date"}

  /** The matches the search and result filter keep, in their original
      order. */
  function Kept(matches: seq<Match>, term: string, filterBy: string): (r: seq<Match>)
    ensures forall m :: m in r <==>
      m in matches && (term == "" || SearchHit(m, term)) && ResultHit(m, filterBy)
  {
    Filter(Filter(matches, (m: Match) => term == "" || SearchHit(m, term)), (m: Match) => ResultHit(m, filterBy))
  }

  /** The two filter steps of `filterAndSortMatches`, each applied only
      when its input is set. */
  method Narrow(matches: seq<Match>, term: string, filterBy: string) returns (filtered: seq<Match>)
    ensures filtered == Kept(matches, term, filterBy)
  {
    filtered := matches;
    if term != "" {
      filtered := Filter(filtered, (m: Match) => SearchHit(m, term));
    }
    SameFilter(matches, (m: Match) => SearchHit(m, term), (m: Match) => term == "" || SearchHit(m, term), term != "");
    ghost var first := filtered;
    if filterBy != "all" {
      filtered := Filter(filtered, (m: Match) => ResultHit(m, filterBy));
    }
    SameFilter(first, (m: Match) => ResultHit(m, filterBy), (m: Match) => ResultHit(m, filterBy), filterBy != "all");
  }

  /** `filterAndSortMatches`: the search (only for a non-empty term), then
      the result filter (skipped for "all"), then the sort: a permutation
      of the kept matches ordered by the chosen date, and the kept matches
      unchanged for an unknown key. */
  method FilterAndSort(matches: seq<Match>, term: string, filterBy: string, sortBy: string, toTime: string -> int)
    returns (shown: seq<Match>)
    ensures forall m :: m in shown <==>
      m in matches && (term == "" || SearchHit(m, term)) && ResultHit(m, filterBy)
    ensures multiset(shown) == multiset(Kept(matches, term, filterBy))
    ensures Sorted(shown, SortOrder(sortBy, toTime))
    ensures sortBy !in SortKeys ==> shown == Kept(matches, term, filterBy)
    // ties keep their order: matches the comparator does not separate stay as they were kept
    ensures forall same: Match -> bool ::
      (forall a, b :: same(a) && same(b) ==> !SortOrder(sortBy, toTime)(a, b)) ==>
        Filter(shown, same) == Filter(Kept(matches, term, filterBy), same)
  {
    var filtered := Narrow(matches, term, filterBy);
    var order := SortOrder(sortBy, toTime);
    shown := SortBy(filtered, order);
    SortOrderIsStrictWeak(sortBy, toTime);
    SortBySorted(filtered, order);
    if sortBy !in SortKeys {
      SortByNeverBefore(filtered, order);
    }
    forall m ensures m in shown <==> m in filtered {
      SortByMembers(filtered, order, m);
    }
    forall same: Match -> bool | forall a, b :: same(a) && same(b) ==> !order(a, b)
      ensures Filter(shown, same) == Filter(filtered, same)
    {
      SortByStable(filtered, order, same);
    }
  }

  /** Skipping a filter step (`applied` false) gives the same list as
      filtering with a predicate that keeps everything then; applying it
      gives the same list as any predicate that agrees with it. */
  lemma {:induction false} SameFilter(s: seq<Match>, applied_: Match -> bool, spec: Match -> bool, applied: bool)
    requires applied ==> forall m :: spec(m) == applied_(m)
    requires !applied ==> forall m :: spec(m)
    ensures (if applied then Filter(s, applied_) else s) == Filter(s, spec)
  {
    if applied {
      FilterSame(s, applied_, spec);
    } else {
      FilterKeepsAll(s, spec);
    }
  }

  lemma {:induction false} FilterSame(s: seq<Match>, p: Match -> bool, q: Match -> bool)
    requires forall m :: p(m) == q(m)
    ensures Filter(s, p) == Filter(s, q)
  {
    if s != [] {
      FilterSame(s[1..], p, q);
    }
  }

  datatype MatchStats = MatchStats(totalMatches: nat, team1Wins: nat, team2Wins: nat, draws: nat)

  /** `getMatchStats`. */
  function GetMatchStats(matches: seq<Match>): (r: MatchStats)
    ensures r.totalMatches == |matches|
    ensures r.team1Wins + r.team2Wins + r.draws == r.totalMatches
    ensures r.team1Wins == |Filter(matches, (m: Match) => m.team1Score > m.team2Score)|
    ensures r.team2Wins == |Filter(matches, (m: Match) => m.team2Score > m.team1Score)|
    ensures r.draws == |Filter(matches, (m: Match) => m.team1Score == m.team2Score)|
  {
    OutcomesPartition(matches);
    MatchStats(|matches|,
      CountIf(matches, (m: Match) => m.team1Score > m.team2Score),
      CountIf(matches, (m: Match) => m.team2Score > m.team1Score),
      CountIf(matches, (m: Match) => m.team1Score == m.team2Score))
  }

  /** Every match is exactly one of a team-1 win, a team-2 win and a draw. */
  lemma {:induction false} OutcomesPartition(ms: seq<Match>)
    ensures CountIf(ms, (m: Match) => m.team1Score > m.team2Score) +
            CountIf(ms, (m: Match) => m.team2Score > m.team1Score) +
            CountIf(ms, (m: Match) => m.team1Score == m.team2Score) == |ms|
  {
    if ms != [] {
      OutcomesPartition(ms[1..]);
    }
  }

  /** `getSelectedSeasonName`: 'All Time' for "all", the name of the first
      season whose id prints as the selection, else 'Unknown Season'. */
  function SelectedSeasonName(selected: string, seasons: seq<LeagueRow>): (r: string)
    ensures selected == "all" ==> r == "All Time"
    ensures selected != "all" && (forall s :: s in seasons ==> IntToString(s.id) != selected) ==> r == "Unknown Season"
    ensures selected != "all" && r != "Unknown Season" ==>
      exists s :: s in seasons && IntToString(s.id) == selected && s.name == r
  {
    if selected == "all" then "All Time"
    else FirstNamed(selected, seasons)
  }

  function FirstNamed(selected: string, seasons: seq<LeagueRow>): (r: string)
    ensures (forall s :: s in seasons ==> IntToString(s.id) != selected) ==> r == "Unknown Season"
    ensures r != "Unknown Season" ==> exists s :: s in seasons && IntToString(s.id) == selected && s.name == r
  {
    if seasons == [] then "Unknown Season"
    else if IntToString(seasons[0].id) == selected then seasons[0].name
    else
      assert forall s :: s in seasons[1..] ==> s in seasons;
      FirstNamed(selected, seasons[1..])
  }

  /** The initial selection of `loadInitialData`: the id of the first
      active season, else "all". */
  function InitialSelection(seasons: seq<LeagueRow>): (r: string)
    ensures r == "all" <==> forall s :: s in seasons ==> !s.isActive
    ensures r != "all" ==> exists s :: s in seasons && s.isActive && ParseInt(r) == Some(s.id as int)
  {
    if seasons == [] then "all"
    else if seasons[0].isActive then
      ParseIntOfIntToString(seasons[0].id);
      assert IntToString(seasons[0].id) != "all" by {
        assert ParseInt("all").None?;
      }
      IntToString(seasons[0].id)
    else
      assert forall s :: s in seasons <==> s == seasons[0] || s in seasons[1..];
      InitialSelection(seasons[1..])
  }

  /** The name shown is that of the first season whose id prints as the
      selection. */
  lemma {:induction false} SelectedIsFirstNamed(selected: string, seasons: seq<LeagueRow>, i: nat)
    requires selected != "all" && i < |seasons| && IntToString(seasons[i].id) == selected
    requires forall j :: 0 <= j < i ==> IntToString(seasons[j].id) != selected
    ensures SelectedSeasonName(selected, seasons) == seasons[i].name
  {
    FirstNamedAt(selected, seasons, i);
  }

  lemma {:induction false} FirstNamedAt(selected: string, seasons: seq<LeagueRow>, i: nat)
    requires i < |seasons| && IntToString(seasons[i].id) == selected
    requires forall j :: 0 <= j < i ==> IntToString(seasons[j].id) != selected
    ensures FirstNamed(selected, seasons) == seasons[i].name
  {
    if i > 0 {
      assert IntToString(seasons[0].id) != selected;
      assert forall j :: 0 <= j < i - 1 ==> seasons[1..][j] == seasons[j + 1];
      FirstNamedAt(selected, seasons[1..], i - 1);
    }
  }

  /** The initial selection is the id of the first active season. */
  lemma {:induction false} InitialSelectionFirstActive(seasons: seq<LeagueRow>, i: nat)
    requires i < |seasons| && seasons[i].isActive
    requires forall j :: 0 <= j < i ==> !seasons[j].isActive
    ensures InitialSelection(seasons) == IntToString(seasons[i].id)
  {
    if i > 0 {
      assert !seasons[0].isActive;
      assert forall j :: 0 <= j < i - 1 ==> seasons[1..][j] == seasons[j + 1];
      InitialSelectionFirstActive(seasons[1..], i - 1);
    }
  }
}
