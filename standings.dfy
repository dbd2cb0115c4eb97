/** The standings engine of the rankings page (src/pages/Ranking.jsx):
    per-player counters folded over the match list, the success ratio, the
    leaderboard order and the headline counts. */
module Standings {
  import opened Records
  import opened Wrappers
  import opened Sorting
  import opened Lists
  import opened ObjectKeys

  /** Points of both teams of a match: 3/0 for a decisive result, 1/1 for
      a draw. */
  function MatchPoints(m: Match): (p: (nat, nat))
    ensures m.team1Score > m.team2Score ==> p == (3, 0)
    ensures m.team2Score > m.team1Score ==> p == (0, 3)
    ensures m.team1Score == m.team2Score ==> p == (1, 1)
  {
    if m.team1Score > m.team2Score then (3, 0)
    else if m.team2Score > m.team1Score then (0, 3)
    else (1, 1)
  }

  /** Exactly one outcome holds; a decisive match hands out 3 points in
      all, a draw 2. */
  lemma {:induction false} PointsHandedOut(m: Match)
    ensures MatchPoints(m).0 + MatchPoints(m).1 == (if m.team1Score == m.team2Score then 2 else 3)
    ensures MatchPoints(m).0 == 3 || MatchPoints(m).1 == 3 || MatchPoints(m) == (1, 1)
  {
  }

  /** The counters of one standings row. */
  datatype Counters = Counters(
    played: nat, wins: nat, draws: nat, losses: nat,
    points: nat, maxPoints: nat)

  const Zero := Counters(0, 0, 0, 0, 0, 0)

  /** One match slot credited to a player whose team earned `pts`. */
  function Credit(c: Counters, pts: nat): Counters
  {
    Counters(
      c.played + 1,
      if pts == 3 then c.wins + 1 else c.wins,
      if pts != 3 && pts == 1 then c.draws + 1 else c.draws,
      if pts != 3 && pts != 1 then c.losses + 1 else c.losses,
      c.points + pts,
      c.maxPoints + 3)
  }

  /** The counters of `name` after one more match: each of the four slots
      holding the name credits it once, with its team's points. */
  function AfterMatch(c: Counters, name: string, m: Match): Counters
  {
    var p := MatchPoints(m);
    Slot(Slot(Slot(Slot(c, name, m.team1Player1, p.0), name, m.team1Player2, p.0), name, m.team2Player1, p.1),
         name, m.team2Player2, p.1)
  }

  /** One slot of a match: credits `name` when the slot holds it. */
  function Slot(c: Counters, name: string, player: string, pts: nat): Counters
  {
    if player == name then Credit(c, pts) else c
  }

  /** The counters of `name` over a match list, in list order. */
  function Tally(name: string, ms: seq<Match>): Counters
  {
    if ms == [] then Zero else AfterMatch(Tally(name, ms[..|ms| - 1]), name, ms[|ms| - 1])
  }

  /** Number of slots holding `name`, four slots per match. */
  function SlotCount(name: string, ms: seq<Match>): nat
  {
    if ms == [] then 0
    else
      var m := ms[|ms| - 1];
      SlotCount(name, ms[..|ms| - 1])
        + (if m.team1Player1 == name then 1 else 0) + (if m.team1Player2 == name then 1 else 0)
        + (if m.team2Player1 == name then 1 else 0) + (if m.team2Player2 == name then 1 else 0)
  }

  /** The counters agree with each other: every appearance is exactly one
      of a win, a draw or a loss, points are 3 per win and 1 per draw, and
      the maximum is 3 per appearance. */
  ghost predicate Balanced(c: Counters)
  {
    c.wins + c.draws + c.losses == c.played &&
    c.points == 3 * c.wins + c.draws &&
    c.maxPoints == 3 * c.played
  }

  lemma {:induction false} CreditBalanced(c: Counters, pts: nat)
    requires Balanced(c) && (pts == 0 || pts == 1 || pts == 3)
    ensures Balanced(Credit(c, pts)) && Credit(c, pts).played == c.played + 1
  {
  }

  lemma {:induction false} SlotBalanced(c: Counters, name: string, player: string, pts: nat)
    requires Balanced(c) && (pts == 0 || pts == 1 || pts == 3)
    ensures Balanced(Slot(c, name, player, pts))
    ensures Slot(c, name, player, pts).played == c.played + if player == name then 1 else 0
  {
    if player == name {
      CreditBalanced(c, pts);
    }
  }

  lemma {:induction false} AfterMatchBalanced(c: Counters, name: string, m: Match)
    requires Balanced(c)
    ensures Balanced(AfterMatch(c, name, m))
    ensures AfterMatch(c, name, m).played == c.played
      + (if m.team1Player1 == name then 1 else 0) + (if m.team1Player2 == name then 1 else 0)
      + (if m.team2Player1 == name then 1 else 0) + (if m.team2Player2 == name then 1 else 0)
  {
    var p := MatchPoints(m);
    var c1 := Slot(c, name, m.team1Player1, p.0);
    var c2 := Slot(c1, name, m.team1Player2, p.0);
    var c3 := Slot(c2, name, m.team2Player1, p.1);
    SlotBalanced(c, name, m.team1Player1, p.0);
    SlotBalanced(c1, name, m.team1Player2, p.0);
    SlotBalanced(c2, name, m.team2Player1, p.1);
    SlotBalanced(c3, name, m.team2Player2, p.1);
  }

  /** Every tally is balanced, and a name's appearances are the slots
      holding it, four slots per match. */
  lemma {:induction false} TallyBalanced(name: string, ms: seq<Match>)
    ensures Balanced(Tally(name, ms))
    ensures Tally(name, ms).played == SlotCount(name, ms)
  {
    if ms != [] {
      TallyBalanced(name, ms[..|ms| - 1]);
      AfterMatchBalanced(Tally(name, ms[..|ms| - 1]), name, ms[|ms| - 1]);
    }
  }

  /** Success ratio in percent, exact: points over the maximum, times 100;
      0 for a player without matches. */
  function SuccessRatio(c: Counters): (r: real)
    ensures c.maxPoints == 0 ==> r == 0.0
    ensures c.maxPoints > 0 ==> r * c.maxPoints as real == 100.0 * c.points as real
  {
    if c.maxPoints > 0 then (c.points as real / c.maxPoints as real) * 100.0 else 0.0
  }

  lemma {:induction false} RatioAtMostHundred(p: real, m: real, r: real)
    requires 0.0 <= p <= m && m > 0.0 && r * m == 100.0 * p
    ensures 0.0 <= r <= 100.0
  {
  }

  /** Every tallied ratio lies between 0 and 100. */
  lemma {:induction false} SuccessInRange(name: string, ms: seq<Match>)
    ensures 0.0 <= SuccessRatio(Tally(name, ms)) <= 100.0
  {
    TallyBalanced(name, ms);
    BalancedRatioInRange(Tally(name, ms));
  }

  lemma {:induction false} BalancedRatioInRange(c: Counters)
    requires Balanced(c)
    ensures 0.0 <= SuccessRatio(c) <= 100.0
  {
    if c.maxPoints > 0 {
      assert c.points <= c.maxPoints;
      RatioAtMostHundred(c.points as real, c.maxPoints as real, SuccessRatio(c));
    }
  }

  /** A standings row: the player record, its counters and its ratio. */
  datatype StatRow = StatRow(player: Player, stats: Counters, success: real)

  /** The distinct player names, in the order they first appear. */
  function DistinctNames(ps: seq<Player>): (r: seq<string>)
    ensures forall n :: n in r <==> exists p :: p in ps && p.name == n
    ensures forall i, j :: 0 <= i < j < |r| ==> r[i] != r[j]
  {
    if ps == [] then []
    else
      var d := DistinctNames(ps[..|ps| - 1]);
      var last := ps[|ps| - 1];
      assert forall p :: p in ps <==> p in ps[..|ps| - 1] || p == last;
      if last.name in d then d else d + [last.name]
  }

  /** The last player record carrying `name`, which the row keyed by that
      name ends up holding. */
  function Latest(ps: seq<Player>, name: string): (r: Option<Player>)
    ensures r.Some? <==> exists p :: p in ps && p.name == name
    ensures r.Some? ==> r.value in ps && r.value.name == name
  {
    if ps == [] then None
    else
      var last := ps[|ps| - 1];
      assert forall p :: p in ps <==> p in ps[..|ps| - 1] || p == last;
      if last.name == name then Some(last) else Latest(ps[..|ps| - 1], name)
  }

  /** Credits one match slot to the row keyed by `name`, if there is one. */
  function CreditSlot(rows: map<string, StatRow>, name: string, pts: nat): (r: map<string, StatRow>)
    ensures r.Keys == rows.Keys
  {
    if name in rows then rows[name := rows[name].(stats := Credit(rows[name].stats, pts))] else rows
  }

  /** The four slots of one match credited in turn (the two `forEach`
      loops over the teams). */
  function CreditMatch(rows: map<string, StatRow>, m: Match): map<string, StatRow>
  {
    var p := MatchPoints(m);
    CreditSlot(CreditSlot(CreditSlot(CreditSlot(rows, m.team1Player1, p.0), m.team1Player2, p.0),
      m.team2Player1, p.1), m.team2Player2, p.1)
  }

  lemma {:induction false} CreditSlotAt(rows: map<string, StatRow>, name: string, pts: nat, n: string)
    requires n in rows
    ensures n in CreditSlot(rows, name, pts)
    ensures CreditSlot(rows, name, pts)[n] == rows[n].(stats := Slot(rows[n].stats, n, name, pts))
  {
  }

  lemma {:induction false} CreditMatchAt(rows: map<string, StatRow>, m: Match, n: string)
    requires n in rows
    ensures n in CreditMatch(rows, m)
    ensures CreditMatch(rows, m)[n] == rows[n].(stats := AfterMatch(rows[n].stats, n, m))
  {
    var p := MatchPoints(m);
    var r1 := CreditSlot(rows, m.team1Player1, p.0);
    var r2 := CreditSlot(r1, m.team1Player2, p.0);
    var r3 := CreditSlot(r2, m.team2Player1, p.1);
    CreditSlotAt(rows, m.team1Player1, p.0, n);
    CreditSlotAt(r1, m.team1Player2, p.0, n);
    CreditSlotAt(r2, m.team2Player1, p.1, n);
    CreditSlotAt(r3, m.team2Player2, p.1, n);
  }

  /** The first `forEach`: a zeroed row per player, keyed by name. `names`
      lists the keys in the order they were created; a later player with
      the same name replaces the row but creates no key. The order in which
      the keys are listed again is RowsInOrder's. */
  method InitRows(players: seq<Player>) returns (names: seq<string>, rows: map<string, StatRow>)
    ensures names == DistinctNames(players)
    ensures forall n :: n in rows <==> n in names
    ensures forall n :: n in rows ==> Latest(players, n) == Some(rows[n].player)
    ensures forall n :: n in rows ==> rows[n].stats == Zero && rows[n].success == 0.0
  {
    names, rows := [], map[];
    for i := 0 to |players|
      invariant names == DistinctNames(players[..i])
      invariant forall n :: n in rows <==> n in names
      invariant forall n :: n in rows ==>
        Latest(players[..i], n) == Some(rows[n].player) && rows[n].stats == Zero && rows[n].success == 0.0
    {
      var p := players[i];
      assert players[..i + 1][..i] == players[..i];
      if p.name !in rows {
        names := names + [p.name];
      }
      rows := rows[p.name := StatRow(p, Zero, 0.0)];
    }
    assert players[..|players|] == players;
  }

  /** The second `forEach`: every match credits the rows of its players. */
  method ApplyMatches(rows0: map<string, StatRow>, matches: seq<Match>) returns (rows: map<string, StatRow>)
    requires forall n :: n in rows0 ==> rows0[n].stats == Zero
    ensures rows.Keys == rows0.Keys
    ensures forall n :: n in rows ==>
      rows[n] == rows0[n].(stats := Tally(n, matches))
  {
    rows := rows0;
    for j := 0 to |matches|
      invariant rows.Keys == rows0.Keys
      invariant forall n :: n in rows ==> rows[n] == rows0[n].(stats := Tally(n, matches[..j]))
    {
      var m := matches[j];
      var pts := MatchPoints(m);
      ghost var before := rows;
      rows := CreditSlot(rows, m.team1Player1, pts.0);
      rows := CreditSlot(rows, m.team1Player2, pts.0);
      rows := CreditSlot(rows, m.team2Player1, pts.1);
      rows := CreditSlot(rows, m.team2Player2, pts.1);
      assert rows == CreditMatch(before, m);
      assert matches[..j + 1][..j] == matches[..j];
      forall n | n in rows
        ensures rows[n] == rows0[n].(stats := Tally(n, matches[..j + 1]))
      {
        CreditMatchAt(before, m, n);
      }
    }
    assert matches[..|matches|] == matches;
  }

  /** The last loop: the ratio of every row with a positive maximum. */
  method FillSuccess(names: seq<string>, rows0: map<string, StatRow>) returns (rows: map<string, StatRow>)
    requires forall i, j :: 0 <= i < j < |names| ==> names[i] != names[j]
    requires forall n :: n in rows0 <==> n in names
    requires forall n :: n in rows0 ==> rows0[n].success == 0.0
    ensures rows.Keys == rows0.Keys
    ensures forall n :: n in rows ==>
      rows[n] == rows0[n].(success := SuccessRatio(rows0[n].stats))
  {
    rows := rows0;
    for k := 0 to |names|
      invariant rows.Keys == rows0.Keys
      invariant forall n :: n in rows ==>
        rows[n] == rows0[n].(success := if n in names[..k] then SuccessRatio(rows0[n].stats) else 0.0)
    {
      var n := names[k];
      var r := rows[n];
      assert n !in names[..k];
      if r.stats.maxPoints > 0 {
        rows := rows[n := r.(success := (r.stats.points as real / r.stats.maxPoints as real) * 100.0)];
      }
      assert names[..k + 1] == names[..k] + [n];
    }
    assert names[..|names|] == names;
  }

  /** `calculateStats`: one row per distinct player name, counters folded
      over every match, and the success ratio filled in last. Match slots
      naming unknown players are ignored. `names` is the order in which the
      keys were created; `Object.values` lists them as RowsInOrder says. */
  method CalculateStats(players: seq<Player>, matches: seq<Match>)
    returns (names: seq<string>, rows: map<string, StatRow>)
    ensures names == DistinctNames(players)
    ensures forall n :: n in rows <==> n in names
    ensures forall n :: n in rows ==>
      Latest(players, n) == Some(rows[n].player) &&
      rows[n].stats == Tally(n, matches) &&
      rows[n].success == SuccessRatio(rows[n].stats)
  {
    var zeroed;
    names, zeroed := InitRows(players);
    var counted := ApplyMatches(zeroed, matches);
    rows := FillSuccess(names, counted);
  }

  /** `Object.values(stats)`: one row per key, in the order JavaScript
      lists an object's keys (ObjectKeys.OwnKeys): names that are array
      indices, such as "1" or "42", first and in ascending numeric order,
      then the other names in the order their rows were created. */
  function RowsInOrder(names: seq<string>, rows: map<string, StatRow>): (r: seq<StatRow>)
    requires forall n :: n in names ==> n in rows
    ensures |r| == |names| == |OwnKeys(names)| && forall n :: n in OwnKeys(names) ==> n in rows
    ensures forall i :: 0 <= i < |r| ==> r[i] == rows[OwnKeys(names)[i]]
    ensures forall n :: n in names ==> rows[n] in r
  {
    OwnKeysPermutation(names);
    var keys := OwnKeys(names);
    var r := seq(|keys|, i requires 0 <= i < |keys| => rows[keys[i]]);
    assert forall i :: 0 <= i < |keys| ==> r[i] == rows[keys[i]];
    r
  }

  /** With players "b" and then "1", `Object.values` lists the row of "1"
      first. */
  lemma {:induction false} IndexNameListedFirst(rows: map<string, StatRow>)
    requires "b" in rows && "1" in rows
    ensures RowsInOrder(["b", "1"], rows) == [rows["1"], rows["b"]]
  {
    IndexKeyListedFirst();
  }

  /** The rows of players with at least one match, in their order. */
  function ActiveRows(rows: seq<StatRow>): (r: seq<StatRow>)
    ensures forall x :: x in r <==> x in rows && x.stats.played > 0
    ensures |r| <= |rows|
  {
    if rows == [] then []
    else
      var rest := ActiveRows(rows[1..]);
      assert forall x :: x in rows <==> x == rows[0] || x in rows[1..];
      if rows[0].stats.played > 0 then [rows[0]] + rest else rest
  }

  /** The leaderboard comparator: higher ratio first, then more points. */
  predicate RankBefore(a: StatRow, b: StatRow)
  {
    a.success > b.success || (a.success == b.success && a.stats.points > b.stats.points)
  }

  lemma {:induction false} RankBeforeOrder()
    ensures StrictWeakOrder(RankBefore)
  {
  }

  /** `getSortedPlayers`: the active rows sorted by the comparator. */
  function Leaderboard(rows: seq<StatRow>): seq<StatRow>
  {
    SortBy(ActiveRows(rows), RankBefore)
  }

  /** The leaderboard holds exactly the rows with matches played, each as
      often as in the input, ordered by ratio descending with ties broken
      by points descending. */
  lemma {:induction false} LeaderboardSpec(rows: seq<StatRow>)
    ensures multiset(Leaderboard(rows)) == multiset(ActiveRows(rows))
    ensures forall x :: x in Leaderboard(rows) <==> x in rows && x.stats.played > 0
    ensures forall i, j :: 0 <= i < j < |Leaderboard(rows)| ==>
      var a, b := Leaderboard(rows)[i], Leaderboard(rows)[j];
      a.success > b.success || (a.success == b.success && a.stats.points >= b.stats.points)
  {
    var act := ActiveRows(rows);
    RankBeforeOrder();
    SortBySorted(act, RankBefore);
    forall x ensures x in Leaderboard(rows) <==> x in act {
      SortByMembers(act, RankBefore, x);
    }
  }

  /** Rows the comparator cannot separate keep the order in which
      `Object.values` listed them, so names that are array indices lead
      among tied rows. */
  lemma {:induction false} LeaderboardTies(rows: seq<StatRow>, same: StatRow -> bool)
    requires forall a, b :: same(a) && same(b) ==> !RankBefore(a, b)
    ensures Filter(Leaderboard(rows), same) == Filter(ActiveRows(rows), same)
  {
    SortByStable(ActiveRows(rows), RankBefore, same);
  }

  /** `getOverallStats` without the average: players with matches and the
      number of matches. */
  function OverallCounts(rows: seq<StatRow>, matches: seq<Match>): (r: (nat, nat))
    ensures r.0 == |Leaderboard(rows)| && r.0 <= |rows|
    ensures r.1 == |matches|
  {
    (|ActiveRows(rows)|, |matches|)
  }
}
