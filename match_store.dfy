/** The local match store (src/entities/Match.js): the array kept under the
    'fifa-matches' key, re-read, re-sorted and written back by every
    operation. */
module MatchStore {
  import opened Wrappers
  import opened Records
  import opened Sorting
  import opened Lists

  /** The fields `create` and `update` copy from their argument; anything
      else the caller passes (a `seasonId`, say) is not stored. */
  datatype MatchInput = MatchInput(
    team1Player1: string, team1Player2: string,
    team2Player1: string, team2Player2: string,
    team1Score: int, team2Score: int, matchDate: string)

  /** Newest `created_date` first; equal dates keep their stored order. */
  function NewestFirst(ms: seq<Match>, toTime: string -> int): (r: seq<Match>)
    ensures multiset(r) == multiset(ms) && |r| == |ms|
  {
    SortBy(ms, KeyDesc((m: Match) => toTime(m.createdDate)))
  }

  lemma {:induction false} NewestFirstSorted(ms: seq<Match>, toTime: string -> int)
    ensures forall i, j :: 0 <= i < j < |ms| ==>
      toTime(NewestFirst(ms, toTime)[i].createdDate) >= toTime(NewestFirst(ms, toTime)[j].createdDate)
  {
    var key := (m: Match) => toTime(m.createdDate);
    KeyDescOrder(key);
    SortBySorted(ms, KeyDesc(key));
  }

  /** The array after `Match.create` has written each of `records` in
      turn: every write re-sorts newest first and appends its record. */
  function AfterCreates(items: seq<Match>, records: seq<Match>, toTime: string -> int): (r: seq<Match>)
    ensures multiset(r) == multiset(items) + multiset(records)
    ensures records != [] ==> |r| > 0 && r[|r| - 1] == records[|records| - 1]
    decreases |records|
  {
    if records == [] then items
    else
      var front := AfterCreates(items, records[..|records| - 1], toTime);
      assert records == records[..|records| - 1] + [records[|records| - 1]];
      NewestFirst(front, toTime) + [records[|records| - 1]]
  }

  /** Writing `a` and then `b` is writing `a + b`. */
  lemma {:induction false} AfterCreatesAppend(items: seq<Match>, a: seq<Match>, b: seq<Match>, toTime: string -> int)
    ensures AfterCreates(AfterCreates(items, a, toTime), b, toTime) == AfterCreates(items, a + b, toTime)
    decreases |b|
  {
    if b != [] {
      var n := |b| - 1;
      assert (a + b)[..|a + b| - 1] == a + b[..n];
      assert (a + b)[|a + b| - 1] == b[n];
      AfterCreatesAppend(items, a, b[..n], toTime);
    } else {
      assert a + b == a;
    }
  }

  /** `slice(0, limit)`: a negative limit counts from the end. */
  function Take<T>(s: seq<T>, limit: int): (r: seq<T>)
    ensures limit >= 0 ==> r == s[..if limit < |s| then limit else |s|]
    ensures limit < 0 ==> r == s[..if |s| + limit > 0 then |s| + limit else 0]
  {
    if limit >= 0 then s[..if limit < |s| then limit else |s|]
    else s[..if |s| + limit > 0 then |s| + limit else 0]
  }

  /** `Match.list(sort, limit)`: sorted newest first only for the key
      '-created_date' (the default), then cut to `limit` when the limit is
      a non-zero number. */
  function List(stored: Stored<Match>, sort: string, limit: Option<int>, toTime: string -> int): (r: seq<Match>)
    ensures sort != "-created_date" && (limit.None? || limit.value == 0) ==> r == ReadItems(stored)
    ensures sort == "-created_date" && (limit.None? || limit.value == 0) ==> r == NewestFirst(ReadItems(stored), toTime)
    ensures limit.Some? && limit.value > 0 ==> |r| == if limit.value < |ReadItems(stored)| then limit.value else |ReadItems(stored)|
    ensures limit.Some? && limit.value < 0 ==> |r| == if |ReadItems(stored)| + limit.value > 0 then |ReadItems(stored)| + limit.value else 0
    ensures var ordered := if sort == "-created_date" then NewestFirst(ReadItems(stored), toTime) else ReadItems(stored);
      |r| <= |ordered| && r == ordered[..|r|] &&
      (limit.Some? && limit.value != 0 ==> r == Take(ordered, limit.value))
  {
    var ms := ReadItems(stored);
    var sorted := if sort == "-created_date" then NewestFirst(ms, toTime) else ms;
    if limit.Some? && limit.value != 0 then Take(sorted, limit.value) else sorted
  }

  /** Index of the first record with the id, if any (`findIndex`). */
  function FirstIndex(ms: seq<Match>, id: string): (r: Option<nat>)
    ensures r.None? <==> forall i :: 0 <= i < |ms| ==> ms[i].id != id
    ensures r.Some? ==> r.value < |ms| && ms[r.value].id == id
    ensures r.Some? ==> forall i :: 0 <= i < r.value ==> ms[i].id != id
  {
    if ms == [] then None
    else if ms[0].id == id then Some(0)
    else
      var rest := FirstIndex(ms[1..], id);
      if rest.Some? then Some(rest.value + 1) else None
  }

  /** The record `create` builds: the four names and both scores copied,
      the date defaulting to today. */
  function NewRecord(data: MatchInput, newId: string, now: string, today: string): (m: Match)
    ensures Slots(m) == [data.team1Player1, data.team1Player2, data.team2Player1, data.team2Player2]
    ensures m.team1Score == data.team1Score && m.team2Score == data.team2Score
    ensures m.matchDate == (if data.matchDate == "" then today else data.matchDate)
    ensures m.id == newId && m.createdDate == now && m.updatedDate.None?
  {
    Match(newId, data.team1Player1, data.team1Player2, data.team2Player1, data.team2Player2,
      data.team1Score, data.team2Score, if data.matchDate == "" then today else data.matchDate, now, None)
  }

  /** The record `update` writes: the old one with players, scores and date
      replaced and an update stamp; id and creation date kept. */
  function Updated(old_: Match, data: MatchInput, now: string): (m: Match)
    ensures m.id == old_.id && m.createdDate == old_.createdDate
    ensures Slots(m) == [data.team1Player1, data.team1Player2, data.team2Player1, data.team2Player2]
    ensures m.team1Score == data.team1Score && m.team2Score == data.team2Score
    ensures m.matchDate == data.matchDate && m.updatedDate == Some(now)
  {
    old_.(team1Player1 := data.team1Player1, team1Player2 := data.team1Player2,
          team2Player1 := data.team2Player1, team2Player2 := data.team2Player2,
          team1Score := data.team1Score, team2Score := data.team2Score,
          matchDate := data.matchDate, updatedDate := Some(now))
  }

  class MatchStore {
    /** The value under 'fifa-matches'. */
    var stored: Stored<Match>

    constructor (initial: Stored<Match>)
      ensures stored == initial
    {
      stored := initial;
    }

    /** `Match.create`: the list re-sorted newest first, plus the new
        record at the end; the whole array is written back. */
    method Create(data: MatchInput, newId: string, now: string, today: string, toTime: string -> int)
      returns (created: Match)
      modifies this
      ensures created == NewRecord(data, newId, now, today)
      ensures stored == Items(NewestFirst(ReadItems(old(stored)), toTime) + [created])
      ensures |stored.items| == |ReadItems(old(stored))| + 1
    {
      var ms := List(stored, "-created_date", None, toTime);
      created := NewRecord(data, newId, now, today);
      ms := ms + [created];
      stored := Items(ms);
    }

    /** `Match.update`: 'Match not found' and no write for an unknown id;
        otherwise the first record with the id (in newest-first order) is
        overwritten in place and the re-sorted array written back. */
    method Update(id: string, data: MatchInput, now: string, toTime: string -> int)
      returns (r: Result<Match, string>)
      modifies this
      ensures var ms := NewestFirst(ReadItems(old(stored)), toTime);
        match FirstIndex(ms, id)
        case None => r == Err("Match not found") && stored == old(stored)
        case Some(k) =>
          r == Ok(Updated(ms[k], data, now)) &&
          stored == Items(ms[k := Updated(ms[k], data, now)])
    {
      var ms := List(stored, "-created_date", None, toTime);
      var index := FirstIndex(ms, id);
      if index.None? {
        return Err("Match not found");
      }
      var updated := Updated(ms[index.value], data, now);
      ms := ms[index.value := updated];
      stored := Items(ms);
      r := Ok(updated);
    }

    /** `Match.delete`: every record with the id removed, the rest kept in
        newest-first order; 'Match not found' and no write when nothing was
        removed. */
    method Delete(id: string, toTime: string -> int) returns (r: Result<bool, string>)
      modifies this
      ensures var ms := NewestFirst(ReadItems(old(stored)), toTime);
        if forall i :: 0 <= i < |ms| ==> ms[i].id != id
        then r == Err("Match not found") && stored == old(stored)
        else r == Ok(true) && stored == Items(Filter(ms, (m: Match) => m.id != id))
    {
      var ms := List(stored, "-created_date", None, toTime);
      var filtered := Filter(ms, (m: Match) => m.id != id);
      if |filtered| == |ms| {
        return Err("Match not found");
      }
      stored := Items(filtered);
      r := Ok(true);
    }

    /** `Match.findById`: the first record with the id in newest-first
        order, or null. */
    function FindById(id: string, toTime: string -> int): (r: Option<Match>)
      reads this
      ensures r.Some? ==> r.value.id == id && r.value in ReadItems(stored)
      ensures r.None? ==> forall m :: m in ReadItems(stored) ==> m.id != id
      ensures r.Some? ==> var ms := NewestFirst(ReadItems(stored), toTime);
        exists k :: 0 <= k < |ms| && ms[k] == r.value && forall i :: 0 <= i < k ==> ms[i].id != id
    {
      var ms := NewestFirst(ReadItems(stored), toTime);
      var k := FirstIndex(ms, id);
      assert forall m :: m in ms <==> m in multiset(ReadItems(stored));
      assert k.None? ==> forall m :: m in ms ==> m.id != id;
      if k.Some? then
        assert ms[k.value] in ms;
        Some(ms[k.value])
      else None
    }
  }

  /** Deleting leaves no record with the id and keeps every other one. */
  lemma {:induction false} DeleteSpec(ms: seq<Match>, id: string, toTime: string -> int)
    ensures forall m :: m in Filter(NewestFirst(ms, toTime), (m: Match) => m.id != id) <==> m in ms && m.id != id
  {
    var sorted := NewestFirst(ms, toTime);
    assert forall m :: m in sorted <==> m in multiset(ms);
  }
}
