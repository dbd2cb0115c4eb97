/** The stored records the pages and entities pass around. Dates and
    timestamps stay strings (ISO text); where the source compares them
    through `new Date(..)`, the comparison takes a `toTime` function. */
module Records {
  import opened Wrappers

  /** A player as `Player.create` stores it: `{id, name, created_at}`. */
  datatype Player = Player(id: string, name: string, createdAt: string)

  /** A match as `Match.create` stores it; `updatedDate` is added by
      `Match.update`. */
  datatype Match = Match(
    id: string,
    team1Player1: string, team1Player2: string,
    team2Player1: string, team2Player2: string,
    team1Score: int, team2Score: int,
    matchDate: string, createdDate: string,
    updatedDate: Option<string>)

  /** The four player slots of a match, in field order. */
  function Slots(m: Match): seq<string>
  {
    [m.team1Player1, m.team1Player2, m.team2Player1, m.team2Player2]
  }

  /** What a storage key holds: nothing, text that does not parse as JSON,
      or an array. */
  datatype Stored<T> = Missing | Unreadable | Items(items: seq<T>)

  /** Reading a key: a missing or unreadable value reads as `[]`. */
  function ReadItems<T>(s: Stored<T>): (r: seq<T>)
    ensures s.Items? ==> r == s.items
    ensures !s.Items? ==> r == []
  {
    if s.Items? then s.items else []
  }
}
