/**
 The records the tracker reads out of the match-history JSON. Only the
 members that the match and rank logic looks at are kept, plus the ones the
 console report names (player name, tag, agent and stats).
 */
module Records {

  datatype Option<+T> = None | Some(value: T)

  /**
   A member of a JSON object as Python's dictionaries see it: the key is
   absent, the key is present with the value `null` (Python's `None`), or the
   key is present with a value. `'k' in d` is false only for `Missing`;
   `d.get('k', default)` gives `default` for `Missing` and `None` for `Null`.
   */
  datatype Field<+T> = Missing | Null | Given(value: T)

  datatype Stats = Stats(kills: int, deaths: int, assists: int)

  /** One entry of `players.all_players`. */
  datatype Player = Player(
    name: string,
    tag: string,
    character: string,
    puuid: Field<string>,
    partyId: Field<string>,
    tier: Field<string>,      // `currenttier_patched`
    stats: Stats)

  /** The `metadata` object of a match. */
  datatype Metadata = Metadata(
    matchId: string,
    cluster: string,
    mapName: string,
    modeId: string,
    gameLength: int,          // seconds
    roundsPlayed: int)

  /**
   One element of the response's `data` list. `redRoundsWon` and
   `blueRoundsWon` are `teams.red.rounds_won` and `teams.blue.rounds_won`.
   */
  datatype MatchRecord = MatchRecord(
    metadata: Metadata,
    redRoundsWon: int,
    blueRoundsWon: int,
    players: seq<Player>)
}
