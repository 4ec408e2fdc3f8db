/**
 The last-match report `get_last_match`: the summary of the most recent
 match and the party report of its players, or "no match data" when the
 response lists no match.
 */
module MatchReport {
  import opened Records
  import opened Scores
  import opened Parties

  /** The map information the report prints before the players. */
  datatype Summary = Summary(
    matchId: string,
    server: string,
    mapName: string,
    mode: string,
    length: GameLength,
    totalRounds: int,
    rounds: Rounds)

  datatype LastMatchView =
    | NoMatchData
    | MatchView(summary: Summary, reports: seq<Report>, noUniqueParties: bool)

  /** The metadata members verbatim, the length as minutes and seconds, the winner and scores. */
  function Summarize(m: MatchRecord): (s: Summary)
    ensures s.matchId == m.metadata.matchId && s.server == m.metadata.cluster
    ensures s.mapName == m.metadata.mapName && s.mode == m.metadata.modeId
    ensures s.totalRounds == m.metadata.roundsPlayed
    ensures s.length.minutes * 60 + s.length.seconds == m.metadata.gameLength
    ensures 0 <= s.length.seconds < 60
    ensures s.rounds.winner == Draw <==> m.redRoundsWon == m.blueRoundsWon
    ensures s.rounds.winner == Red <==> m.redRoundsWon > m.blueRoundsWon
    ensures s.rounds.redScore == m.redRoundsWon && s.rounds.blueScore == m.blueRoundsWon
  {
    var md := m.metadata;
    Summary(md.matchId, md.cluster, md.mapName, md.modeId,
            ConvertSeconds(md.gameLength), md.roundsPlayed, RoundsInformation(m))
  }

  /** `data` is the `data` list of the response, `[]` when the key is absent. */
  method GetLastMatch(data: seq<MatchRecord>) returns (view: LastMatchView)
    ensures view.NoMatchData? <==> data == []
    ensures view.MatchView? ==>
              var m, s := data[0], view.summary;
              && s.matchId == m.metadata.matchId && s.server == m.metadata.cluster
              && s.mapName == m.metadata.mapName && s.mode == m.metadata.modeId
              && s.totalRounds == m.metadata.roundsPlayed
              && s.length.minutes * 60 + s.length.seconds == m.metadata.gameLength
              && 0 <= s.length.seconds < 60
              && s.rounds == RoundsInformation(m)
              && view.reports == Reports(m.players, |m.players|)
              && (view.noUniqueParties <==> NoSharedParty(m.players))
  {
    if data == [] {
      return NoMatchData;
    }
    var m := data[0];
    var reports, _, noUniqueParties := GroupParties(m.players);
    view := MatchView(Summarize(m), reports, noUniqueParties);
  }
}
