/**
 The values the last-match report derives from one match record: the winning
 side with both scores (`rounds_information`) and the game length split into
 minutes and seconds (`convert_seconds`).
 */
module Scores {
  import opened Records

  datatype Team = Red | Blue | Draw

  /** The triple `(winning_team, red_score, blue_score)`. */
  datatype Rounds = Rounds(winner: Team, redScore: int, blueScore: int)

  /** The pair `divmod(seconds, 60)`. */
  datatype GameLength = GameLength(minutes: int, seconds: int)

  /** The side that won more rounds, or a draw; both scores are passed through. */
  function RoundsInformation(m: MatchRecord): (r: Rounds)
    ensures r.redScore == m.redRoundsWon && r.blueScore == m.blueRoundsWon
    ensures r.winner == Draw <==> m.redRoundsWon == m.blueRoundsWon
    ensures r.winner == Red <==> m.redRoundsWon > m.blueRoundsWon
    ensures r.winner == Blue <==> m.redRoundsWon < m.blueRoundsWon
  {
    var red, blue := m.redRoundsWon, m.blueRoundsWon;
    if red == blue then Rounds(Draw, red, blue)
    else if red > blue then Rounds(Red, red, blue)
    else Rounds(Blue, red, blue)
  }

  function Opponent(t: Team): Team {
    match t
    case Red => Blue
    case Blue => Red
    case Draw => Draw
  }

  /** Exchanging the two teams' rounds exchanges the winner and the scores. */
  lemma RoundsInformationSymmetric(m: MatchRecord)
    ensures var swapped := m.(redRoundsWon := m.blueRoundsWon, blueRoundsWon := m.redRoundsWon);
            var r, s := RoundsInformation(m), RoundsInformation(swapped);
            s == Rounds(Opponent(r.winner), r.blueScore, r.redScore)
  {
  }

  /**
   Python's `divmod(seconds, 60)`: floor division and a remainder that has the
   sign of the divisor. With the positive divisor 60 that is Dafny's Euclidean
   `/` and `%`, also for a negative number of seconds.
   */
  function ConvertSeconds(seconds: int): (r: GameLength)
    ensures r.minutes * 60 + r.seconds == seconds
    ensures 0 <= r.seconds < 60
  {
    GameLength(seconds / 60, seconds % 60)
  }

  /** Minutes and seconds are the only split of the length with 0 <= seconds < 60. */
  lemma ConvertSecondsUnique(seconds: int, minutes: int, rest: int)
    requires minutes * 60 + rest == seconds && 0 <= rest < 60
    ensures ConvertSeconds(seconds) == GameLength(minutes, rest)
  {
  }

  /** 125 seconds is 2 minutes 5 seconds; a negative length rounds the minutes down. */
  lemma ConvertSecondsExamples()
    ensures ConvertSeconds(125) == GameLength(2, 5)
    ensures ConvertSeconds(-1) == GameLength(-1, 59)
  {
  }
}
