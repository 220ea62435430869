/** The summary of a finished game that is appended to the history log. */
module History {

  /** One history entry; the date and time stamps of the stored record are not modelled. */
  datatype GameRecord = GameRecord(
    player1: string, player1Score: int,
    player2: string, player2Score: int,
    winner: string)

  /**
   * The record of a finished game between the first two players. The winner is the player
   * with the higher score; a tie is recorded as a win for the second player.
   */
  function CompletedGame(player1: string, score1: int, player2: string, score2: int): (g: GameRecord)
    ensures g.player1 == player1 && g.player1Score == score1
    ensures g.player2 == player2 && g.player2Score == score2
    ensures g.winner == player1 || g.winner == player2
    ensures score1 > score2 ==> g.winner == player1
    ensures score2 > score1 ==> g.winner == player2
    ensures score1 == score2 ==> g.winner == player2
  {
    GameRecord(player1, score1, player2, score2, if score1 > score2 then player1 else player2)
  }
}
