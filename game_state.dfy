/**
 * The state shared by every game position: the player who is about to move,
 * and a variant-specific current value.
 */
module GameStates {

  /** The two players; the program spells them 'p1' and 'p2'. */
  datatype Player = P1 | P2 {

    /** The player who moves after this one. */
    function Other(): (q: Player)
      ensures q != this
    {
      if this == P2 then P1 else P2
    }
  }

  /**
   * One position of a game: whose turn it is, and the position's payload
   * (an integer for Subtract Square, both players' hands for Chopsticks).
   * Positions are values: a move builds a new one.
   */
  datatype GameState<V> = GameState(currentPlayer: Player, currentValue: V) {

    /** The player about to move; reading it changes nothing. */
    function GetCurrentPlayerName(): (p: Player)
      ensures p == currentPlayer
    {
      currentPlayer
    }
  }
}
