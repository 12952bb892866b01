/** What every game does when it starts: fix who moves first. */
module Games {
  import opened GameStates

  /** The first player: P1 when it is P1's turn, otherwise P2. */
  method FirstPlayer(isP1Turn: bool) returns (player: Player)
    ensures player == P1 <==> isP1Turn
    ensures player == P2 <==> !isP1Turn
  {
    player := P2;
    if isP1Turn {
      player := P1;
    }
  }
}
