/**
 * The Chopsticks game: the player who moves first, the position being
 * played, and the end-of-game and winner tests.
 */
module ChopsticksGame {
  import opened Wrappers
  import opened GameStates
  import opened ChopsticksStates
  import Games

  /** The opening position: all four hands hold 1. */
  function InitialState(currentPlayer: Player): (s: ChopsticksState)
    ensures s.currentPlayer == currentPlayer
    ensures WellFormed(s)
    ensures forall side :: Hand(HandsOf(s, P1), side) == 1 && Hand(HandsOf(s, P2), side) == 1
  {
    NewChopsticksState(currentPlayer, [1, 1], [1, 1])
  }

  /**
   * The game is over when one player's stored hands are exactly [0, 0].
   * This compares the stored counts with 0 itself, not modulo 5.
   */
  predicate IsOver(s: ChopsticksState) {
    s.currentValue.p1 == [0, 0] || s.currentValue.p2 == [0, 0]
  }

  /** The move text a player typed, passed on unchanged. */
  function StrToMove(move: string): (r: string)
    ensures r == move
  {
    move
  }

  /** Text that is not one of the four codes never becomes a valid move. */
  lemma MalformedTextIsNeverValid(s: ChopsticksState, move: string)
    requires ParseMove(move).None?
    ensures !IsValidMove(s, StrToMove(move))
  {
    IsValidMoveIff(s, move);
  }

  /**
   * On well-formed positions the literal test agrees with the dead-hand
   * test: the game is over exactly when one side has both hands dead.
   */
  lemma IsOverIffSideDead(s: ChopsticksState)
    requires WellFormed(s)
    ensures IsOver(s) <==> BothDead(s.currentValue.p1) || BothDead(s.currentValue.p2)
  {
    assert s.currentValue.p1 == [s.currentValue.p1[0], s.currentValue.p1[1]];
    assert s.currentValue.p2 == [s.currentValue.p2[0], s.currentValue.p2[1]];
  }

  /** On well-formed positions the game is over exactly when no move is listed. */
  lemma IsOverIffNoMoves(s: ChopsticksState)
    requires WellFormed(s)
    ensures IsOver(s) <==> PossibleMoves(s) == []
  {
    IsOverIffSideDead(s);
    NoMovesIffSideDead(s);
  }

  /**
   * Every position reached from the opening by valid moves is well formed,
   * so there the game is over exactly when the mover has no move.
   */
  lemma ReachedIsOverIffNoMoves(first: Player, moves: seq<string>)
    requires Play(InitialState(first), moves).Some?
    ensures WellFormed(Play(InitialState(first), moves).value)
    ensures IsOver(Play(InitialState(first), moves).value)
            <==> PossibleMoves(Play(InitialState(first), moves).value) == []
  {
    PlayKeepsWellFormed(InitialState(first), moves);
    IsOverIffNoMoves(Play(InitialState(first), moves).value);
  }

  /**
   * Off the reachable positions the two tests differ: counts of 5 are dead
   * hands, so nobody can move, yet the position is not over.
   */
  lemma LiteralTestMissesFives()
    ensures !IsOver(GameState(P1, Hands([5, 5], [1, 1])))
    ensures PossibleMoves(GameState(P1, Hands([5, 5], [1, 1]))) == []
  {
    assert [5, 5] != [0, 0] by {
      assert [5, 5][0] != [0, 0][0];
    }
  }

  class Chopsticks {
    var currentPlayer: Player
    var currentState: ChopsticksState

    /** A new game at the opening position, with the chosen player to move. */
    constructor(isP1Turn: bool)
      ensures currentPlayer == P1 <==> isP1Turn
      ensures currentState == InitialState(currentPlayer)
    {
      var first := Games.FirstPlayer(isP1Turn);
      currentPlayer := first;
      currentState := InitialState(first);
    }

    /**
     * Nobody has won while the current position is not over; once it is, the
     * winner is the player who is not about to move.
     */
    function IsWinner(player: Player): (r: bool)
      reads this
      ensures r ==> IsOver(currentState)
      ensures IsOver(currentState) ==> (r <==> player == currentState.currentPlayer.Other())
    {
      if IsOver(currentState) then !(currentState.currentPlayer == player) else false
    }

    /** When the game is over exactly one player has won. */
    lemma OneWinnerWhenOver()
      ensures IsOver(currentState) ==> IsWinner(P1) != IsWinner(P2)
      ensures !IsOver(currentState) ==> !IsWinner(P1) && !IsWinner(P2)
    {
    }

    /** Same player and equal positions. */
    function Equals(other: Chopsticks): (r: bool)
      reads this, other
      ensures r <==> currentPlayer == other.currentPlayer && currentState == other.currentState
    {
      currentPlayer == other.currentPlayer && ChopsticksStates.Equals(currentState, other.currentState)
    }

    /** The text shown for the game: that of its current position. */
    function ToString(): string
      reads this
    {
      ChopsticksStates.ToString(currentState)
    }
  }

  // ---------------------------------------------------------------------
  // The documented examples

  lemma ExampleIsOver()
    ensures !IsOver(GameState(P1, Hands([0, 1], [1, 0])))
    ensures IsOver(GameState(P2, Hands([0, 1], [0, 0])))
  {
    assert [0, 1] != [0, 0] by {
      assert [0, 1][1] != [0, 0][1];
    }
    assert [1, 0] != [0, 0] by {
      assert [1, 0][0] != [0, 0][0];
    }
  }

  method ExampleWinner() {
    var game := new Chopsticks(true);
    game.currentState := GameState(P1, Hands([0, 1], [1, 0]));
    ExampleIsOver();
    assert !game.IsWinner(P2);
    game.currentState := GameState(P2, Hands([0, 1], [0, 0]));
    assert !game.IsWinner(P2);
    assert game.IsWinner(P1);
    var a := new Chopsticks(false);
    var b := new Chopsticks(false);
    var c := new Chopsticks(true);
    assert a.Equals(b);
    assert !a.Equals(c);
  }

  /** A new game with Player 2 to move shows four hands holding 1. */
  method ExampleOpeningText() returns (text: string)
    ensures text == "Player 1: Left 1 - 1 Right; Player 2: Left 1 - 1 Right"
  {
    var game := new Chopsticks(false);
    assert game.currentState == GameState(P2, Hands([1, 1], [1, 1]));
    OpeningText();
    text := game.ToString();
  }

  /** The opening position with Player 2 to move, as text. */
  lemma OpeningText()
    ensures ChopsticksStates.ToString(GameState(P2, Hands([1, 1], [1, 1])))
            == "Player 1: Left 1 - 1 Right; Player 2: Left 1 - 1 Right"
  {
  }
}
