/**
 * The Subtract Square game: a starting value, the player who moves first,
 * the position being played, and the end-of-game and winner tests.
 */
module SubtractSquareGame {
  import opened Wrappers
  import opened GameStates
  import opened IntText
  import opened SubtractSquareStates
  import Games

  /** The game is over once the value has reached zero. */
  predicate IsOver(s: SubtractSquareState) {
    s.currentValue == 0
  }

  /** On non-negative values the game is over exactly when no move is left. */
  lemma IsOverIffNoMoves(s: SubtractSquareState)
    requires s.currentValue >= 0
    ensures IsOver(s) <==> PossibleMoves(s) == []
  {
    if s.currentValue > 0 {
      assert Square(1) <= s.currentValue;
      assert PossibleMoves(s)[0] == 1;
    }
  }

  /** The integer a player typed, or None when the text is not an integer. */
  function StrToMove(move: string): (r: Option<int>)
    ensures r.None? <==> !IntSyntax(move)
  {
    ParseIntAccepts(move);
    ParseInt(move)
  }

  /** Typing the decimal text of a number yields that number as the move. */
  lemma StrToMoveReadsNumbers(n: int)
    ensures StrToMove(IntToText(n)) == Some(n)
  {
    ParseIntToText(n);
  }

  /**
   * A typed move is read as Python's int() reads it: a '+' changes nothing,
   * a '-' negates, and leading zeros are ignored.
   */
  lemma StrToMoveSignsAndZeros(t: string)
    requires |t| >= 1 && AllDigits(t)
    ensures StrToMove(t) == Some(DigitsValue(t) as int)
    ensures StrToMove("+" + t) == StrToMove(t)
    ensures StrToMove("-" + t) == Some(0 - DigitsValue(t))
    ensures StrToMove("0" + t) == StrToMove(t)
  {
    SignsAndZeros(t);
  }

  lemma ExampleStrToMove()
    ensures StrToMove("+5") == Some(5)
    ensures StrToMove("007") == Some(7)
    ensures StrToMove("-0") == Some(0)
    ensures StrToMove("-12") == Some(-12)
    ensures StrToMove("abc") == None
    ensures StrToMove("-") == None
  {
    assert StrToMove("+5") == Some(5) by {
      assert "+" + "5" == "+5";
      PlusParse("5");
    }
    assert StrToMove("007") == Some(7) by {
      assert "0" + "07" == "007";
      assert "0" + "7" == "07";
      ZeroParse("07");
      ZeroParse("7");
    }
    assert StrToMove("-0") == Some(0) by {
      assert "-" + "0" == "-0";
      MinusParse("0");
    }
    assert StrToMove("-12") == Some(-12) by {
      assert "-" + "12" == "-12";
      MinusParse("12");
    }
    assert StrToMove("abc") == None by {
      ParseIntAccepts("abc");
      assert !IsDigit("abc"[0]) && !IsDigit("abc"[1]);
    }
    assert StrToMove("-") == None by {
      ParseIntAccepts("-");
      assert !IsDigit("-"[0]);
    }
  }

  class SubtractSquare {
    var currentPlayer: Player
    var currentValue: int
    var currentState: SubtractSquareState

    /** A new game starting from startingValue, with the chosen player to move. */
    constructor(isP1Turn: bool, startingValue: int)
      requires startingValue >= 0
      ensures currentPlayer == P1 <==> isP1Turn
      ensures currentValue == startingValue
      ensures currentState == GameState(currentPlayer, startingValue)
    {
      var first := Games.FirstPlayer(isP1Turn);
      currentPlayer := first;
      currentValue := startingValue;
      currentState := GameState(first, startingValue);
    }

    /**
     * Nobody has won while the current position is not over; once it is, the
     * winner is the player who is not about to move.
     */
    function IsWinner(player: Player): (r: bool)
      reads this
      ensures r ==> IsOver(currentState)
      ensures IsOver(currentState) ==> (r <==> player == currentState.currentPlayer.Other())
    {
      if IsOver(currentState) then !(currentState.currentPlayer == player) else false
    }

    /** When the game is over exactly one player has won. */
    lemma OneWinnerWhenOver()
      ensures IsOver(currentState) ==> IsWinner(P1) != IsWinner(P2)
      ensures !IsOver(currentState) ==> !IsWinner(P1) && !IsWinner(P2)
    {
    }

    /** The player left without a move loses, and only then is there a winner. */
    lemma StuckPlayerLoses()
      requires currentState.currentValue >= 0
      ensures IsWinner(currentState.currentPlayer.Other()) <==> PossibleMoves(currentState) == []
      ensures !IsWinner(currentState.currentPlayer)
    {
      IsOverIffNoMoves(currentState);
    }

    /** Same starting value, same player, and equal positions. */
    function Equals(other: SubtractSquare): (r: bool)
      reads this, other
      ensures r <==> currentValue == other.currentValue && currentPlayer == other.currentPlayer
                     && currentState == other.currentState
    {
      currentValue == other.currentValue && currentPlayer == other.currentPlayer
        && SubtractSquareStates.Equals(currentState, other.currentState)
    }

    /** The text shown for the game: that of its current position. */
    function ToString(): string
      reads this
    {
      SubtractSquareStates.ToString(currentState)
    }
  }
}
