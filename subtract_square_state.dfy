/**
 * Positions of Subtract Square: a player may subtract any positive perfect
 * square that does not exceed the current value, and the turn passes.
 */
module SubtractSquareStates {
  import opened Wrappers
  import opened GameStates
  import opened IntText

  /** The player about to move and the current value. */
  type SubtractSquareState = GameState<int>

  function Square(n: int): int {
    n * n
  }

  lemma SquareMonotone(a: int, b: int)
    requires 0 <= a <= b
    ensures Square(a) <= Square(b)
  {
    assert Square(b) - Square(a) == (b - a) * (b + a);
  }

  lemma SquareStrictlyMonotone(a: int, b: int)
    requires 0 <= a < b
    ensures Square(a) < Square(b)
  {
    assert Square(b) - Square(a) == (b - a) * (b + a);
  }

  /**
   * The squares of base, base + 1, ... for as long as they do not exceed
   * value, in that order.
   */
  function SquaresFrom(base: int, value: int): seq<int>
    requires base >= 1
    decreases value - base
  {
    if Square(base) <= value then
      SquareMonotone(1, base);
      [Square(base)] + SquaresFrom(base + 1, value)
    else
      []
  }

  /** The moves open to the player about to move. */
  function PossibleMoves(s: SubtractSquareState): seq<int> {
    SquaresFrom(1, s.currentValue)
  }

  /** A move is valid when it is one of the possible moves. */
  predicate IsValidMove(s: SubtractSquareState, move: int) {
    move in PossibleMoves(s)
  }

  /**
   * Enumerates the possible moves by trying 1, 2, 3, ... until the square
   * exceeds the current value.
   */
  method GetPossibleMoves(s: SubtractSquareState) returns (result: seq<int>)
    ensures result == PossibleMoves(s)
  {
    var possibleBase := 1;
    result := [];
    while Square(possibleBase) <= s.currentValue
      invariant possibleBase >= 1
      invariant result + SquaresFrom(possibleBase, s.currentValue) == PossibleMoves(s)
      decreases s.currentValue - possibleBase
    {
      SquareMonotone(1, possibleBase);
      result := result + [Square(possibleBase)];
      possibleBase := possibleBase + 1;
    }
  }

  /** The position after subtracting move; the other player moves next. */
  function MakeMove(s: SubtractSquareState, move: int): (r: SubtractSquareState)
    ensures r.currentPlayer != s.currentPlayer
    ensures r.currentValue + move == s.currentValue
  {
    var currentPlayer := if s.currentPlayer == P2 then P1 else P2;
    GameState(currentPlayer, s.currentValue - move)
  }

  /** Equality of positions: same value and same player to move. */
  function Equals(s: SubtractSquareState, t: SubtractSquareState): (r: bool)
    ensures r <==> s == t
  {
    s.currentValue == t.currentValue && s.currentPlayer == t.currentPlayer
  }

  /** The text shown for a position: whose turn it is and the current value. */
  function ToString(s: SubtractSquareState): string {
    var player := if s.currentPlayer == P1 then "1" else "2";
    "The current player is Player " + player + " and the current value is "
      + IntToText(s.currentValue)
  }

  // ---------------------------------------------------------------------
  // Properties of the move list

  lemma {:induction false} SquaresFromShape(base: int, value: int)
    requires base >= 1
    ensures forall i :: 0 <= i < |SquaresFrom(base, value)| ==>
              SquaresFrom(base, value)[i] == Square(base + i) && Square(base + i) <= value
    ensures Square(base + |SquaresFrom(base, value)|) > value
    decreases value - base
  {
    if Square(base) <= value {
      SquareMonotone(1, base);
      SquaresFromShape(base + 1, value);
      var rest := SquaresFrom(base + 1, value);
      assert SquaresFrom(base, value) == [Square(base)] + rest;
      forall i | 1 <= i < |SquaresFrom(base, value)|
        ensures SquaresFrom(base, value)[i] == Square(base + i) && Square(base + i) <= value
      {
        assert SquaresFrom(base, value)[i] == rest[i - 1];
        assert base + 1 + (i - 1) == base + i;
        assert rest[i - 1] == Square(base + 1 + (i - 1));
      }
    }
  }

  /**
   * The move list is 1, 4, 9, ..., k * k for the largest k whose square does
   * not exceed the current value, in strictly ascending order.
   */
  lemma PossibleMovesAreSquares(s: SubtractSquareState)
    ensures forall i :: 0 <= i < |PossibleMoves(s)| ==>
              PossibleMoves(s)[i] == Square(i + 1) && 0 < PossibleMoves(s)[i] <= s.currentValue
    ensures Square(|PossibleMoves(s)| + 1) > s.currentValue
    ensures forall i, j :: 0 <= i < j < |PossibleMoves(s)| ==> PossibleMoves(s)[i] < PossibleMoves(s)[j]
  {
    SquaresFromShape(1, s.currentValue);
    var r := PossibleMoves(s);
    forall i | 0 <= i < |r| ensures 0 < r[i] {
      SquareStrictlyMonotone(0, i + 1);
    }
    forall i, j | 0 <= i < j < |r| ensures r[i] < r[j] {
      SquareStrictlyMonotone(i + 1, j + 1);
    }
  }

  /** Nothing can be subtracted from a value of zero or less. */
  lemma NoMovesAtZero(s: SubtractSquareState)
    requires s.currentValue <= 0
    ensures PossibleMoves(s) == []
  {
    assert Square(1) > s.currentValue;
  }

  /** Valid moves are exactly the positive perfect squares no larger than the value. */
  lemma IsValidMoveIff(s: SubtractSquareState, move: int)
    ensures IsValidMove(s, move) <==>
              exists k :: 1 <= k && move == Square(k) && Square(k) <= s.currentValue
  {
    PossibleMovesAreSquares(s);
    var r := PossibleMoves(s);
    if IsValidMove(s, move) {
      var i :| 0 <= i < |r| && r[i] == move;
      assert move == Square(i + 1);
    }
    if k :| 1 <= k && move == Square(k) && Square(k) <= s.currentValue {
      if k > |r| {
        SquareMonotone(|r| + 1, k);
        assert false;
      }
      assert r[k - 1] == move;
    }
  }

  /**
   * A valid move leaves a non-negative value strictly below the current one,
   * so a game played with valid moves ends.
   */
  lemma ValidMoveDecreases(s: SubtractSquareState, move: int)
    requires IsValidMove(s, move)
    ensures 0 <= MakeMove(s, move).currentValue < s.currentValue
  {
    PossibleMovesAreSquares(s);
  }

  /** The first moves of the sequence that are all valid, applied in order. */
  function Play(s: SubtractSquareState, moves: seq<int>): Option<SubtractSquareState>
    decreases |moves|
  {
    if moves == [] then Some(s)
    else if IsValidMove(s, moves[0]) then Play(MakeMove(s, moves[0]), moves[1..])
    else None
  }

  /**
   * Every sequence of valid moves from a value v is at most v long and ends
   * on a non-negative value: play always terminates.
   */
  lemma {:induction false} PlayTerminates(s: SubtractSquareState, moves: seq<int>)
    requires s.currentValue >= 0
    requires Play(s, moves).Some?
    ensures Play(s, moves).value.currentValue >= 0
    ensures |moves| + Play(s, moves).value.currentValue <= s.currentValue
    decreases |moves|
  {
    if moves != [] {
      ValidMoveDecreases(s, moves[0]);
      PlayTerminates(MakeMove(s, moves[0]), moves[1..]);
    }
  }

  /** The shown text determines the position: whose turn it is and the value. */
  lemma ToStringInjective(s: SubtractSquareState, t: SubtractSquareState)
    requires ToString(s) == ToString(t)
    ensures s == t
  {
    var prefix := "The current player is Player ";
    var middle := " and the current value is ";
    var ps := if s.currentPlayer == P1 then "1" else "2";
    var pt := if t.currentPlayer == P1 then "1" else "2";
    assert ToString(s) == prefix + ps + middle + IntToText(s.currentValue);
    assert ToString(t) == prefix + pt + middle + IntToText(t.currentValue);
    assert ToString(s)[|prefix|] == ps[0];
    assert ToString(t)[|prefix|] == pt[0];
    var n := |prefix| + 1 + |middle|;
    assert ToString(s)[n..] == IntToText(s.currentValue);
    assert ToString(t)[n..] == IntToText(t.currentValue);
    IntToTextInjective(s.currentValue, t.currentValue);
  }

  // ---------------------------------------------------------------------
  // The documented examples

  lemma ExampleTwentyEight()
    ensures PossibleMoves(GameState(P2, 28)) == [1, 4, 9, 16, 25]
    ensures MakeMove(GameState(P2, 28), 16) == GameState(P1, 12)
  {
    assert SquaresFrom(6, 28) == [];
    assert SquaresFrom(5, 28) == [25];
    assert SquaresFrom(4, 28) == [16, 25];
    assert SquaresFrom(3, 28) == [9, 16, 25];
  }

  lemma ExampleToString()
    ensures ToString(GameState(P2, 28)) == "The current player is Player 2 and the current value is 28"
  {
  }

  lemma ExampleValidity()
    ensures IsValidMove(GameState(P2, 25), 25)
    ensures !IsValidMove(GameState(P2, 25), 7)
    ensures !IsValidMove(GameState(P2, 25), 36)
    ensures !IsValidMove(GameState(P2, 25), -25)
  {
    var s: SubtractSquareState := GameState(P2, 25);
    assert SquaresFrom(6, 25) == [];
    assert SquaresFrom(5, 25) == [25];
    assert SquaresFrom(4, 25) == [16, 25];
    assert SquaresFrom(3, 25) == [9, 16, 25];
    assert PossibleMoves(s) == [1, 4, 9, 16, 25];
  }
}
