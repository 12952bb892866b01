/**
 * Positions of Chopsticks: each player has a left and a right hand holding
 * a count; a hand whose count is a multiple of 5 is dead. A move taps one of
 * the mover's live hands on one of the opponent's live hands, whose count
 * becomes the sum of the two, modulo 5.
 */
module ChopsticksStates {
  import opened Wrappers
  import opened GameStates
  import opened IntText

  /**
   * One player's hands as stored: a list whose first entry is the left hand
   * and whose second is the right hand.
   */
  type HandList = s: seq<int> | |s| >= 2 witness [1, 1]

  /** Both players' hands, keyed by player. */
  datatype Hands = Hands(p1: HandList, p2: HandList)

  type ChopsticksState = GameState<Hands>

  datatype Side = Left | Right {
    function Other(): (o: Side)
      ensures o != this
    {
      if this == Left then Right else Left
    }
  }

  /** A move: which of the mover's hands taps which of the opponent's hands. */
  datatype ChopsticksMove = ChopsticksMove(mine: Side, theirs: Side) {

    /** The two-letter notation: 'l' or 'r' for the mover's hand, then for the target. */
    function Code(): (t: string)
      ensures |t| == 2
    {
      [SideChar(mine), SideChar(theirs)]
    }
  }

  function SideChar(side: Side): char {
    if side == Left then 'l' else 'r'
  }

  /** How the state reads a letter of a move: 'r' is the right hand, anything else the left. */
  function SideOf(c: char): Side {
    if c == 'r' then Right else Left
  }

  /** The move a two-letter code names, if it is one of the four codes. */
  function ParseMove(t: string): Option<ChopsticksMove> {
    if |t| == 2 && (t[0] == 'l' || t[0] == 'r') && (t[1] == 'l' || t[1] == 'r') then
      Some(ChopsticksMove(SideOf(t[0]), SideOf(t[1])))
    else
      None
  }

  /** The four codes in the order in which moves are listed. */
  const AllCodes: seq<string> := ["ll", "lr", "rl", "rr"]

  /** A new position; the lists are taken as values. */
  function NewChopsticksState(currentPlayer: Player, p1State: seq<int>, p2State: seq<int>): (s: ChopsticksState)
    requires |p1State| >= 2 && |p2State| >= 2
    ensures s.currentPlayer == currentPlayer
    ensures s.currentValue.p1 == p1State && s.currentValue.p2 == p2State
    ensures Hand(s.currentValue.p1, Left) == p1State[0] && Hand(s.currentValue.p1, Right) == p1State[1]
    ensures Hand(s.currentValue.p2, Left) == p2State[0] && Hand(s.currentValue.p2, Right) == p2State[1]
  {
    GameState(currentPlayer, Hands(p1State, p2State))
  }

  function Hand(h: HandList, side: Side): int {
    if side == Left then h[0] else h[1]
  }

  function HandsOf(s: ChopsticksState, p: Player): HandList {
    if p == P1 then s.currentValue.p1 else s.currentValue.p2
  }

  /** The hands of the player about to move. */
  function MoverHands(s: ChopsticksState): HandList {
    HandsOf(s, s.currentPlayer)
  }

  /** The hands of the player who is not about to move. */
  function OpponentHands(s: ChopsticksState): HandList {
    HandsOf(s, s.currentPlayer.Other())
  }

  /** A hand is alive unless its count is a multiple of 5. */
  predicate Alive(count: int) {
    count % 5 != 0
  }

  predicate BothDead(h: HandList) {
    !Alive(h[0]) && !Alive(h[1])
  }

  /** A move is offered when the tapping hand and the tapped hand are both alive. */
  predicate Offered(s: ChopsticksState, m: ChopsticksMove) {
    Alive(Hand(MoverHands(s), m.mine)) && Alive(Hand(OpponentHands(s), m.theirs))
  }

  function Keep(s: ChopsticksState, m: ChopsticksMove): seq<string> {
    if Offered(s, m) then [m.Code()] else []
  }

  /** The offered moves, from the mover's point of view, in the order ll, lr, rl, rr. */
  function PossibleMoves(s: ChopsticksState): seq<string> {
    Keep(s, ChopsticksMove(Left, Left)) + Keep(s, ChopsticksMove(Left, Right))
      + Keep(s, ChopsticksMove(Right, Left)) + Keep(s, ChopsticksMove(Right, Right))
  }

  /** A move is valid when its text is one of the possible moves. */
  predicate IsValidMove(s: ChopsticksState, move: string) {
    move in PossibleMoves(s)
  }

  /** Lists the moves with one case for each player, testing hands by name. */
  method GetPossibleMoves(s: ChopsticksState) returns (result: seq<string>)
    ensures result == PossibleMoves(s)
  {
    var p1Left, p1Right := s.currentValue.p1[0], s.currentValue.p1[1];
    var p2Left, p2Right := s.currentValue.p2[0], s.currentValue.p2[1];
    result := [];
    if s.currentPlayer == P1 {
      if p1Left % 5 != 0 {
        if p2Left % 5 != 0 {
          result := result + ["ll"];
        }
        if p2Right % 5 != 0 {
          result := result + ["lr"];
        }
      }
      if p1Right % 5 != 0 {
        if p2Left % 5 != 0 {
          result := result + ["rl"];
        }
        if p2Right % 5 != 0 {
          result := result + ["rr"];
        }
      }
    } else {
      if p2Left % 5 != 0 {
        if p1Left % 5 != 0 {
          result := result + ["ll"];
        }
        if p1Right % 5 != 0 {
          result := result + ["lr"];
        }
      }
      if p2Right % 5 != 0 {
        if p1Left % 5 != 0 {
          result := result + ["rl"];
        }
        if p1Right % 5 != 0 {
          result := result + ["rr"];
        }
      }
    }
  }

  /**
   * The position after the move: the tapped hand of the opponent becomes
   * (tapping hand + tapped hand) % 5, the opponent's list is rebuilt from its
   * two hands, the mover's list is kept, and the opponent moves next.
   * A first or second letter other than 'r' is read as 'l'.
   */
  function MakeMove(s: ChopsticksState, move: string): (r: ChopsticksState)
    requires |move| >= 2
    ensures r.currentPlayer == s.currentPlayer.Other()
    ensures HandsOf(r, s.currentPlayer) == MoverHands(s)
    ensures |HandsOf(r, r.currentPlayer)| == 2
    ensures Hand(HandsOf(r, r.currentPlayer), SideOf(move[1]))
            == (Hand(MoverHands(s), SideOf(move[0])) + Hand(OpponentHands(s), SideOf(move[1]))) % 5
    ensures Hand(HandsOf(r, r.currentPlayer), SideOf(move[1]).Other())
            == Hand(OpponentHands(s), SideOf(move[1]).Other())
  {
    var p1Left, p1Right := s.currentValue.p1[0], s.currentValue.p1[1];
    var p2Left, p2Right := s.currentValue.p2[0], s.currentValue.p2[1];
    if s.currentPlayer == P2 then
      if move[0] == 'r' then
        if move[1] == 'r' then
          GameState(P1, Hands([p1Left, (p1Right + p2Right) % 5], s.currentValue.p2))
        else
          GameState(P1, Hands([(p1Left + p2Right) % 5, p1Right], s.currentValue.p2))
      else
        if move[1] == 'r' then
          GameState(P1, Hands([p1Left, (p1Right + p2Left) % 5], s.currentValue.p2))
        else
          GameState(P1, Hands([(p1Left + p2Left) % 5, p1Right], s.currentValue.p2))
    else
      if move[0] == 'r' then
        if move[1] == 'r' then
          GameState(P2, Hands(s.currentValue.p1, [p2Left, (p1Right + p2Right) % 5]))
        else
          GameState(P2, Hands(s.currentValue.p1, [(p1Right + p2Left) % 5, p2Right]))
      else
        if move[1] == 'r' then
          GameState(P2, Hands(s.currentValue.p1, [p2Left, (p1Left + p2Right) % 5]))
        else
          GameState(P2, Hands(s.currentValue.p1, [(p1Left + p2Left) % 5, p2Right]))
  }

  /** Equality of positions: same hands and same player to move. */
  function Equals(s: ChopsticksState, t: ChopsticksState): (r: bool)
    ensures r <==> s == t
  {
    s.currentValue == t.currentValue && s.currentPlayer == t.currentPlayer
  }

  /** The text shown for a position: both players' hands. */
  function ToString(s: ChopsticksState): string {
    "Player 1: Left " + IntToText(s.currentValue.p1[0]) + " - " + IntToText(s.currentValue.p1[1])
      + " Right; Player 2: Left " + IntToText(s.currentValue.p2[0]) + " - "
      + IntToText(s.currentValue.p2[1]) + " Right"
  }

  // ---------------------------------------------------------------------
  // Move notation

  /** Reading back the code of a move gives the move. */
  lemma ParseCode(m: ChopsticksMove)
    ensures ParseMove(m.Code()) == Some(m)
  {
  }

  /** A text that reads as a move is exactly that move's code. */
  lemma CodeOfParsed(t: string)
    requires ParseMove(t).Some?
    ensures ParseMove(t).value.Code() == t
  {
    assert t == [t[0], t[1]];
  }

  // ---------------------------------------------------------------------
  // Properties of the move list

  /** The position of a code in the listing order ll, lr, rl, rr. */
  function CodeRank(t: string): nat {
    if t == "ll" then 0 else if t == "lr" then 1 else if t == "rl" then 2 else 3
  }

  /**
   * The move list keeps the order ll, lr, rl, rr and drops some codes:
   * every entry is a code, no code appears twice, and there are at most four.
   */
  lemma PossibleMovesOrdered(s: ChopsticksState)
    ensures |PossibleMoves(s)| <= 4
    ensures forall i :: 0 <= i < |PossibleMoves(s)| ==> PossibleMoves(s)[i] in AllCodes
    ensures forall i, j :: 0 <= i < j < |PossibleMoves(s)| ==>
              CodeRank(PossibleMoves(s)[i]) < CodeRank(PossibleMoves(s)[j])
  {
  }

  /** A code is listed exactly when its tapping hand and its target are both alive. */
  lemma ListedIffOffered(s: ChopsticksState, m: ChopsticksMove)
    ensures m.Code() in PossibleMoves(s) <==> Offered(s, m)
  {
    var codes := [ChopsticksMove(Left, Left).Code(), ChopsticksMove(Left, Right).Code(),
                  ChopsticksMove(Right, Left).Code(), ChopsticksMove(Right, Right).Code()];
    assert codes == AllCodes;
  }

  /**
   * A text is a valid move exactly when it is one of the four codes and the
   * move it names is offered; any other text is rejected.
   */
  lemma IsValidMoveIff(s: ChopsticksState, move: string)
    ensures IsValidMove(s, move) <==> ParseMove(move).Some? && Offered(s, ParseMove(move).value)
  {
    if ParseMove(move).Some? {
      CodeOfParsed(move);
      ListedIffOffered(s, ParseMove(move).value);
    } else {
      PossibleMovesOrdered(s);
    }
  }

  /**
   * No move is listed exactly when the mover has both hands dead or the
   * opponent has both hands dead.
   */
  lemma NoMovesIffSideDead(s: ChopsticksState)
    ensures PossibleMoves(s) == [] <==> BothDead(MoverHands(s)) || BothDead(OpponentHands(s))
  {
  }

  /** On positions whose lists hold two hands, equality is the four hands and the player. */
  lemma EqualsIffFourHands(s: ChopsticksState, t: ChopsticksState)
    requires |s.currentValue.p1| == 2 && |s.currentValue.p2| == 2
    requires |t.currentValue.p1| == 2 && |t.currentValue.p2| == 2
    ensures Equals(s, t) <==>
              s.currentPlayer == t.currentPlayer
              && Hand(s.currentValue.p1, Left) == Hand(t.currentValue.p1, Left)
              && Hand(s.currentValue.p1, Right) == Hand(t.currentValue.p1, Right)
              && Hand(s.currentValue.p2, Left) == Hand(t.currentValue.p2, Left)
              && Hand(s.currentValue.p2, Right) == Hand(t.currentValue.p2, Right)
  {
    if Hand(s.currentValue.p1, Left) == Hand(t.currentValue.p1, Left)
       && Hand(s.currentValue.p1, Right) == Hand(t.currentValue.p1, Right) {
      assert s.currentValue.p1 == [s.currentValue.p1[0], s.currentValue.p1[1]];
      assert t.currentValue.p1 == [t.currentValue.p1[0], t.currentValue.p1[1]];
    }
    if Hand(s.currentValue.p2, Left) == Hand(t.currentValue.p2, Left)
       && Hand(s.currentValue.p2, Right) == Hand(t.currentValue.p2, Right) {
      assert s.currentValue.p2 == [s.currentValue.p2[0], s.currentValue.p2[1]];
      assert t.currentValue.p2 == [t.currentValue.p2[0], t.currentValue.p2[1]];
    }
  }

  // ---------------------------------------------------------------------
  // Positions reachable by play

  /** Each player's list holds exactly two hands, each in 0..4. */
  predicate WellFormed(s: ChopsticksState) {
    |s.currentValue.p1| == 2 && |s.currentValue.p2| == 2
    && 0 <= s.currentValue.p1[0] <= 4 && 0 <= s.currentValue.p1[1] <= 4
    && 0 <= s.currentValue.p2[0] <= 4 && 0 <= s.currentValue.p2[1] <= 4
  }

  /** Every write is reduced modulo 5, so any move keeps a position well formed. */
  lemma MakeMoveKeepsWellFormed(s: ChopsticksState, move: string)
    requires WellFormed(s) && |move| >= 2
    ensures WellFormed(MakeMove(s, move))
  {
  }

  /** The first moves of the sequence that are all valid, applied in order. */
  function Play(s: ChopsticksState, moves: seq<string>): Option<ChopsticksState>
    decreases |moves|
  {
    if moves == [] then Some(s)
    else if IsValidMove(s, moves[0]) then Play(MakeMove(s, moves[0]), moves[1..])
    else None
  }

  /** Valid play from a well-formed position only reaches well-formed positions. */
  lemma {:induction false} PlayKeepsWellFormed(s: ChopsticksState, moves: seq<string>)
    requires WellFormed(s)
    requires Play(s, moves).Some?
    ensures WellFormed(Play(s, moves).value)
    decreases |moves|
  {
    if moves != [] {
      assert |moves[0]| == 2 by {
        PossibleMovesOrdered(s);
      }
      MakeMoveKeepsWellFormed(s, moves[0]);
      PlayKeepsWellFormed(MakeMove(s, moves[0]), moves[1..]);
    }
  }

  /** On a well-formed position the shown text determines both players' hands. */
  lemma ToStringShowsHands(s: ChopsticksState, t: ChopsticksState)
    requires WellFormed(s) && WellFormed(t)
    requires ToString(s) == ToString(t)
    ensures s.currentValue == t.currentValue
  {
    var x := ToString(s);
    var y := ToString(t);
    assert x[15] == DigitChar(s.currentValue.p1[0]) && y[15] == DigitChar(t.currentValue.p1[0]);
    assert x[19] == DigitChar(s.currentValue.p1[1]) && y[19] == DigitChar(t.currentValue.p1[1]);
    assert x[43] == DigitChar(s.currentValue.p2[0]) && y[43] == DigitChar(t.currentValue.p2[0]);
    assert x[47] == DigitChar(s.currentValue.p2[1]) && y[47] == DigitChar(t.currentValue.p2[1]);
    assert s.currentValue.p1 == [s.currentValue.p1[0], s.currentValue.p1[1]];
    assert t.currentValue.p1 == [t.currentValue.p1[0], t.currentValue.p1[1]];
    assert s.currentValue.p2 == [s.currentValue.p2[0], s.currentValue.p2[1]];
    assert t.currentValue.p2 == [t.currentValue.p2[0], t.currentValue.p2[1]];
  }

  // ---------------------------------------------------------------------
  // The documented examples

  lemma ExampleMoveLists()
    ensures PossibleMoves(GameState(P2, Hands([1, 3], [2, 0]))) == ["ll", "lr"]
    ensures PossibleMoves(GameState(P1, Hands([1, 3], [2, 0]))) == ["ll", "rl"]
    ensures PossibleMoves(GameState(P1, Hands([1, 3], [0, 0]))) == []
    ensures !IsValidMove(GameState(P1, Hands([1, 3], [2, 0])), "lr")
    ensures IsValidMove(GameState(P1, Hands([1, 3], [2, 0])), "rl")
    ensures !IsValidMove(GameState(P1, Hands([1, 3], [2, 0])), "rm")
  {
  }

  lemma ExampleToString()
    ensures ToString(GameState(P2, Hands([1, 3], [2, 4])))
            == "Player 1: Left 1 - 3 Right; Player 2: Left 2 - 4 Right"
  {
  }

  lemma ExampleMakeMove()
    ensures MakeMove(GameState(P1, Hands([4, 3], [2, 0])), "ll") == GameState(P2, Hands([4, 3], [1, 0]))
  {
  }
}
