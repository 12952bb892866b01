# Two-player games: Subtract Square and Chopsticks

This project is a Dafny model of the game-state machine shared by two small
two-player, sequential-move, perfect-information games, together with proofs
about it.

- **Subtract Square.** A position holds one integer. The player to move
  subtracts a positive perfect square no larger than the value. The game is
  over at 0, and the player who is not about to move has won.
- **Chopsticks.** A position holds both players' left and right hands. A hand
  whose count is a multiple of 5 is dead. A move `xy` taps the mover's hand
  `x` (`l`/`r`) on the opponent's hand `y`. The tapped hand becomes the sum
  of the two, modulo 5. The game is over when one player's hands are
  exactly `[0, 0]`.

Layout, one module per source file:

| file | module | models |
|---|---|---|
| game_state.dfy | `GameStates` | `GameState`: the player type, the shared `currentPlayer` field, the generic position `GameState<V>(currentPlayer, currentValue)` |
| game.dfy | `Games` | `Game.__init__`: choosing the first player |
| subtract_square_state.dfy | `SubtractSquareStates` | `SubtractSquareState` |
| subtract_square.dfy | `SubtractSquareGame` | `SubtractSquare` |
| chopstick_state.dfy | `ChopsticksStates` | `ChopsticksState` |
| chopsticks.dfy | `ChopsticksGame` | `Chopsticks` |
| int_text.dfy | `IntText` | decimal text of integers, used by `__str__` and `str_to_move` |
| wrappers.dfy | `Wrappers` | `Option` |

Design:

- Positions are immutable datatypes `GameState<V>`. Both subclasses call their
  payload `current_value`: an `int` for Subtract Square, and the
  `{'p1': [..], 'p2': [..]}` dictionary (the record `Hands`) for Chopsticks.
  A move builds a new position.
- The two games are classes. Their fields `currentPlayer` and `currentState`
  are mutable because the driver rebinds `current_state` after every move.
  Subtract Square also caches `currentValue`.
- Both `get_possible_moves` are methods written as the source writes them: a
  `while` loop for Subtract Square, and nested `if`s appending codes for
  Chopsticks. Each is proved equal to a specification function,
  `PossibleMoves`. `is_valid_move` is membership in that function's result.
- A Chopsticks hand list is a `seq<int>` of length at least 2, as the source
  indexes `[0]` and `[1]` and copies the whole list. Moves remain text at the
  interface, because `str_to_move` passes the text through unchanged.
  `ChopsticksMove(mine, theirs)` and `ParseMove`/`Code` give the four-value
  view.
- Python's `%` floors and Dafny's `%` is Euclidean; with the positive divisor 5
  both give a value in 0..4, so `% 5` is written directly.
- Two places where the code's own tests are narrower than what the game means:
  - The Chopsticks rules text (chopsticks.py:67-71) calls a hand holding 5 "dead" and says the
    first player with both hands dead loses. But `is_over` (chopsticks.py:87-88) compares the
    stored lists with `[0, 0]` literally, not modulo 5. The model follows the code.
    `LiteralTestMissesFives` shows a position where the two differ. `ReachedIsOverIffNoMoves`
    proves they agree on every position reachable from the opening.
  - A Subtract Square value may be negative in the code. Such a value has no moves and is not
    over. The constructor's docstring (subtract_square.py:23) assumes a non-negative starting
    value, and the model's constructor requires it.

## Model

| member | source | states |
|---|---|---|
| `GameStates.Player.Other` | subtract_square_state.py:108-110 | the next player always differs from the current one |
| `GameStates.GameState.GetCurrentPlayerName` | game_state.py:34-41 | returns exactly the stored player and leaves the position as it is |
| `Games.FirstPlayer` | game.py:14-23 | the first player is P1 if and only if `is_p1_turn`, otherwise P2 |
| `IntText.ParseIntAccepts` | subtract_square.py:85-86 | a number is produced exactly when the text is an optional sign followed by digits; `ParseInt` itself reads the digits as a decimal value, negated after '-' |
| `IntText.LeadingZero` | subtract_square.py:85-86 | a leading '0' on a digit string does not change its value |
| `IntText.NonZeroLead` | subtract_square.py:85-86 | a digit string that does not start with '0' has value at least 1 |
| `IntText.CanonicalDigits` | subtract_square.py:85-86 | a digit string without a leading zero is exactly the decimal text of its value, and parses to that value |
| `IntText.SignsAndZeros` | subtract_square.py:85-86 | for any digit string t: t parses to its decimal value, "+"t parses as t, "-"t to the negated value, "0"t as t |
| `IntText.ParseIntToText` | subtract_square.py:85-86 | parsing the decimal text of any integer gives that integer back |
| `IntText.IntToTextInjective` | subtract_square_state.py:42-43 | different integers are shown as different texts |
| `SubtractSquareStates.GetPossibleMoves` | subtract_square_state.py:62-79 | the loop returns exactly the specification's move list |
| `SubtractSquareStates.PossibleMovesAreSquares` | subtract_square_state.py:74-79 | the list is 1², 2², …, k² with k² ≤ value < (k+1)², strictly ascending, every entry positive and no larger than the value |
| `SubtractSquareStates.NoMovesAtZero` | subtract_square_state.py:70-76 | a value of 0 or less has an empty move list |
| `SubtractSquareStates.IsValidMoveIff` | subtract_square_state.py:81-96 | a move is valid if and only if it is k² for some k ≥ 1 with k² ≤ value, so 7, 36 and -25 are rejected at 25 |
| `SubtractSquareStates.PossibleMoves` | subtract_square_state.py:62-79 | the specification move list, the squares from 1² upward while they do not exceed the value; its shape is stated by `PossibleMovesAreSquares` |
| `SubtractSquareStates.IsValidMove` | subtract_square_state.py:81-96 | membership in the move list; characterised by `IsValidMoveIff` |
| `SubtractSquareStates.MakeMove` | subtract_square_state.py:98-112 | the new value is the old value minus the move, and the turn passes to the other player |
| `SubtractSquareStates.ValidMoveDecreases` | subtract_square_state.py:98-112 | after a valid move the value is non-negative and strictly smaller |
| `SubtractSquareStates.PlayTerminates` | subtract_square_state.py:76-111 | from a value v ≥ 0, any sequence of valid moves has at most v moves and ends on a non-negative value |
| `SubtractSquareStates.Equals` | subtract_square_state.py:45-60 | two positions are equal if and only if value and player are equal |
| `SubtractSquareStates.ToString` | subtract_square_state.py:29-43 | "The current player is Player 1" for P1, "Player 2" otherwise, then " and the current value is " and the value; stated by `ExampleToString` and `ToStringInjective` |
| `SubtractSquareStates.ExampleToString` | subtract_square_state.py:35-37 | ('p2', 28) is shown as "The current player is Player 2 and the current value is 28" |
| `SubtractSquareStates.Play` | subtract_square_state.py:98-112 | applies a sequence of moves while each is valid, else no result; bounded by `PlayTerminates` |
| `SubtractSquareStates.ToStringInjective` | subtract_square_state.py:29-43 | the shown text determines the player to move and the value |
| `SubtractSquareStates.ExampleTwentyEight` | subtract_square_state.py:67-69 | at ('p2', 28) the moves are [1, 4, 9, 16, 25], and move 16 gives ('p1', 12) |
| `SubtractSquareStates.ExampleValidity` | subtract_square_state.py:86-94 | at 25: 25 is valid, and 7, 36 and -25 are not |
| `SubtractSquareGame.IsOver` | subtract_square.py:61-67 | the position is over when its value is 0; related to the move list by `IsOverIffNoMoves` |
| `SubtractSquareGame.IsOverIffNoMoves` | subtract_square.py:61-67 | for a non-negative value, the game is over if and only if the move list is empty |
| `SubtractSquareGame.StrToMove` | subtract_square.py:80-89 | no move is produced exactly when the text is not an integer |
| `SubtractSquareGame.StrToMoveReadsNumbers` | subtract_square.py:80-89 | the text of any integer n is read as the move n |
| `SubtractSquareGame.StrToMoveSignsAndZeros` | subtract_square.py:80-89 | non-canonical integer text is read as Python's `int` reads it: "+"t as t, "-"t as the negated value, leading zeros ignored |
| `SubtractSquareGame.ExampleStrToMove` | subtract_square.py:85-86 | "+5" is 5, "007" is 7, "-0" is 0, "-12" is -12, while "abc" and "-" give no move |
| `SubtractSquareGame.SubtractSquare.constructor` | subtract_square.py:14-29 | caches the starting value and builds the position from the first player and that value |
| `SubtractSquareGame.SubtractSquare.IsWinner` | subtract_square.py:69-78 | nobody wins before the position is over; once it is over, the winner is the player not about to move |
| `SubtractSquareGame.SubtractSquare.OneWinnerWhenOver` | subtract_square.py:69-78 | exactly one player wins when the game is over, and none before |
| `SubtractSquareGame.SubtractSquare.StuckPlayerLoses` | subtract_square.py:61-78 | the opponent of the mover wins if and only if the mover has no move; the mover never wins |
| `SubtractSquareGame.SubtractSquare.Equals` | subtract_square.py:38-46 | games are equal if and only if cached value, player and position are equal |
| `SubtractSquareGame.SubtractSquare.ToString` | subtract_square.py:31-36 | the game shows the text of its current position (no contract of its own: the position's text is specified by `SubtractSquareStates.ToString`) |
| `ChopsticksStates.NewChopsticksState` | chopstick_state.py:16-42 | stores the player and both lists as given; the four hands are the lists' first two entries |
| `ChopsticksStates.GetPossibleMoves` | chopstick_state.py:75-113 | the per-player nested tests return exactly the mover's-view specification list |
| `ChopsticksStates.PossibleMovesOrdered` | chopstick_state.py:90-113 | the list has at most four entries, each one of ll, lr, rl, rr, in that order and without repeats |
| `ChopsticksStates.ListedIffOffered` | chopstick_state.py:90-113 | code xy is listed if and only if the mover's hand x and the opponent's hand y are both nonzero mod 5 |
| `ChopsticksStates.NoMovesIffSideDead` | chopstick_state.py:86-113 | the list is empty if and only if the mover or the opponent has both hands dead |
| `ChopsticksStates.PossibleMoves` | chopstick_state.py:75-113 | the offered codes from the mover's point of view in the order ll, lr, rl, rr; stated by `PossibleMovesOrdered`, `ListedIffOffered` and `NoMovesIffSideDead` |
| `ChopsticksStates.IsValidMove` | chopstick_state.py:115-128 | membership of the text in the move list; characterised by `IsValidMoveIff` |
| `ChopsticksStates.IsValidMoveIff` | chopstick_state.py:115-128 | a text is valid if and only if it is one of the four codes and that move is offered, so 'rm' is rejected |
| `ChopsticksStates.ParseCode` | chopstick_state.py:92-112 | reading the two-letter code of a move gives that move |
| `ChopsticksStates.CodeOfParsed` | chopstick_state.py:92-112 | a text that reads as a move is that move's code |
| `ChopsticksStates.MakeMove` | chopstick_state.py:130-175 | the turn passes, the mover's list is unchanged, and the opponent's list holds two hands: the tapped one is (tapping + tapped) % 5 and the other is unchanged; a letter other than 'r' means left |
| `ChopsticksStates.Equals` | chopstick_state.py:58-73 | two positions are equal if and only if hands and player are equal |
| `ChopsticksStates.EqualsIffFourHands` | chopstick_state.py:58-73 | for two-entry lists, equality means same player and same four hand values |
| `ChopsticksStates.MakeMoveKeepsWellFormed` | chopstick_state.py:142-175 | a move keeps two-entry lists with every hand in 0..4 |
| `ChopsticksStates.PlayKeepsWellFormed` | chopstick_state.py:142-175 | valid play from a well-formed position reaches only well-formed positions |
| `ChopsticksStates.ToString` | chopstick_state.py:44-56 | "Player 1: Left a - b Right; Player 2: Left c - d Right" from the four hands; stated by `ExampleToString` and `ToStringShowsHands` |
| `ChopsticksStates.ExampleToString` | chopstick_state.py:50-52 | ('p2', [1, 3], [2, 4]) is shown as "Player 1: Left 1 - 3 Right; Player 2: Left 2 - 4 Right" |
| `ChopsticksStates.Play` | chopstick_state.py:130-175 | applies a sequence of moves while each is valid, else no result; kept well formed by `PlayKeepsWellFormed` |
| `ChopsticksStates.ToStringShowsHands` | chopstick_state.py:44-56 | on well-formed positions, the shown text determines all four hands |
| `ChopsticksStates.ExampleMoveLists` | chopstick_state.py:80-126 | the documented move lists and validity answers |
| `ChopsticksStates.ExampleMakeMove` | chopstick_state.py:135-140 | ('p1', [4, 3], [2, 0]) with 'll' gives ('p2', [4, 3], [1, 0]) |
| `ChopsticksGame.InitialState` | chopsticks.py:25-27 | the opening has all four hands at 1, with the game's player to move |
| `ChopsticksGame.StrToMove` | chopsticks.py:113-124 | the text is returned unchanged, even when malformed |
| `ChopsticksGame.MalformedTextIsNeverValid` | chopsticks.py:113-124 | text that is not one of the four codes is never a valid move |
| `ChopsticksGame.IsOver` | chopsticks.py:73-88 | one player's stored list is exactly [0, 0]; related to dead hands and the move list by `IsOverIffSideDead` and `IsOverIffNoMoves` |
| `ChopsticksGame.IsOverIffSideDead` | chopsticks.py:73-88 | on well-formed positions, the literal [0, 0] test holds if and only if one side has both hands dead |
| `ChopsticksGame.IsOverIffNoMoves` | chopsticks.py:73-88 | on well-formed positions, the game is over if and only if the move list is empty |
| `ChopsticksGame.ReachedIsOverIffNoMoves` | chopsticks.py:25-88 | every position reached from the opening by valid moves is well formed, and is over if and only if the mover has no move |
| `ChopsticksGame.LiteralTestMissesFives` | chopsticks.py:87-88 | hands stored as 5 are dead and leave no move, yet the literal test does not call the game over |
| `ChopsticksGame.ExampleIsOver` | chopsticks.py:79-85 | the documented over / not-over positions |
| `ChopsticksGame.ExampleWinner` | chopsticks.py:97-107 | the documented winner answers after rebinding the position, and the documented game equalities (chopsticks.py:45-51) |
| `ChopsticksGame.Chopsticks.constructor` | chopsticks.py:13-27 | the first player is P1 if and only if `is_p1_turn`, and the position is the opening |
| `ChopsticksGame.Chopsticks.IsWinner` | chopsticks.py:90-111 | nobody wins before the position is over; once it is over, the winner is the player not about to move |
| `ChopsticksGame.Chopsticks.OneWinnerWhenOver` | chopsticks.py:90-111 | exactly one player wins when the game is over, and none before |
| `ChopsticksGame.Chopsticks.Equals` | chopsticks.py:40-55 | games are equal if and only if player and position are equal |
| `ChopsticksGame.Chopsticks.ToString` | chopsticks.py:29-38 | the game shows the text of its current position (no contract of its own: the position's text is specified by `ChopsticksStates.ToString`) |
| `ChopsticksGame.ExampleOpeningText` | chopsticks.py:34-36 | a new game with Player 2 to move shows "Player 1: Left 1 - 1 Right; Player 2: Left 1 - 1 Right" |

## Left out

- The abstract `Game` and `GameState` operations that raise `NotImplementedError` (game.py:25-56, game_state.py:24-56) are not modelled. There are no traits here: each variant module defines its own operations, and no abstract instance exists to call them on.
- The `input()` call in the `SubtractSquare` constructor is left out: the starting value is a constructor parameter.
- The two `print` calls in `SubtractSquare.str_to_move` are left out; only the result is modelled (a number, or `None`).
- `int()` accepts more than the model's optional sign and ASCII digits (surrounding whitespace, underscores, non-ASCII digits); that extra syntax is left out.
- `get_instructions` in both games is constant informational text and is not modelled.
- The runtime type comparisons in every `__eq__` against unrelated values (`'22'`, `78`, `32`) are ruled out by Dafny's static types.
- The move sources and the driver loop (strategy.py, console input, random choice) and the `python_ta` entry blocks are not part of this model. `Play` in both state modules stands for a driver that applies a sequence of validated moves.
- List aliasing is not modelled: positions hold sequences, which are values, and that matches the copies (`p1_state[:]`) the source makes.
- ChopsticksStates.MakeMove: requires a text of at least two characters; on shorter text the source's `move[0]`/`move[1]` (chopstick_state.py:143-144) raise IndexError, and that error path is not modelled. Valid moves always have two characters.
- ChopsticksStates.NewChopsticksState: requires both lists to hold at least two entries; on shorter lists the source raises IndexError (chopstick_state.py:38-41), and that error path is not modelled. Every list the source builds has two entries.
