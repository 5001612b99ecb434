# Othello rules engine — a Dafny model

This project models the rules engine of a small console Othello (Reversi) game, `Othello.py`.
The engine has three classes:

- **Board.** An N×N grid holding 0, 1 (Black) or −1 (White). It seeds the four centre squares, places a piece on an empty square, and flips an occupied square.
- **Player.** A colour and a running score.
- **Game.** Two players, a turn index and a board. `TakeTurn` places the mover's piece and gives the mover a point. It then runs `UpdateFrom`, which scans the eight directions in enum order N, NE, E, SE, S, SW, W, NW.
  - In each direction it walks over the opponent's pieces.
  - When the walk moved and stopped on one of the mover's pieces, `change` flips the pieces in between. Each flip moves one point from the opponent to the mover.
  - Finally the turn passes to the other player.

The model is purely functional:

- Each mutating method becomes a function from the old value to a `Result` holding the new value or the error the engine would raise.
- `Board` is a `seq<seq<Cell>>` of size N.
- Squares are `(row, col)` pairs of integers.
- The squares along a direction are `Pos(o, d, k)`, the square k steps from o in direction d.

The modules follow the source's structure:

| file | module | models |
|---|---|---|
| `results.dfy` | `Results` | the errors the engine raises, as values |
| `cells.dfy` | `Cells` | the three cell states and the opposite colour |
| `geometry.dfy` | `Geometry` | `Direction`, its loop order, the per-direction steps and the rays they trace |
| `board.dfy` | `Boards` | `Board.__init__`, `Place`, `FlipPiece`, piece counts |
| `player.dfy` | `Players` | `Player.__init__`, `IncreaseScore`, `DecreaseScore`, the per-flip score update |
| `game.dfy` | `Games` | `Game.__init__`, the walk, `change`, `UpdateFrom`, `TakeTurn`, `WhosTurn` |
| `capture.dfy` | `Capture` | what a turn does, compared against an order-independent reference |
| `scenarios.dfy` | `Scenarios` | the 8×8 opening and two first moves |

### The order-independent reference

The engine flips each direction's run before it scans the next direction, so later scans see earlier flips. `Capture` defines a reference that does not depend on that order. In it, a square is *captured* when it lies strictly between the placed square and the bracketing piece of some direction, with every direction scanned on the board as it was before the scan began. The main result is `Capture.UpdateFromCaptures`:

- the sequential loop turns exactly the captured squares to the mover's colour;
- it leaves every other square alone;
- it moves one point per flipped piece.

It holds because the eight rays from a square share no other square (`Geometry.RaysDisjoint`): a flip in one direction is never seen by the scan of another.

`Games.WhosTurn` is the colour of the player at the turn index. `Games.TakeTurn` and `Games.OpeningTurns` state what it becomes after a turn and after k turns.

## Model

| member | source | states |
|---|---|---|
| Cells.DistinctColorsAreOpposite | Othello.py:224-229 | the two colours are each other's opposite, which is how UpdateFrom pairs swapfrom with swapto |
| Geometry.DirectionOf | Othello.py:4-12 | the t-th direction of the loop is the one whose enum value is t, for t in 0..7 |
| Geometry.Delta | Othello.py:235-258 | one step in each direction moves at most one row and one column and never stands still; the same table serves the walk (266-294), the first step of change (310-341) and the flip loop (368-385) |
| Geometry.DeltaInjective | Othello.py:235-258 | the eight directions step in eight different ways |
| Geometry.PosDistinct | Othello.py:265-294 | a walk never revisits a square, and never returns to its origin |
| Geometry.RaysDisjoint | Othello.py:232-294 | past its origin, a square lies on only one of the eight rays, at only one step count |
| Geometry.RayConvex | Othello.py:265 | a ray square between two on-board squares of that ray is on the board |
| Boards.Place | Othello.py:47-66 | success exactly when row and column are below the size, the colour is Black or White and the square is empty; the failure is InvalidPosition, then InvalidColor, then OccupiedCell, in the source's check order; only the target square changes |
| Boards.FlipPiece | Othello.py:75-79 | an occupied square turns to the opposite colour and nothing else changes; an empty square fails with EmptyCell, and an index past the edge with InvalidPosition |
| Boards.FlipTwiceRestores | Othello.py:75-76 | flipping the same square twice restores the board |
| Boards.NewBoard | Othello.py:21-35 | an odd size fails with OddSize and size 0 fails on the first placement; otherwise exactly the four centre squares are seeded, Black on the main diagonal and White on the other |
| Boards.NewBoardCount | Othello.py:28-35 | a new board has two Black pieces, two White pieces and N²−4 empty squares |
| Boards.SetCount | Othello.py:61-63 | writing one square changes each colour's count by exactly the change at that square |
| Boards.CountPartition | Othello.py:26 | empty, Black and White counts add up to N² |
| Players.NewPlayer | Othello.py:99-102 | a player needs colour Black or White, else InvalidColor, and keeps the given score |
| Players.IncreaseScore | Othello.py:105-112 | raising the score keeps the player's colour; the per-flip arithmetic is stated by Players.TransferMovesOnePoint |
| Players.DecreaseScore | Othello.py:114-121 | lowering the score keeps the player's colour; the per-flip arithmetic is stated by Players.TransferMovesOnePoint |
| Players.Transfer | Othello.py:357-359 | the score update of one flip keeps the number of players and each player's colour |
| Players.TransferMovesOnePoint | Othello.py:357-359 | per flip the holder of the flipping colour gains one point, the other player loses one, and the total is unchanged |
| Games.NewGame | Othello.py:134-139 | anything but two players fails with WrongPlayerCount before the board is built; on success the first player moves first and the board is the seeded one |
| Games.ScanRun | Othello.py:262-294 | the walk stops at the first square that is off the board or does not hold the colour walked over; every square before it holds that colour |
| Games.FlipRun | Othello.py:362-385 | the flip loop keeps the game valid and keeps each player's colour, the turn and the board size; an empty range changes nothing |
| Games.Change | Othello.py:310-360 | a start or end square off the board fails with InvalidPosition; on success the game stays valid and keeps each player's colour, the turn and the board size |
| Games.ChangeSinglePiece | Othello.py:355-360 | when start and end coincide, an occupied square turns to the opposite colour, one point moves to the holder of the given colour, and nothing else changes; an empty square fails with EmptyCell |
| Games.ResolveDirection | Othello.py:296-297 | a direction whose run is not bracketed leaves the game untouched |
| Games.ResolveFrom | Othello.py:232-298 | the direction loop keeps the game valid, keeps each player's colour, the turn and the board size, and past the last direction returns the game unchanged |
| Games.UpdateFrom | Othello.py:215-221 | an empty colour fails with InvalidColor, and an off-board square with InvalidPosition |
| Games.PlaceAndCredit | Othello.py:193-195 | placement succeeds exactly on an empty on-board square and puts the mover's colour there; the mover gains one point; nothing else changes |
| Games.TakeTurn | Othello.py:193-199 | an off-board square fails with InvalidPosition and an occupied one with OccupiedCell; a completed turn passes the move to the other player, who holds the other colour |
| Games.NextTurn | Othello.py:199 | passing the turn moves the index to the other player and keeps players and board |
| Games.WhosTurn | Othello.py:388-389 | the colour of the player at the turn index, which is the opposite of the other player's colour |
| Games.TurnsAlternate | Othello.py:199 | after an even number of turns the turn index is back where it started, after an odd number it has moved to the other player |
| Games.OpeningTurns | Othello.py:137-199 | from a new game, after k turns it is the turn of player k mod 2, and WhosTurn gives that player's colour |
| Capture.ScansAgree | Othello.py:265-297 | a direction's walk, bracket test and captured squares depend only on that direction's ray |
| Capture.RunOwner | Othello.py:232-297 | a square on one direction's ray is never captured by another direction |
| Capture.CapturedHeldOpponent | Othello.py:75-79 | every captured square holds the opponent's colour, so FlipPiece never meets an empty square |
| Capture.BracketNotCaptured | Othello.py:363 | the bracketing square is never among the captured squares |
| Capture.FlipRunBoard | Othello.py:362-385 | over an opponent run, the flip loop turns exactly the squares from the start up to but not including the end, and nothing else |
| Capture.FlipRunScores | Othello.py:364-367 | over an opponent run, the flip loop moves one point per flipped square from the opponent to the flipping colour |
| Capture.ChangeFlipsRun | Othello.py:310-385 | when start and end differ and the squares from the start up to the end hold the opponent's colour, change succeeds, turns exactly those squares to the given colour, leaves every other square alone, and moves one point per flipped square |
| Capture.ResolveFromResolved | Othello.py:232-297 | the sequential direction loop turns exactly the squares the order-independent reference captures |
| Capture.UpdateFromCaptures | Othello.py:215-297 | for the mover's colour, UpdateFrom succeeds, turns exactly the captured squares, moves one point per flipped piece and keeps scores equal to piece counts |
| Capture.PlacementInvisibleToScan | Othello.py:194-197 | placing at the origin does not change what the scan from that origin captures |
| Capture.TakeTurnBoard | Othello.py:193-197 | after a turn on an empty square, the placed square and the captured squares hold the mover's colour; every other square is unchanged |
| Capture.TakeTurnScores | Othello.py:193-197 | the mover gains one point plus one per flip; the opponent loses one per flip |
| Capture.TakeTurnKeepsScoresMatched | Othello.py:193-197 | a turn keeps every score equal to the number of squares of that player's colour |
| Capture.PermissivePlacement | Othello.py:193-197 | a placement that brackets nothing is accepted: only the placed square changes and only the mover's score moves, by one |
| Capture.BracketKept | Othello.py:296-297 | the piece that brackets a run keeps the mover's colour through the turn |
| Capture.NewGameScoresMatch | Othello.py:92-139 | players created with the default score of 2 match the new board's piece counts |
| Capture.ScoreSumIsPieceCount | Othello.py:92-121 | while scores match piece counts, the scores add up to the number of pieces, N² minus the empty squares |
| Capture.PlayKeepsScoresMatched | Othello.py:184-199 | over any sequence of successful turns, scores keep matching piece counts |
| Scenarios.PermissiveOpening | Othello.py:28-35 | on the 8×8 opening, Black at (2,3) captures nothing; only (2,3) changes, and the scores become Black 3, White 2 |
| Scenarios.CaptureOpening | Othello.py:28-35 | on the 8×8 opening, Black at (2,4) flips only (3,4); the scores become Black 4, White 1 |

## Left out

- Console output is not modelled: `Game.PrintBoard`, `Game.PrintScores`, and the printing at the end of `TakeTurn`.
- `Board.GetBoardState` is not modelled; it only returns the grid, and the model reads the grid directly.
- `index.py`, the console driver, is not part of this model.
- The `turncount` field is never updated by the engine and is left out.
- Board storage: numpy floats 1.0 / −1.0 / 0.0 become the `Cell` values Black / White / Empty.
- Colours: the engine's colour strings and their upper-casing (`'b'` is accepted as Black) become the `Cell` values. For `Board.Place`, `Player.__init__` and `Game.UpdateFrom`, a string of the wrong length or letter is modelled by passing `Empty`.
- Boards.Place: row and column are natural numbers. Python's negative indices, which numpy wraps around to the far edge, are not modelled.
- Boards.FlipPiece: an index past the edge makes numpy raise `IndexError`. It is modelled as the InvalidPosition error. Negative indices are not modelled.
- Boards.NewBoard: the size is a natural number, so negative sizes are not modelled. The engine rejects an odd negative size such as −1 with the odd-size error, because −1 % 2 is 1 in Python. An even negative size such as −2 fails when numpy refuses to build an array with negative dimensions. `Games.NewGame` passes its size through and inherits the same limit.
- Games.UpdateFrom: row and column are natural numbers, so the source's `row < 0` checks cannot fire.
- Games.Change: the end square is given as a step count along the direction. That is the only form `UpdateFrom` produces. A call with an end square off that ray, where the source loop would run past the board, is not modelled. The colour is typed `Color`, so the raise for a colour other than Black or White (Othello.py:351-352) is not modelled. The only caller passes `players[whos_turn].color` (Othello.py:297), which `Player.__init__` has already checked (Othello.py:99-101). `Games.FlipRun` takes a `Color` for the same reason.
- Games.NewGame: requires the two players to hold different colours. The engine accepts two players of the same colour. In such a game every flip would credit both players, and the score properties do not hold.
- Games.Valid: every operation on a game assumes two players of distinct colours and a turn index of 0 or 1, as the engine's constructor sets them up.
- Capture.UpdateFromCaptures: stated only for the colour of the player whose turn it is. `TakeTurn` always calls `UpdateFrom` that way. The bracket test uses the colour argument, but `change` credits `players[whos_turn]`.
- Failures: an error returns `Failure` and discards the partial state, whereas the engine raises after mutating. A raise can follow a mutation in two places. The first is `UpdateFrom`, after `TakeTurn` has placed a piece and scored it. The second is the flip loop of `change`, when a later square of the run is empty (Othello.py:363-364, 78): the earlier squares are already flipped and scored. `Capture.UpdateFromCaptures` and `Capture.ChangeFlipsRun` show that neither happens when `TakeTurn` drives them.
- Default arguments are always passed explicitly: Player score 2, Game size 4, and increments of 1.

### The 8×8 opening

The engine seeds Black on (mid, mid) and (mid−1, mid−1), and White on the other two centre squares (Othello.py:30-35). On an 8×8 board (3,3) therefore already holds Black. So Black at (2,3) brackets nothing (`Scenarios.PermissiveOpening`), and Black at (2,4) flips (3,4) (`Scenarios.CaptureOpening`).

`Game.__init__` defaults to size 4 (Othello.py:126). The console driver passes 8 (index.py:19).
