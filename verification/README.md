# Checkers rules engine — a verified Dafny model

This project models the rules engine of a two-player checkers game on an 8×8 board
(`Checkers_game/Board.cs` and `Checkers_game/Game.cs`). It covers the parts of the engine
that decide things: the starting layout, the legality of a move, how a move is executed
(relocation, promotion, capture), the aggregate board queries, the turn protocol, and the
game-over and winner queries.

Modules, leaves first:

- `Pieces` (`pieces.dfy`): a piece is a side (`isPlayerOne`) and a king flag. A square is
  `Empty` or `Holds(piece)`, which replaces the nullable `Piece?` cell. Promotion sets the
  king flag.
- `Rules` (`rules.dfy`): the rules as pure functions over a grid value `seq<seq<Square>>`.
  `ValidMove` is the legality predicate. `Move` gives the grid after a move. `HasAnyPiece`,
  `HasAnyMove`, `PieceCanMove` and `PieceCanJump` are the aggregate queries. The lemmas
  state what the rules guarantee.
- `Boards` (`board.dfy`): class `Board` over an `array2<Square>` updated in place. Each
  method is proved against `Rules`. A query returns exactly its predicate on the current
  grid, and `MovePiece` leaves exactly `Rules.Move` of the old grid.
- `GameRules` (`game_rules.dfy`): the game as a pure state machine. A `GameState` is a grid
  plus a turn flag. `Accepts` and `AfterMove` describe one `MakeMove`; `GameOver` and
  `Winner` describe the derived queries.
- `Games` (`game.dfy`): class `Game`, which owns a board and the turn flag. Its invariant
  `Valid()` says that every piece stands on a dark square. The constructor establishes
  it and `MakeMove` preserves it.

Behaviour of the code that the model keeps and states as lemmas:

- A king's move is legal only when every inner square of its diagonal is empty. The
  midpoint test at `Board.cs:95-103` returns true on both branches, so it is dead: the
  code never lets a king pass over or capture a piece (`Rules.KingMoveCapturesNothing`).
- `MakeMove` treats every move that spans two rows as a capture. After such a move, the
  mover keeps the turn whenever the landed piece has any valid two-square move. Three cases
  follow:
  - Every accepted two-row king move keeps the turn, because the king can always slide
    back (`GameRules.KingLandingKeepsTurn`). A king's two-square slide captures nothing,
    yet it keeps the turn (`GameRules.KingSlideKeepsTurn`). A side keeps the turn
    for as long as it moves a king two rows at a time.
  - A man whose jump crowns it always keeps the turn, even when no piece is left to
    capture (`GameRules.KingLandingKeepsTurn`, `GameRules.CrowningJumpKeepsTurn`).
  - Only a man that stays uncrowned keeps the turn by having another capture open
    (`GameRules.ManKeepsTurnOnlyWhenChainingCaptures`).
  The comments at `Game.cs:36` and `Game.cs:44` speak of continuing a capture. The model
  follows the code.
- A player may make a plain move even when a capture is available elsewhere. After a
  two-row move the side only keeps the turn: nothing forces its next move to be a capture
  or to use the piece that just moved (`GameRules.KeptTurnAllowsAnyMove`).

## Model

| member | source | states |
|---|---|---|
| `Pieces.NewPiece` | Checkers_game/Board.cs:25 | a new piece has the given side and is not a king |
| `Pieces.PromoteToKing` | Checkers_game/Board.cs:122-125 | promotion makes the piece a king and keeps its side |
| `Rules.InitialLayout` | Checkers_game/Board.cs:17-38 | rows 0–2 hold PlayerOne men on squares with (row+col) odd; rows 5–7 hold PlayerTwo men on those squares; every other square, including all of rows 3–4, is empty; pieces stand only on dark squares |
| `Rules.RejectsForeignStartOrOccupiedTarget` | Checkers_game/Board.cs:43-51 | a move is invalid when the start square is empty or holds the other side's piece, or when the target square is occupied |
| `Rules.ManMoveShape` | Checkers_game/Board.cs:56-77 | a man's move is valid iff it is one diagonal step forward (rows up for PlayerOne, down for PlayerTwo) or a two-square diagonal jump in any direction whose midpoint holds an opposing piece |
| `Rules.KingMoveShape` | Checkers_game/Board.cs:79-106 | a king's move is valid iff the target is empty, the row distance equals the column distance and is at least one, and every inner square of the diagonal is empty |
| `Rules.ValidMoveIsDiagonal` | Checkers_game/Board.cs:60-82 | every valid move is diagonal by at least one square, keeps the (row+col) parity, and satisfies what executing it needs |
| `Rules.FirstCaptured` | Checkers_game/Board.cs:134-146 | the index found is the first one on the path that holds an opposing piece, and none before it does; when nothing is found, no path square holds an opposing piece |
| `Rules.CaptureSeesOriginalPath` | Checkers_game/Board.cs:117-141 | moving the piece first does not change which piece the path scan finds: the scan sees the path squares of the grid before the move |
| `Rules.CaptureIsFirstOpponent` | Checkers_game/Board.cs:128-147 | the removed piece is the first opposing piece on the path of the grid before the move, strictly between start and target; when none is removed, the path holds no opposing piece |
| `Rules.MoveRelocates` | Checkers_game/Board.cs:117-125 | after a move the start square is empty and the target holds the mover, with the same side, crowned iff it was a king already or landed on row 7 (PlayerOne) or row 0 (PlayerTwo); a king is never demoted |
| `Rules.MoveChangesOnlyCapturedSquare` | Checkers_game/Board.cs:128-147 | apart from start and target, every square keeps its contents except the single captured square, which becomes empty: at most one piece is removed |
| `Rules.ManCaptureTakesMidpoint` | Checkers_game/Board.cs:128-147 | a man's valid two-row jump removes exactly the opposing piece on the midpoint |
| `Rules.KingMoveCapturesNothing` | Checkers_game/Board.cs:86-106 | a king's valid move removes no piece: the grid after it is the start emptied and the target filled |
| `Rules.MovePreservesDarkSquares` | Checkers_game/Board.cs:115-147 | a diagonal move keeps every piece on a dark square |
| `Rules.MovesNeedPieces` | Checkers_game/Board.cs:153-168 | a side that has a move has a piece |
| `Rules.ScanFindsMoveOf` | Checkers_game/Board.cs:171-194 | every valid move of a piece is found by the scan of offsets {-1,1,-2,2}²: a king sliding farther can also take the first step |
| `Rules.ScanFindsEveryMove` | Checkers_game/Board.cs:153-194 | the board-wide scan reports a move iff the side has some valid move anywhere on the board |
| `Rules.JumpScanMeansTwoSquareMove` | Checkers_game/Board.cs:212-238 | the jump scan holds iff some two-square diagonal move from the square is valid |
| `Boards.Board.constructor` | Checkers_game/Board.cs:10-14 | a new board is 8×8 and holds the starting layout |
| `Boards.Board.InitializeBoard` | Checkers_game/Board.cs:17-38 | filling an empty grid row by row yields the starting layout |
| `Boards.Board.IsValidMove` | Checkers_game/Board.cs:41-110 | returns exactly the legality predicate on the current grid, path loop and dead midpoint test included |
| `Boards.Board.MovePiece` | Checkers_game/Board.cs:115-148 | the grid afterwards is the old grid with the piece relocated, crowned on its far rank and, for a move of more than one row, the first opposing piece on its path removed (the loop stops at the first one) |
| `Boards.Board.SetSquare` | Checkers_game/Board.cs:117-119 | storing a square changes that square and no other |
| `Boards.Board.ClearIfOpponent` | Checkers_game/Board.cs:136-145 | one step of the capture scan: it empties the square and reports true iff the square held an opposing piece; otherwise the grid is unchanged |
| `Boards.Board.RemoveFirstOpponent` | Checkers_game/Board.cs:128-147 | the grid afterwards is the old grid with the first opposing piece on the path emptied, and nothing else changed; without such a piece the grid is unchanged |
| `Rules.FirstCapturedSkips` | Checkers_game/Board.cs:134-146 | a path square without an opposing piece does not end the scan: the search continues at the next index |
| `Boards.Board.HasPieces` | Checkers_game/Board.cs:197-209 | true iff some square holds a piece of the side |
| `Boards.Board.PlayerHasMoves` | Checkers_game/Board.cs:153-168 | true iff some piece of the side has an on-board offset in {-1,1,-2,2}² that is a valid move |
| `Boards.Board.CanMoveOrCapture` | Checkers_game/Board.cs:171-194 | true iff some on-board offset in {-1,1,-2,2}² from the square is a valid move |
| `Boards.Board.CanCapture` | Checkers_game/Board.cs:212-238 | true iff some on-board offset in {-2,2}² from the square is a valid move |
| `Boards.Board.TryOffsets` | Checkers_game/Board.cs:177-193 | true iff some pair of offsets from the given list lands on the board with a valid move |
| `Boards.Board.TryColumnOffsets` | Checkers_game/Board.cs:179-191 | for a fixed row offset, true iff some column offset from the list lands on the board with a valid move |
| `GameRules.AcceptedMoveProtocol` | Checkers_game/Game.cs:28-46 | an accepted move executes the move on the grid; the turn stays iff the move spanned exactly two rows and the landed piece can make a two-square move, and flips otherwise |
| `GameRules.ManKeepsTurnOnlyWhenChainingCaptures` | Checkers_game/Game.cs:34-45 | when an uncrowned man keeps the turn, its move captured the jumped piece and another jump over an opposing piece is open from its landing square |
| `GameRules.AfterMoveConsistent` | Checkers_game/Game.cs:28-46 | an accepted move keeps every piece on a dark square |
| `GameRules.GameOverIffSomeSideStuck` | Checkers_game/Game.cs:17-22 | game over does not depend on whose turn it is, and holds iff one of the sides has no move |
| `GameRules.WinnerNamedIffGameOver` | Checkers_game/Game.cs:60-74 | the winner query names a winner iff the game is over; its answer is one of the three messages |
| `GameRules.EliminatedSideLoses` | Checkers_game/Game.cs:60-65 | PlayerOne without pieces: game over, "Player 2 wins!"; PlayerTwo without pieces while PlayerOne has some: game over, "Player 1 wins!" |
| `GameRules.StuckSideLoses` | Checkers_game/Game.cs:67-73 | with pieces on both sides: PlayerOne without a move gives "Player 2 wins!", else PlayerTwo without a move gives "Player 1 wins!", else "No winner yet!" |
| `GameRules.NewGameIsOpen` | Checkers_game/Game.cs:10-14 | a new game holds the starting layout with PlayerOne to move, keeps pieces on dark squares, is not over and has no winner |
| `GameRules.OpeningMoves` | Checkers_game/Game.cs:25-50 | from the start, (2,1)→(3,2) is accepted and passes the turn; the vertical move (2,1)→(3,1) is refused |
| `GameRules.CaptureScenario` | Checkers_game/Game.cs:28-31 | a PlayerOne man on (3,2) jumping a PlayerTwo man on (4,3) lands on (5,4) and removes it |
| `GameRules.KeptTurnAllowsAnyMove` | Checkers_game/Game.cs:25-45 | a man's jump that keeps the turn does not bind the next move: another man of the same side may then make a plain step |
| `Games.OpeningClient` | Checkers_game/Game.cs:25-50 | on a new game object, the vertical move (2,1)→(3,1) is refused and leaves the state as new; the move (2,1)→(3,2) is then accepted and passes the turn to PlayerTwo |
| `GameRules.KingSlideKeepsTurn` | Checkers_game/Game.cs:34-41 | a king's plain two-square slide captures nothing, yet it keeps the turn |
| `GameRules.KingLandingKeepsTurn` | Checkers_game/Game.cs:34-41 | after any accepted two-row move whose piece lands as a king (a king, or a man crowned by the move), the side keeps the turn: the jump scan always finds the slide back |
| `GameRules.CrowningJumpKeepsTurn` | Checkers_game/Game.cs:34-41 | a PlayerOne man that jumps the last PlayerTwo piece and is crowned keeps the turn, although PlayerTwo has no piece left |
| `Games.Game.constructor` | Checkers_game/Game.cs:10-14 | a new game owns a fresh board with the starting layout, and PlayerOne moves first |
| `Games.Game.MakeMove` | Checkers_game/Game.cs:25-50 | returns true iff the move is valid for the side to move; a refused move changes neither the board nor the turn; an accepted one applies the move and keeps or flips the turn as the protocol says; the dark-square invariant is kept |
| `Games.Game.IsGameOver` | Checkers_game/Game.cs:17-22 | true iff either side lacks a move or a piece, which is iff either side lacks a move |
| `Games.Game.GetWinner` | Checkers_game/Game.cs:60-74 | returns the winner by the ordered checks (pieces of PlayerOne, of PlayerTwo, then moves of PlayerOne, of PlayerTwo), and names a winner iff the game is over |
| `Games.Game.GetBoard` | Checkers_game/Game.cs:54 | returns the game's own board object, which is 8×8 |
| `Games.Game.IsPlayerOneTurn` | Checkers_game/Game.cs:57 | returns the turn flag of the current state |

## Left out

- `CheckersConsoleApp/Program.cs` is not part of this model. It is the console shell: the
  game loop, board rendering and move input. Its one caller-side duty, keeping coordinates
  in `[0,7]`, becomes the `InBounds` preconditions.
- The `Console.WriteLine` in `MakeMove` (`Game.cs:39`) is left out. It prints a message
  and changes no state.
- The `Piece` class is not part of this model. Only its side, its king flag and
  `PromoteToKing` are used. `Type`/`PieceType`, used only for rendering, is left out.
- Out-of-range coordinates are excluded by preconditions instead of modelling the
  runtime's index exceptions.
- `MovePiece` requires a piece on the start square and a scanned path on the board
  (`Rules.MoveAllowed`). Every validated move meets this (`Rules.ValidMoveIsDiagonal`).
  The null-piece paths at `Board.cs:122-141` are not modelled.
- Pieces are values, not objects. `Board.cs:117-125` promotes the piece object after storing
  it on the target square; the model crowns it before storing. This gives the same grid,
  because that object is referenced only from the target square.
- `start + i * step` with `step` = ±1 is written `Toward(start, end, i)` = `start ± i`.
- `IsGameOver` evaluates all four board queries instead of short-circuiting. The queries
  change nothing, so the result is the same.
