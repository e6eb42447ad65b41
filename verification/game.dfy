/**
 * The game object: it owns one board and a turn flag, validates and executes
 * moves through the board, and answers the game-over and winner queries.
 */
module Games {
  import opened Pieces
  import opened Rules
  import opened Boards
  import opened GameRules

  class Game {
    const board: Board
    var isPlayerOneTurn: bool

    /** The board is 8x8 and every piece stands on a dark square. */
    ghost predicate Valid()
      reads this, board.grid
    {
      board.Valid() && DarkSquaresOnly(board.Cells())
    }

    ghost function State(): (st: GameState)
      requires board.Valid()
      reads this, board.grid
    {
      GameState(board.Cells(), isPlayerOneTurn)
    }

    constructor ()
      ensures Valid() && fresh(board) && fresh(board.grid)
      ensures State() == NewGame()
    {
      board := new Board();
      isPlayerOneTurn := true;
      new;
      InitialLayout();
    }

    method IsGameOver() returns (over: bool)
      requires Valid()
      ensures over == GameOver(State())
      ensures over <==> !HasAnyMove(board.Cells(), true) || !HasAnyMove(board.Cells(), false)
    {
      var moves := board.PlayerHasMoves(isPlayerOneTurn);
      var otherMoves := board.PlayerHasMoves(!isPlayerOneTurn);
      var pieces := board.HasPieces(isPlayerOneTurn);
      var otherPieces := board.HasPieces(!isPlayerOneTurn);
      over := !moves || !otherMoves || !pieces || !otherPieces;
      GameOverIffSomeSideStuck(State());
    }

    /** Validates the move for the side to move and, if it is valid, executes
      * it and either keeps or passes the turn. */
    method MakeMove(sr: int, sc: int, er: int, ec: int) returns (ok: bool)
      requires Valid() && InBounds(sr, sc) && InBounds(er, ec)
      modifies this, board.grid
      ensures Valid()
      ensures ok == Accepts(old(State()), sr, sc, er, ec)
      ensures State() == if ok then AfterMove(old(State()), sr, sc, er, ec) else old(State())
    {
      ghost var st := State();
      ok := board.IsValidMove(sr, sc, er, ec, isPlayerOneTurn);
      if ok {
        ValidMoveIsDiagonal(st.grid, sr, sc, er, ec, isPlayerOneTurn);
        AfterMoveConsistent(st, sr, sc, er, ec);
        board.MovePiece(sr, sc, er, ec);
        if Abs(er - sr) == 2 {
          var more := board.CanCapture(er, ec, isPlayerOneTurn);
          if more {
            return true;
          }
        }
        isPlayerOneTurn := !isPlayerOneTurn;
        return true;
      }
      return false;
    }

    /** The board, for the caller to render; it is the game's own board. */
    function GetBoard(): (b: Board)
      requires Valid()
      reads this, board.grid
      ensures b == board && b.Valid()
    {
      board
    }

    function IsPlayerOneTurn(): (t: bool)
      requires board.Valid()
      reads this, board.grid
      ensures t == State().isPlayerOneTurn
    {
      isPlayerOneTurn
    }

    method GetWinner() returns (w: string)
      requires Valid()
      ensures w == Winner(board.Cells())
      ensures w != NoWinnerYet <==> GameOver(State())
    {
      WinnerNamedIffGameOver(State());
      var pieces := board.HasPieces(true);
      if !pieces {
        return PlayerTwoWins;
      }
      var otherPieces := board.HasPieces(false);
      if !otherPieces {
        return PlayerOneWins;
      }
      var moves := board.PlayerHasMoves(true);
      if !moves {
        return PlayerTwoWins;
      }
      var otherMoves := board.PlayerHasMoves(false);
      if !otherMoves {
        return PlayerOneWins;
      }
      return NoWinnerYet;
    }
  }

  /** A game is created, PlayerOne makes the opening move (2,1) to (3,2), and
    * the turn passes to PlayerTwo; a vertical move is refused and changes nothing. */
  method OpeningClient()
  {
    var game := new Game();
    OpeningMoves();
    var refused := game.MakeMove(2, 1, 3, 1);
    assert !refused && game.State() == NewGame();
    var ok := game.MakeMove(2, 1, 3, 2);
    assert ok && !game.IsPlayerOneTurn();
  }
}
