/**
 * The game as a pure state machine: a grid and whose turn it is.
 *
 * `Accepts` and `AfterMove` describe one call of `MakeMove`; `GameOver` and
 * `Winner` the two derived queries. The lemmas state the turn protocol, the
 * invariant a move keeps, and how game over and the winner relate.
 */
module GameRules {
  import opened Pieces
  import opened Rules

  datatype GameState = GameState(grid: Grid, isPlayerOneTurn: bool)

  ghost predicate Consistent(st: GameState)
  {
    WellFormed(st.grid) && DarkSquaresOnly(st.grid)
  }

  /** A new game: the starting layout, PlayerOne to move. */
  function NewGame(): (st: GameState)
    ensures WellFormed(st.grid)
  {
    GameState(InitialGrid(), true)
  }

  /** `MakeMove` accepts a move exactly when it is valid for the side to move. */
  predicate Accepts(st: GameState, sr: int, sc: int, er: int, ec: int)
    requires WellFormed(st.grid) && InBounds(sr, sc) && InBounds(er, ec)
  {
    ValidMove(st.grid, sr, sc, er, ec, st.isPlayerOneTurn)
  }

  /** Whether the side that just moved keeps the turn: after a move spanning
    * two rows, when the piece on the target can make a two-square move. */
  predicate KeepsTurn(g: Grid, sr: int, er: int, ec: int, isPlayerOne: bool)
    requires WellFormed(g) && InBounds(er, ec)
  {
    Abs(er - sr) == 2 && PieceCanJump(g, er, ec, isPlayerOne)
  }

  /** The state after an accepted move. */
  function AfterMove(st: GameState, sr: int, sc: int, er: int, ec: int): (st': GameState)
    requires WellFormed(st.grid) && InBounds(sr, sc) && InBounds(er, ec)
    requires Accepts(st, sr, sc, er, ec)
    ensures WellFormed(st'.grid)
  {
    ValidMoveIsDiagonal(st.grid, sr, sc, er, ec, st.isPlayerOneTurn);
    var g' := Move(st.grid, sr, sc, er, ec);
    GameState(g', if KeepsTurn(g', sr, er, ec, st.isPlayerOneTurn) then st.isPlayerOneTurn else !st.isPlayerOneTurn)
  }

  ghost predicate GameOver(st: GameState)
    requires WellFormed(st.grid)
  {
    var g, t := st.grid, st.isPlayerOneTurn;
    !HasAnyMove(g, t) || !HasAnyMove(g, !t) || !HasAnyPiece(g, t) || !HasAnyPiece(g, !t)
  }

  const PlayerOneWins: string := "Player 1 wins!"
  const PlayerTwoWins: string := "Player 2 wins!"
  const NoWinnerYet: string := "No winner yet!"

  /** The winner, by the checks in order: pieces before moves, PlayerOne before PlayerTwo. */
  ghost function Winner(g: Grid): string
    requires WellFormed(g)
  {
    if !HasAnyPiece(g, true) then PlayerTwoWins
    else if !HasAnyPiece(g, false) then PlayerOneWins
    else if !HasAnyMove(g, true) then PlayerTwoWins
    else if !HasAnyMove(g, false) then PlayerOneWins
    else NoWinnerYet
  }

  // ---------------------------------------------------------------------
  // The turn protocol
  // ---------------------------------------------------------------------

  /** An accepted move executes the move on the grid; the turn stays with the
    * mover exactly when the move spanned two rows and the landed piece can
    * make a further two-square move, and passes otherwise. */
  lemma AcceptedMoveProtocol(st: GameState, sr: int, sc: int, er: int, ec: int)
    requires WellFormed(st.grid) && InBounds(sr, sc) && InBounds(er, ec)
    requires Accepts(st, sr, sc, er, ec)
    ensures MoveAllowed(st.grid, sr, sc, er, ec)
    ensures AfterMove(st, sr, sc, er, ec).grid == Move(st.grid, sr, sc, er, ec)
    ensures var st' := AfterMove(st, sr, sc, er, ec);
      (st'.isPlayerOneTurn == st.isPlayerOneTurn) <==>
        (Abs(er - sr) == 2 && PieceCanJump(st'.grid, er, ec, st.isPlayerOneTurn))
  {
    ValidMoveIsDiagonal(st.grid, sr, sc, er, ec, st.isPlayerOneTurn);
  }

  /** For a man that is not crowned by its move, keeping the turn means the
    * move captured the piece it jumped and another jump over an opposing
    * piece is open from the landing square. */
  lemma ManKeepsTurnOnlyWhenChainingCaptures(st: GameState, sr: int, sc: int, er: int, ec: int)
    requires WellFormed(st.grid) && InBounds(sr, sc) && InBounds(er, ec)
    requires Accepts(st, sr, sc, er, ec)
    requires !st.grid[sr][sc].piece.isKing
    requires AfterMove(st, sr, sc, er, ec).grid[er][ec].Holds?
    requires !AfterMove(st, sr, sc, er, ec).grid[er][ec].piece.isKing
    requires AfterMove(st, sr, sc, er, ec).isPlayerOneTurn == st.isPlayerOneTurn
    ensures MoveAllowed(st.grid, sr, sc, er, ec)
    ensures Captured(st.grid, sr, sc, er, ec) == Some(1)
    ensures var g' := AfterMove(st, sr, sc, er, ec).grid;
      exists er2, ec2 :: InBounds(er2, ec2) && Abs(er2 - er) == 2 && Abs(ec2 - ec) == 2
        && ValidMove(g', er, ec, er2, ec2, st.isPlayerOneTurn)
        && IsOpponent(g'[(er + er2) / 2][(ec + ec2) / 2], st.isPlayerOneTurn)
  {
    var side := st.isPlayerOneTurn;
    ValidMoveIsDiagonal(st.grid, sr, sc, er, ec, side);
    ManCaptureTakesMidpoint(st.grid, sr, sc, er, ec, side);
    var g' := Move(st.grid, sr, sc, er, ec);
    MoveRelocates(st.grid, sr, sc, er, ec);
    JumpScanMeansTwoSquareMove(g', er, ec, side);
    var er2, ec2 :| InBounds(er2, ec2) && Abs(er2 - er) == 2 && Abs(ec2 - ec) == 2 && ValidMove(g', er, ec, er2, ec2, side);
    assert IsOpponent(g'[(er + er2) / 2][(ec + ec2) / 2], side);
  }

  /** A piece that lands as a king after a two-row move always keeps the
    * turn: its start square and the square it passed over are both empty
    * afterwards, so it can slide straight back. This holds for every king and
    * for every man crowned by its jump, whether or not a capture is left. */
  lemma KingLandingKeepsTurn(st: GameState, sr: int, sc: int, er: int, ec: int)
    requires WellFormed(st.grid) && InBounds(sr, sc) && InBounds(er, ec)
    requires Accepts(st, sr, sc, er, ec) && Abs(er - sr) == 2
    requires Landed(st.grid[sr][sc].piece, er).isKing
    ensures AfterMove(st, sr, sc, er, ec).isPlayerOneTurn == st.isPlayerOneTurn
  {
    var side, g := st.isPlayerOneTurn, st.grid;
    ValidMoveIsDiagonal(g, sr, sc, er, ec, side);
    var g' := Move(g, sr, sc, er, ec);
    MoveRelocates(g, sr, sc, er, ec);
    var mr, mc := (sr + er) / 2, (sc + ec) / 2;
    assert Toward(sr, er, 1) == mr && Toward(sc, ec, 1) == mc;
    if g[sr][sc].piece.isKing {
      KingMoveCapturesNothing(g, sr, sc, er, ec, side);
      assert PathSquare(g, sr, sc, er, ec, 1).Empty?;
      MoveChangesOnlyCapturedSquare(g, sr, sc, er, ec, mr, mc);
    } else {
      ManCaptureTakesMidpoint(g, sr, sc, er, ec, side);
    }
    assert Toward(er, sr, 1) == mr && Toward(ec, sc, 1) == mc;
    assert PathSquare(g', er, ec, sr, sc, 1).Empty?;
    assert ValidMove(g', er, ec, sr, sc, side);
    JumpScanMeansTwoSquareMove(g', er, ec, side);
  }

  /** A move keeps every piece on a dark square. */
  lemma AfterMoveConsistent(st: GameState, sr: int, sc: int, er: int, ec: int)
    requires Consistent(st) && InBounds(sr, sc) && InBounds(er, ec)
    requires Accepts(st, sr, sc, er, ec)
    ensures Consistent(AfterMove(st, sr, sc, er, ec))
  {
    ValidMoveIsDiagonal(st.grid, sr, sc, er, ec, st.isPlayerOneTurn);
    MovePreservesDarkSquares(st.grid, sr, sc, er, ec);
  }

  // ---------------------------------------------------------------------
  // Game over and the winner
  // ---------------------------------------------------------------------

  /** Game over does not depend on whose turn it is, and it holds exactly
    * when one of the two sides has no move (a side without pieces has none). */
  lemma GameOverIffSomeSideStuck(st: GameState)
    requires WellFormed(st.grid)
    ensures GameOver(st) == GameOver(st.(isPlayerOneTurn := !st.isPlayerOneTurn))
    ensures GameOver(st) <==> !HasAnyMove(st.grid, true) || !HasAnyMove(st.grid, false)
  {
    MovesNeedPieces(st.grid, true);
    MovesNeedPieces(st.grid, false);
  }

  /** A winner is named exactly when the game is over. */
  lemma WinnerNamedIffGameOver(st: GameState)
    requires WellFormed(st.grid)
    ensures Winner(st.grid) != NoWinnerYet <==> GameOver(st)
    ensures Winner(st.grid) in {PlayerOneWins, PlayerTwoWins, NoWinnerYet}
  {
    assert PlayerOneWins != NoWinnerYet && PlayerTwoWins != NoWinnerYet;
  }

  /** A side that has lost every piece has lost the game, whatever the moves. */
  lemma EliminatedSideLoses(st: GameState)
    requires WellFormed(st.grid)
    ensures !HasAnyPiece(st.grid, true) ==> GameOver(st) && Winner(st.grid) == PlayerTwoWins
    ensures HasAnyPiece(st.grid, true) && !HasAnyPiece(st.grid, false) ==>
      GameOver(st) && Winner(st.grid) == PlayerOneWins
  {
  }

  /** A side that still has pieces but no move loses, unless the other side
    * has no pieces at all (pieces are checked first). */
  lemma StuckSideLoses(st: GameState)
    requires WellFormed(st.grid)
    requires HasAnyPiece(st.grid, true) && HasAnyPiece(st.grid, false)
    ensures !HasAnyMove(st.grid, true) ==> Winner(st.grid) == PlayerTwoWins
    ensures HasAnyMove(st.grid, true) && !HasAnyMove(st.grid, false) ==> Winner(st.grid) == PlayerOneWins
    ensures HasAnyMove(st.grid, true) && HasAnyMove(st.grid, false) ==> Winner(st.grid) == NoWinnerYet
  {
  }

  // ---------------------------------------------------------------------
  // Scenarios
  // ---------------------------------------------------------------------

  /** A new game is consistent, PlayerOne moves first, and it is not over. */
  lemma NewGameIsOpen()
    ensures Consistent(NewGame()) && NewGame().isPlayerOneTurn
    ensures !GameOver(NewGame()) && Winner(NewGame().grid) == NoWinnerYet
  {
    var g := InitialGrid();
    InitialLayout();
    assert ReachableBy(g, 2, 1, MoveOffsets[1], MoveOffsets[1], true);
    assert Owns(g[2][1], true) && PieceCanMove(g, 2, 1, true);
    assert ReachableBy(g, 5, 0, MoveOffsets[0], MoveOffsets[1], false);
    assert Owns(g[5][0], false) && PieceCanMove(g, 5, 0, false);
    GameOverIffSomeSideStuck(NewGame());
  }

  /** From the start, (2,1) to (3,2) is accepted and passes the turn;
    * (2,1) to (3,1) is not diagonal and is refused. */
  lemma OpeningMoves()
    ensures Accepts(NewGame(), 2, 1, 3, 2)
    ensures !AfterMove(NewGame(), 2, 1, 3, 2).isPlayerOneTurn
    ensures !Accepts(NewGame(), 2, 1, 3, 1)
  {
    InitialLayout();
  }

  function EmptyGrid(): (g: Grid)
    ensures WellFormed(g) && forall r, c :: InBounds(r, c) ==> g[r][c].Empty?
  {
    seq(BoardSize, r => seq(BoardSize, c => Empty))
  }

  /** A PlayerOne man on (3,2) and a PlayerTwo man on (4,3): the jump to (5,4)
    * removes the PlayerTwo man. */
  lemma CaptureScenario()
    ensures var g := Put(Put(EmptyGrid(), 3, 2, Holds(NewPiece(true))), 4, 3, Holds(NewPiece(false)));
      var st := GameState(g, true);
      && Accepts(st, 3, 2, 5, 4)
      && AfterMove(st, 3, 2, 5, 4).grid[4][3].Empty?
      && AfterMove(st, 3, 2, 5, 4).grid[5][4] == Holds(NewPiece(true))
      && AfterMove(st, 3, 2, 5, 4).grid[3][2].Empty?
  {
    var g := Put(Put(EmptyGrid(), 3, 2, Holds(NewPiece(true))), 4, 3, Holds(NewPiece(false)));
    var st := GameState(g, true);
    assert Accepts(st, 3, 2, 5, 4);
    ManCaptureTakesMidpoint(g, 3, 2, 5, 4, true);
    MoveRelocates(g, 3, 2, 5, 4);
  }

  /** A PlayerOne king alone on (3,2) against a PlayerTwo man on (7,0): its
    * plain slide to (5,4) removes nothing, yet the turn stays with PlayerOne,
    * because every move spanning two rows counts as a capture and the king
    * can slide on to (7,6). */
  lemma KingSlideKeepsTurn()
    ensures var g := Put(Put(EmptyGrid(), 3, 2, Holds(Piece(true, true))), 7, 0, Holds(NewPiece(false)));
      var st := GameState(g, true);
      && Accepts(st, 3, 2, 5, 4)
      && Captured(g, 3, 2, 5, 4) == None
      && AfterMove(st, 3, 2, 5, 4).isPlayerOneTurn
  {
    var g := Put(Put(EmptyGrid(), 3, 2, Holds(Piece(true, true))), 7, 0, Holds(NewPiece(false)));
    var st := GameState(g, true);
    assert PathSquare(g, 3, 2, 5, 4, 1).Empty?;
    assert Accepts(st, 3, 2, 5, 4);
    KingMoveCapturesNothing(g, 3, 2, 5, 4, true);
    var g' := Move(g, 3, 2, 5, 4);
    MoveRelocates(g, 3, 2, 5, 4);
    MoveChangesOnlyCapturedSquare(g, 3, 2, 5, 4, 7, 6);
    MoveChangesOnlyCapturedSquare(g, 3, 2, 5, 4, 6, 5);
    assert PathSquare(g', 5, 4, 7, 6, 1).Empty?;
    assert ReachableBy(g', 5, 4, JumpOffsets[1], JumpOffsets[1], true);
  }

  /** A PlayerOne man on (3,2) jumps the PlayerTwo man on (4,3) and keeps the
    * turn, since the PlayerTwo man on (6,5) can be jumped next. Keeping the
    * turn binds nothing else: another PlayerOne man, on (0,1), may then make
    * a plain step to (1,2). */
  lemma KeptTurnAllowsAnyMove()
    ensures var g := Put(Put(Put(Put(EmptyGrid(), 3, 2, Holds(NewPiece(true))), 4, 3, Holds(NewPiece(false))),
                             6, 5, Holds(NewPiece(false))), 0, 1, Holds(NewPiece(true)));
      var st := GameState(g, true);
      && Accepts(st, 3, 2, 5, 4)
      && AfterMove(st, 3, 2, 5, 4).isPlayerOneTurn
      && Accepts(AfterMove(st, 3, 2, 5, 4), 0, 1, 1, 2)
  {
    var g := Put(Put(Put(Put(EmptyGrid(), 3, 2, Holds(NewPiece(true))), 4, 3, Holds(NewPiece(false))),
                     6, 5, Holds(NewPiece(false))), 0, 1, Holds(NewPiece(true)));
    var st := GameState(g, true);
    assert Accepts(st, 3, 2, 5, 4);
    ManCaptureTakesMidpoint(g, 3, 2, 5, 4, true);
    var g' := Move(g, 3, 2, 5, 4);
    MoveRelocates(g, 3, 2, 5, 4);
    MoveChangesOnlyCapturedSquare(g, 3, 2, 5, 4, 6, 5);
    MoveChangesOnlyCapturedSquare(g, 3, 2, 5, 4, 7, 6);
    MoveChangesOnlyCapturedSquare(g, 3, 2, 5, 4, 0, 1);
    MoveChangesOnlyCapturedSquare(g, 3, 2, 5, 4, 1, 2);
    assert ReachableBy(g', 5, 4, JumpOffsets[1], JumpOffsets[1], true);
    assert ValidMove(g', 0, 1, 1, 2, true);
  }

  /** A PlayerOne man on (5,2) jumps the only PlayerTwo piece, on (6,3), and
    * is crowned on (7,4). No PlayerTwo piece is left to capture, yet PlayerOne
    * keeps the turn. */
  lemma CrowningJumpKeepsTurn()
    ensures var g := Put(Put(EmptyGrid(), 5, 2, Holds(NewPiece(true))), 6, 3, Holds(NewPiece(false)));
      var st := GameState(g, true);
      && Accepts(st, 5, 2, 7, 4)
      && AfterMove(st, 5, 2, 7, 4).isPlayerOneTurn
      && !HasAnyPiece(AfterMove(st, 5, 2, 7, 4).grid, false)
  {
    var g := Put(Put(EmptyGrid(), 5, 2, Holds(NewPiece(true))), 6, 3, Holds(NewPiece(false)));
    var st := GameState(g, true);
    assert Accepts(st, 5, 2, 7, 4);
    KingLandingKeepsTurn(st, 5, 2, 7, 4);
    ManCaptureTakesMidpoint(g, 5, 2, 7, 4, true);
    MoveRelocates(g, 5, 2, 7, 4);
    var g' := Move(g, 5, 2, 7, 4);
    forall r, c | InBounds(r, c)
      ensures !Owns(g'[r][c], false)
    {
      if (r != 5 || c != 2) && (r != 7 || c != 4) {
        MoveChangesOnlyCapturedSquare(g, 5, 2, 7, 4, r, c);
      }
    }
  }
}
