/**
 * The rules of the board as pure functions over a value of the grid.
 *
 * `Grid` is the 8x8 board read row by row; `ValidMove` is the legality
 * predicate, `Move` the grid after a move is executed, and `HasAnyPiece`,
 * `HasAnyMove`, `PieceCanMove` and `PieceCanJump` the aggregate queries.
 * The lemmas state what these rules guarantee.
 */
module Rules {
  import opened Pieces

  datatype Option<T> = None | Some(value: T)

  const BoardSize: nat := 8

  type Grid = seq<seq<Square>>

  predicate WellFormed(g: Grid)
  {
    |g| == BoardSize && forall r :: 0 <= r < BoardSize ==> |g[r]| == BoardSize
  }

  predicate InBounds(r: int, c: int)
  {
    0 <= r < BoardSize && 0 <= c < BoardSize
  }

  function Abs(x: int): nat
  {
    if x < 0 then -x else x
  }

  /** The coordinate `i` unit steps from `from` in the direction of `to`
    * (the step is +1 when `to > from` and -1 otherwise). */
  function Toward(from: int, to: int, i: int): int
  {
    if to > from then from + i else from - i
  }

  predicate Owns(s: Square, isPlayerOne: bool)
  {
    s.Holds? && s.piece.isPlayerOne == isPlayerOne
  }

  predicate IsOpponent(s: Square, isPlayerOne: bool)
  {
    s.Holds? && s.piece.isPlayerOne != isPlayerOne
  }

  /** The grid with square (r, c) replaced by `s`. */
  function Put(g: Grid, r: int, c: int, s: Square): (h: Grid)
    requires WellFormed(g) && InBounds(r, c)
    ensures WellFormed(h) && h[r][c] == s
    ensures forall r', c' :: InBounds(r', c') && (r' != r || c' != c) ==> h[r'][c'] == g[r'][c']
  {
    g[r := g[r][c := s]]
  }

  /** Two grids that agree on every square are the same grid. */
  lemma SameSquaresSameGrid(g: Grid, h: Grid)
    requires WellFormed(g) && WellFormed(h)
    requires forall r, c :: InBounds(r, c) ==> g[r][c] == h[r][c]
    ensures g == h
  {
    forall r | 0 <= r < BoardSize
      ensures g[r] == h[r]
    {
      assert forall c :: 0 <= c < BoardSize ==> g[r][c] == h[r][c];
    }
  }

  // ---------------------------------------------------------------------
  // Starting layout
  // ---------------------------------------------------------------------

  function InitialSquare(r: int, c: int): Square
  {
    if (r + c) % 2 == 0 || 3 <= r < 5 then Empty else Holds(NewPiece(r < 3))
  }

  function InitialGrid(): (g: Grid)
    ensures WellFormed(g)
  {
    seq(BoardSize, r => seq(BoardSize, c => InitialSquare(r, c)))
  }

  /** Pieces stand only on the dark squares, those with (row + col) odd. */
  ghost predicate DarkSquaresOnly(g: Grid)
    requires WellFormed(g)
  {
    forall r, c :: InBounds(r, c) && g[r][c].Holds? ==> (r + c) % 2 == 1
  }

  lemma InitialLayout()
    ensures forall r, c :: InBounds(r, c) ==>
      InitialGrid()[r][c] ==
        if (r + c) % 2 == 1 && r <= 2 then Holds(Piece(true, false))
        else if (r + c) % 2 == 1 && r >= 5 then Holds(Piece(false, false))
        else Empty
    ensures DarkSquaresOnly(InitialGrid())
  {
  }

  // ---------------------------------------------------------------------
  // Legality of a single move
  // ---------------------------------------------------------------------

  /** The scanned path from (sr, sc) toward (er, ec) has `n - 1` inner squares;
    * the last of them lies on the board. */
  predicate PathOnBoard(sr: int, sc: int, er: int, ec: int, n: int)
  {
    InBounds(sr, sc) && (n <= 1 || InBounds(Toward(sr, er, n - 1), Toward(sc, ec, n - 1)))
  }

  lemma PathSquareInBounds(sr: int, sc: int, er: int, ec: int, n: int, i: int)
    requires PathOnBoard(sr, sc, er, ec, n) && 0 <= i < n
    ensures InBounds(Toward(sr, er, i), Toward(sc, ec, i))
  {
  }

  /** The square `i` steps along the path from (sr, sc) toward (er, ec). */
  function PathSquare(g: Grid, sr: int, sc: int, er: int, ec: int, i: int): Square
    requires WellFormed(g) && InBounds(Toward(sr, er, i), Toward(sc, ec, i))
  {
    g[Toward(sr, er, i)][Toward(sc, ec, i)]
  }

  /** Every inner square of an `n`-step path is empty. */
  predicate PathClear(g: Grid, sr: int, sc: int, er: int, ec: int, n: int)
    requires WellFormed(g) && PathOnBoard(sr, sc, er, ec, n)
  {
    forall i :: 1 <= i < n ==> PathSquare(g, sr, sc, er, ec, i).Empty?
  }

  /** A man steps toward increasing rows for PlayerOne, decreasing for PlayerTwo. */
  predicate Forward(isPlayerOne: bool, sr: int, er: int)
  {
    if isPlayerOne then er > sr else er < sr
  }

  /** The legality predicate: may `isPlayerOne`'s side move (sr, sc) to (er, ec)? */
  predicate ValidMove(g: Grid, sr: int, sc: int, er: int, ec: int, isPlayerOne: bool)
    requires WellFormed(g) && InBounds(sr, sc) && InBounds(er, ec)
  {
    var rowDiff, colDiff := Abs(er - sr), Abs(ec - sc);
    && Owns(g[sr][sc], isPlayerOne)
    && g[er][ec].Empty?
    && if !g[sr][sc].piece.isKing then
         || (rowDiff == 1 && colDiff == 1 && Forward(isPlayerOne, sr, er))
         || (rowDiff == 2 && colDiff == 2 && IsOpponent(g[(sr + er) / 2][(sc + ec) / 2], isPlayerOne))
       else
         rowDiff == colDiff && PathClear(g, sr, sc, er, ec, rowDiff)
  }

  lemma RejectsForeignStartOrOccupiedTarget(g: Grid, sr: int, sc: int, er: int, ec: int, isPlayerOne: bool)
    requires WellFormed(g) && InBounds(sr, sc) && InBounds(er, ec)
    ensures g[sr][sc].Empty? ==> !ValidMove(g, sr, sc, er, ec, isPlayerOne)
    ensures IsOpponent(g[sr][sc], isPlayerOne) ==> !ValidMove(g, sr, sc, er, ec, isPlayerOne)
    ensures g[er][ec].Holds? ==> !ValidMove(g, sr, sc, er, ec, isPlayerOne)
  {
  }

  /** A man moves only one square diagonally forward, or jumps two squares
    * diagonally (in any direction) over an opposing piece. */
  lemma ManMoveShape(g: Grid, sr: int, sc: int, er: int, ec: int, isPlayerOne: bool)
    requires WellFormed(g) && InBounds(sr, sc) && InBounds(er, ec)
    requires Owns(g[sr][sc], isPlayerOne) && !g[sr][sc].piece.isKing && g[er][ec].Empty?
    ensures ValidMove(g, sr, sc, er, ec, isPlayerOne) <==>
      || (Abs(er - sr) == 1 && Abs(ec - sc) == 1 && Forward(isPlayerOne, sr, er))
      || (Abs(er - sr) == 2 && Abs(ec - sc) == 2
          && IsOpponent(PathSquare(g, sr, sc, er, ec, 1), isPlayerOne))
  {
  }

  /** A king moves any distance along a diagonal whose inner squares are all
    * empty; in particular it never passes over a piece. */
  lemma KingMoveShape(g: Grid, sr: int, sc: int, er: int, ec: int, isPlayerOne: bool)
    requires WellFormed(g) && InBounds(sr, sc) && InBounds(er, ec)
    requires Owns(g[sr][sc], isPlayerOne) && g[sr][sc].piece.isKing
    ensures ValidMove(g, sr, sc, er, ec, isPlayerOne) <==>
      && g[er][ec].Empty?
      && Abs(er - sr) == Abs(ec - sc) >= 1
      && forall i :: 1 <= i < Abs(er - sr) ==> PathSquare(g, sr, sc, er, ec, i).Empty?
  {
  }

  /** Both squares of a diagonal move have the same colour. */
  lemma {:induction false} DiagonalKeepsColour(sr: int, sc: int, er: int, ec: int)
    requires Abs(er - sr) == Abs(ec - sc)
    ensures (sr + sc) % 2 == (er + ec) % 2
  {
    if (er - sr) == (ec - sc) {
      assert er + ec == (sr + sc) + 2 * (er - sr);
    } else {
      assert er + ec == sr + sc;
    }
  }

  /** Every accepted move is a diagonal move of at least one square, it keeps
    * the colour of the square, and it can be executed. */
  lemma ValidMoveIsDiagonal(g: Grid, sr: int, sc: int, er: int, ec: int, isPlayerOne: bool)
    requires WellFormed(g) && InBounds(sr, sc) && InBounds(er, ec)
    requires ValidMove(g, sr, sc, er, ec, isPlayerOne)
    ensures Abs(er - sr) == Abs(ec - sc) >= 1
    ensures (sr + sc) % 2 == (er + ec) % 2
    ensures MoveAllowed(g, sr, sc, er, ec)
  {
    assert (sr, sc) != (er, ec);
    DiagonalKeepsColour(sr, sc, er, ec);
  }

  // ---------------------------------------------------------------------
  // Executing a move
  // ---------------------------------------------------------------------

  /** What executing a move needs: a piece on the start square and a scanned
    * path that stays on the board. */
  predicate MoveAllowed(g: Grid, sr: int, sc: int, er: int, ec: int)
  {
    && WellFormed(g) && InBounds(sr, sc) && InBounds(er, ec)
    && g[sr][sc].Holds?
    && PathOnBoard(sr, sc, er, ec, Abs(er - sr))
  }

  /** The piece as it lands on row `er`: crowned on the far rank of its side. */
  function Landed(p: Piece, er: int): Piece
  {
    if (p.isPlayerOne && er == BoardSize - 1) || (!p.isPlayerOne && er == 0) then PromoteToKing(p) else p
  }

  /** The grid after the mover has been placed on the target and lifted from the start. */
  function Relocated(g: Grid, sr: int, sc: int, er: int, ec: int): (h: Grid)
    requires MoveAllowed(g, sr, sc, er, ec)
    ensures WellFormed(h)
  {
    Put(Put(g, er, ec, Holds(Landed(g[sr][sc].piece, er))), sr, sc, Empty)
  }

  /** The first index `k` in `[i, n)` whose path square holds a piece of the
    * side opposing `isPlayerOne`, if any. */
  function FirstCaptured(g: Grid, sr: int, sc: int, er: int, ec: int, isPlayerOne: bool, n: int, i: int): (k: Option<nat>)
    requires WellFormed(g) && PathOnBoard(sr, sc, er, ec, n) && 1 <= i
    ensures k.Some? ==>
      && i <= k.value < n
      && IsOpponent(PathSquare(g, sr, sc, er, ec, k.value), isPlayerOne)
      && forall j :: i <= j < k.value ==> !IsOpponent(PathSquare(g, sr, sc, er, ec, j), isPlayerOne)
    ensures k.None? ==> forall j :: i <= j < n ==> !IsOpponent(PathSquare(g, sr, sc, er, ec, j), isPlayerOne)
    decreases n - i
  {
    if i >= n then None
    else if IsOpponent(PathSquare(g, sr, sc, er, ec, i), isPlayerOne) then Some(i)
    else FirstCaptured(g, sr, sc, er, ec, isPlayerOne, n, i + 1)
  }

  /** A path square without an opposing piece does not stop the search. */
  lemma FirstCapturedSkips(g: Grid, sr: int, sc: int, er: int, ec: int, isPlayerOne: bool, n: int, i: int)
    requires WellFormed(g) && PathOnBoard(sr, sc, er, ec, n) && 1 <= i < n
    requires !IsOpponent(PathSquare(g, sr, sc, er, ec, i), isPlayerOne)
    ensures FirstCaptured(g, sr, sc, er, ec, isPlayerOne, n, i) == FirstCaptured(g, sr, sc, er, ec, isPlayerOne, n, i + 1)
  {
  }

  /** The path index of the piece a move removes, if any: only a move
    * spanning more than one row scans its path. */
  function Captured(g: Grid, sr: int, sc: int, er: int, ec: int): Option<nat>
    requires MoveAllowed(g, sr, sc, er, ec)
  {
    var n := Abs(er - sr);
    if n > 1 then FirstCaptured(Relocated(g, sr, sc, er, ec), sr, sc, er, ec, g[sr][sc].piece.isPlayerOne, n, 1)
    else None
  }

  /** The grid with the first piece opposing `isPlayerOne` on the `n`-step
    * path emptied, when there is one. */
  function WithoutFirstOpponent(g: Grid, sr: int, sc: int, er: int, ec: int, isPlayerOne: bool, n: int): (h: Grid)
    requires WellFormed(g) && PathOnBoard(sr, sc, er, ec, n)
    ensures WellFormed(h)
  {
    match FirstCaptured(g, sr, sc, er, ec, isPlayerOne, n, 1)
    case None => g
    case Some(k) =>
      PathSquareInBounds(sr, sc, er, ec, n, k);
      Put(g, Toward(sr, er, k), Toward(sc, ec, k), Empty)
  }

  /** The grid after a move is executed: the piece is relocated and, when the
    * move spans more than one row, the first opposing piece on its path is removed. */
  function Move(g: Grid, sr: int, sc: int, er: int, ec: int): (h: Grid)
    requires MoveAllowed(g, sr, sc, er, ec)
    ensures WellFormed(h)
  {
    var moved := Relocated(g, sr, sc, er, ec);
    var n := Abs(er - sr);
    if n > 1 then WithoutFirstOpponent(moved, sr, sc, er, ec, g[sr][sc].piece.isPlayerOne, n) else moved
  }

  /** The inner squares of a path lie strictly between the start and target rows. */
  lemma PathAvoidsEndpoints(sr: int, sc: int, er: int, ec: int, i: int)
    requires 1 <= i < Abs(er - sr)
    ensures Toward(sr, er, i) != sr && Toward(sr, er, i) != er
  {
  }

  /** Relocating the mover leaves the inner squares of its path as they were,
    * so the captured piece is the first opposing piece of the grid before the move. */
  lemma {:induction false} CaptureSeesOriginalPath(g: Grid, sr: int, sc: int, er: int, ec: int, i: int)
    requires MoveAllowed(g, sr, sc, er, ec) && 1 <= i
    ensures var n, side := Abs(er - sr), g[sr][sc].piece.isPlayerOne;
      FirstCaptured(Relocated(g, sr, sc, er, ec), sr, sc, er, ec, side, n, i)
        == FirstCaptured(g, sr, sc, er, ec, side, n, i)
    decreases Abs(er - sr) - i
  {
    var n := Abs(er - sr);
    if i < n {
      PathSquareInBounds(sr, sc, er, ec, n, i);
      PathAvoidsEndpoints(sr, sc, er, ec, i);
      var r, c := Toward(sr, er, i), Toward(sc, ec, i);
      var placed := Put(g, er, ec, Holds(Landed(g[sr][sc].piece, er)));
      assert placed[r][c] == g[r][c];
      assert Relocated(g, sr, sc, er, ec)[r][c] == placed[r][c];
      CaptureSeesOriginalPath(g, sr, sc, er, ec, i + 1);
    }
  }

  /** The removed piece is the first piece of the other side met along the
    * path of the grid before the move; when nothing is removed, no such piece is there. */
  lemma CaptureIsFirstOpponent(g: Grid, sr: int, sc: int, er: int, ec: int)
    requires MoveAllowed(g, sr, sc, er, ec)
    ensures var k, n, side := Captured(g, sr, sc, er, ec), Abs(er - sr), g[sr][sc].piece.isPlayerOne;
      && (k.Some? ==>
            && 1 <= k.value < n
            && IsOpponent(PathSquare(g, sr, sc, er, ec, k.value), side)
            && forall j :: 1 <= j < k.value ==> !IsOpponent(PathSquare(g, sr, sc, er, ec, j), side))
      && (k.None? ==> forall j :: 1 <= j < n ==> !IsOpponent(PathSquare(g, sr, sc, er, ec, j), side))
  {
    if Abs(er - sr) > 1 {
      CaptureSeesOriginalPath(g, sr, sc, er, ec, 1);
    }
  }

  /** After a move the start square is empty and the target holds the mover,
    * of the same side, crowned on its far rank and never demoted. */
  lemma MoveRelocates(g: Grid, sr: int, sc: int, er: int, ec: int)
    requires MoveAllowed(g, sr, sc, er, ec) && (sr != er || sc != ec)
    ensures Move(g, sr, sc, er, ec)[sr][sc].Empty?
    ensures var p, q := g[sr][sc], Move(g, sr, sc, er, ec)[er][ec];
      && q.Holds?
      && q.piece.isPlayerOne == p.piece.isPlayerOne
      && q.piece.isKing == (p.piece.isKing || (p.piece.isPlayerOne && er == 7) || (!p.piece.isPlayerOne && er == 0))
  {
    var k := Captured(g, sr, sc, er, ec);
    if k.Some? {
      PathAvoidsEndpoints(sr, sc, er, ec, k.value);
    }
  }

  /** Apart from the start and the target, a move changes at most one square:
    * the captured one, which it empties. */
  lemma MoveChangesOnlyCapturedSquare(g: Grid, sr: int, sc: int, er: int, ec: int, r: int, c: int)
    requires MoveAllowed(g, sr, sc, er, ec) && InBounds(r, c)
    requires (r != sr || c != sc) && (r != er || c != ec)
    ensures var k := Captured(g, sr, sc, er, ec);
      Move(g, sr, sc, er, ec)[r][c] ==
        if k.Some? && r == Toward(sr, er, k.value) && c == Toward(sc, ec, k.value) then Empty else g[r][c]
  {
  }

  /** A man's two-square jump removes exactly the piece it jumps over. */
  lemma ManCaptureTakesMidpoint(g: Grid, sr: int, sc: int, er: int, ec: int, isPlayerOne: bool)
    requires WellFormed(g) && InBounds(sr, sc) && InBounds(er, ec)
    requires ValidMove(g, sr, sc, er, ec, isPlayerOne) && !g[sr][sc].piece.isKing
    requires Abs(er - sr) == 2
    ensures MoveAllowed(g, sr, sc, er, ec)
    ensures Captured(g, sr, sc, er, ec) == Some(1)
    ensures Move(g, sr, sc, er, ec)[(sr + er) / 2][(sc + ec) / 2].Empty?
    ensures IsOpponent(g[(sr + er) / 2][(sc + ec) / 2], isPlayerOne)
  {
    ValidMoveIsDiagonal(g, sr, sc, er, ec, isPlayerOne);
    CaptureIsFirstOpponent(g, sr, sc, er, ec);
  }

  /** A king's move never removes a piece: its path is empty. */
  lemma KingMoveCapturesNothing(g: Grid, sr: int, sc: int, er: int, ec: int, isPlayerOne: bool)
    requires WellFormed(g) && InBounds(sr, sc) && InBounds(er, ec)
    requires ValidMove(g, sr, sc, er, ec, isPlayerOne) && g[sr][sc].piece.isKing
    ensures MoveAllowed(g, sr, sc, er, ec)
    ensures Captured(g, sr, sc, er, ec) == None
    ensures Move(g, sr, sc, er, ec) == Relocated(g, sr, sc, er, ec)
  {
    ValidMoveIsDiagonal(g, sr, sc, er, ec, isPlayerOne);
    CaptureIsFirstOpponent(g, sr, sc, er, ec);
  }

  /** A diagonal move keeps every piece on a dark square. */
  lemma MovePreservesDarkSquares(g: Grid, sr: int, sc: int, er: int, ec: int)
    requires MoveAllowed(g, sr, sc, er, ec) && DarkSquaresOnly(g)
    requires Abs(er - sr) == Abs(ec - sc)
    ensures DarkSquaresOnly(Move(g, sr, sc, er, ec))
  {
    DiagonalKeepsColour(sr, sc, er, ec);
    var h: Grid := Move(g, sr, sc, er, ec);
    forall r: int, c: int | InBounds(r, c) && h[r][c].Holds?
      ensures (r + c) % 2 == 1
    {
      if r == er && c == ec {
        assert g[sr][sc].Holds?;
      } else if r == sr && c == sc {
        assert (r + c) % 2 == 1;
      } else {
        MoveChangesOnlyCapturedSquare(g, sr, sc, er, ec, r, c);
      }
    }
  }

  // ---------------------------------------------------------------------
  // Aggregate queries
  // ---------------------------------------------------------------------

  /** Offsets tried in each axis when looking for a move, and for a jump. */
  const MoveOffsets: seq<int> := [-1, 1, -2, 2]
  const JumpOffsets: seq<int> := [-2, 2]

  /** The piece at (r, c) may move by (dr, dc) to a square on the board. */
  predicate ReachableBy(g: Grid, r: int, c: int, dr: int, dc: int, isPlayerOne: bool)
    requires WellFormed(g) && InBounds(r, c)
  {
    InBounds(r + dr, c + dc) && ValidMove(g, r, c, r + dr, c + dc, isPlayerOne)
  }

  /** Some pair of offsets drawn from `offsets` gives a valid move from (r, c). */
  predicate CanReach(g: Grid, r: int, c: int, isPlayerOne: bool, offsets: seq<int>)
    requires WellFormed(g) && InBounds(r, c)
  {
    exists a, b :: 0 <= a < |offsets| && 0 <= b < |offsets| && ReachableBy(g, r, c, offsets[a], offsets[b], isPlayerOne)
  }

  predicate PieceCanMove(g: Grid, r: int, c: int, isPlayerOne: bool)
    requires WellFormed(g) && InBounds(r, c)
  {
    CanReach(g, r, c, isPlayerOne, MoveOffsets)
  }

  predicate PieceCanJump(g: Grid, r: int, c: int, isPlayerOne: bool)
    requires WellFormed(g) && InBounds(r, c)
  {
    CanReach(g, r, c, isPlayerOne, JumpOffsets)
  }

  ghost predicate HasAnyPiece(g: Grid, isPlayerOne: bool)
    requires WellFormed(g)
  {
    exists r, c :: InBounds(r, c) && Owns(g[r][c], isPlayerOne)
  }

  ghost predicate HasAnyMove(g: Grid, isPlayerOne: bool)
    requires WellFormed(g)
  {
    exists r, c :: InBounds(r, c) && Owns(g[r][c], isPlayerOne) && PieceCanMove(g, r, c, isPlayerOne)
  }

  /** Some valid move of `isPlayerOne`'s side exists anywhere on the board. */
  ghost predicate SomeValidMove(g: Grid, isPlayerOne: bool)
    requires WellFormed(g)
  {
    exists sr, sc, er, ec :: InBounds(sr, sc) && InBounds(er, ec) && ValidMove(g, sr, sc, er, ec, isPlayerOne)
  }

  /** A side with a move has a piece. */
  lemma MovesNeedPieces(g: Grid, isPlayerOne: bool)
    requires WellFormed(g)
    ensures HasAnyMove(g, isPlayerOne) ==> HasAnyPiece(g, isPlayerOne)
  {
  }

  /** Every valid move of a piece is found by the offset scan from its square:
    * a man moves at most two squares, and a king that can slide further can
    * also take the first step of that slide. */
  lemma ScanFindsMoveOf(g: Grid, sr: int, sc: int, er: int, ec: int, isPlayerOne: bool)
    requires WellFormed(g) && InBounds(sr, sc) && InBounds(er, ec)
    requires ValidMove(g, sr, sc, er, ec, isPlayerOne)
    ensures PieceCanMove(g, sr, sc, isPlayerOne)
  {
    ValidMoveIsDiagonal(g, sr, sc, er, ec, isPlayerOne);
    if Abs(er - sr) <= 2 {
      var a, b := IndexOf(er - sr), IndexOf(ec - sc);
      assert ReachableBy(g, sr, sc, MoveOffsets[a], MoveOffsets[b], isPlayerOne);
    } else {
      var r1, c1 := Toward(sr, er, 1), Toward(sc, ec, 1);
      assert PathSquare(g, sr, sc, er, ec, 1).Empty?;
      assert ValidMove(g, sr, sc, r1, c1, isPlayerOne) by {
        assert Abs(r1 - sr) == 1 && Abs(c1 - sc) == 1;
        assert PathClear(g, sr, sc, r1, c1, 1);
      }
      var a, b := IndexOf(r1 - sr), IndexOf(c1 - sc);
      assert ReachableBy(g, sr, sc, MoveOffsets[a], MoveOffsets[b], isPlayerOne);
    }
  }

  /** The board-wide scan reports a move exactly when the side has some
    * valid move anywhere on the board. */
  lemma ScanFindsEveryMove(g: Grid, isPlayerOne: bool)
    requires WellFormed(g)
    ensures HasAnyMove(g, isPlayerOne) <==> SomeValidMove(g, isPlayerOne)
  {
    if HasAnyMove(g, isPlayerOne) {
      var r, c :| InBounds(r, c) && Owns(g[r][c], isPlayerOne) && PieceCanMove(g, r, c, isPlayerOne);
      var a, b :| 0 <= a < |MoveOffsets| && 0 <= b < |MoveOffsets|
        && ReachableBy(g, r, c, MoveOffsets[a], MoveOffsets[b], isPlayerOne);
      assert ValidMove(g, r, c, r + MoveOffsets[a], c + MoveOffsets[b], isPlayerOne);
    }
    if SomeValidMove(g, isPlayerOne) {
      var sr, sc, er, ec :| InBounds(sr, sc) && InBounds(er, ec) && ValidMove(g, sr, sc, er, ec, isPlayerOne);
      ScanFindsMoveOf(g, sr, sc, er, ec, isPlayerOne);
      assert Owns(g[sr][sc], isPlayerOne);
    }
  }

  /** The position of a non-zero offset of size at most two in `MoveOffsets`. */
  function IndexOf(d: int): (a: nat)
    requires 1 <= Abs(d) <= 2
    ensures a < |MoveOffsets| && MoveOffsets[a] == d
  {
    if d == -1 then 0 else if d == 1 then 1 else if d == -2 then 2 else 3
  }

  /** `PieceCanJump` holds exactly when a two-square diagonal move is valid. */
  lemma JumpScanMeansTwoSquareMove(g: Grid, r: int, c: int, isPlayerOne: bool)
    requires WellFormed(g) && InBounds(r, c)
    ensures PieceCanJump(g, r, c, isPlayerOne) <==>
      exists er, ec :: InBounds(er, ec) && Abs(er - r) == 2 && Abs(ec - c) == 2 && ValidMove(g, r, c, er, ec, isPlayerOne)
  {
    if exists er, ec :: InBounds(er, ec) && Abs(er - r) == 2 && Abs(ec - c) == 2 && ValidMove(g, r, c, er, ec, isPlayerOne) {
      var er, ec :| InBounds(er, ec) && Abs(er - r) == 2 && Abs(ec - c) == 2 && ValidMove(g, r, c, er, ec, isPlayerOne);
      var a := if er < r then 0 else 1;
      var b := if ec < c then 0 else 1;
      assert ReachableBy(g, r, c, JumpOffsets[a], JumpOffsets[b], isPlayerOne);
    }
    if PieceCanJump(g, r, c, isPlayerOne) {
      var a, b :| 0 <= a < |JumpOffsets| && 0 <= b < |JumpOffsets| && ReachableBy(g, r, c, JumpOffsets[a], JumpOffsets[b], isPlayerOne);
      assert ValidMove(g, r, c, r + JumpOffsets[a], c + JumpOffsets[b], isPlayerOne);
    }
  }
}
