/**
 * The board object: an 8x8 array of squares updated in place.
 *
 * Every method is proved against the pure rules of module `Rules`: the
 * queries return exactly the value of the corresponding predicate on the
 * current grid, and `MovePiece` leaves exactly the grid `Rules.Move`
 * describes.
 */
module Boards {
  import opened Pieces
  import opened Rules

  class Board {
    const grid: array2<Square>

    ghost predicate Valid()
    {
      grid.Length0 == BoardSize && grid.Length1 == BoardSize
    }

    /** The grid as a value, row by row. */
    ghost function Cells(): (g: Grid)
      requires Valid()
      reads grid
      ensures WellFormed(g)
      ensures forall r, c :: InBounds(r, c) ==> g[r][c] == grid[r, c]
    {
      seq(BoardSize, r requires 0 <= r < BoardSize reads grid =>
        seq(BoardSize, c requires 0 <= c < BoardSize reads grid => grid[r, c]))
    }

    constructor ()
      ensures Valid() && fresh(grid)
      ensures Cells() == InitialGrid()
    {
      grid := new Square[BoardSize, BoardSize]((r, c) => Empty);
      new;
      InitializeBoard();
    }

    /** Places the men of both sides on the dark squares of rows 0-2 and 5-7
      * of an empty grid. */
    method InitializeBoard()
      requires Valid()
      requires forall r, c :: InBounds(r, c) ==> grid[r, c] == Empty
      modifies grid
      ensures Cells() == InitialGrid()
    {
      for row := 0 to 3
        invariant forall r, c :: InBounds(r, c) ==> grid[r, c] == if r < row then InitialSquare(r, c) else Empty
      {
        for col := 0 to BoardSize
          invariant forall r, c :: InBounds(r, c) ==>
            grid[r, c] == if r < row || (r == row && c < col) then InitialSquare(r, c) else Empty
        {
          if (row + col) % 2 == 1 {
            grid[row, col] := Holds(NewPiece(true));
          }
        }
      }
      for row := 5 to BoardSize
        invariant forall r, c :: InBounds(r, c) ==> grid[r, c] == if r < row then InitialSquare(r, c) else Empty
      {
        for col := 0 to BoardSize
          invariant forall r, c :: InBounds(r, c) ==>
            grid[r, c] == if r < row || (r == row && c < col) then InitialSquare(r, c) else Empty
        {
          if (row + col) % 2 == 1 {
            grid[row, col] := Holds(NewPiece(false));
          }
        }
      }
      SameSquaresSameGrid(Cells(), InitialGrid());
    }

    method IsValidMove(sr: int, sc: int, er: int, ec: int, isPlayerOne: bool) returns (ok: bool)
      requires Valid() && InBounds(sr, sc) && InBounds(er, ec)
      ensures ok == ValidMove(Cells(), sr, sc, er, ec, isPlayerOne)
    {
      ghost var g := Cells();
      var piece := grid[sr, sc];
      if piece.Empty? || piece.piece.isPlayerOne != isPlayerOne {
        return false;
      }
      if grid[er, ec].Holds? {
        return false;
      }
      var rowDiff, colDiff := Abs(er - sr), Abs(ec - sc);
      if !piece.piece.isKing {
        if rowDiff == 1 && colDiff == 1 {
          if (isPlayerOne && er > sr) || (!isPlayerOne && er < sr) {
            return true;
          }
        }
        if rowDiff == 2 && colDiff == 2 {
          var middle := grid[(sr + er) / 2, (sc + ec) / 2];
          if middle.Holds? && middle.piece.isPlayerOne != isPlayerOne {
            return true;
          }
        }
      } else {
        if rowDiff == colDiff {
          assert rowDiff >= 1;
          var i := 1;
          while i < rowDiff
            invariant 1 <= i <= rowDiff
            invariant forall j :: 1 <= j < i ==> PathSquare(g, sr, sc, er, ec, j).Empty?
          {
            if grid[Toward(sr, er, i), Toward(sc, ec, i)].Holds? {
              assert !PathSquare(g, sr, sc, er, ec, i).Empty?;
              return false;
            }
            i := i + 1;
          }
          // The midpoint test here returns true on both of its
          // branches, so it cannot change the outcome.
          if rowDiff > 1 {
            var middle := grid[(sr + er) / 2, (sc + ec) / 2];
            if middle.Holds? && middle.piece.isPlayerOne != isPlayerOne {
              return true;
            }
          }
          return true;
        }
      }
      return false;
    }

    /** Executes a move: relocates the piece, crowns it on its far rank and,
      * when it spans more than one row, removes the first opposing piece on
      * its path. */
    method MovePiece(sr: int, sc: int, er: int, ec: int)
      requires Valid() && MoveAllowed(Cells(), sr, sc, er, ec)
      modifies grid
      ensures Cells() == Move(old(Cells()), sr, sc, er, ec)
    {
      ghost var g := Cells();
      var piece := grid[sr, sc].piece;
      var landed := piece;
      if piece.isPlayerOne && er == BoardSize - 1 {
        landed := PromoteToKing(piece);
      } else if !piece.isPlayerOne && er == 0 {
        landed := PromoteToKing(piece);
      }
      SetSquare(er, ec, Holds(landed));
      SetSquare(sr, sc, Empty);
      assert Cells() == Relocated(g, sr, sc, er, ec);

      var n := Abs(er - sr);
      if n > 1 {
        RemoveFirstOpponent(sr, sc, er, ec, piece.isPlayerOne, n);
      }
    }

    /** Stores `s` on the square (r, c); every other square keeps its contents. */
    method SetSquare(r: int, c: int, s: Square)
      requires Valid() && InBounds(r, c)
      modifies grid
      ensures Cells() == Put(old(Cells()), r, c, s)
    {
      ghost var g := Cells();
      grid[r, c] := s;
      SameSquaresSameGrid(Cells(), Put(g, r, c, s));
    }

    /** One step of the capture scan: empties (r, c) when it holds a piece
      * opposing `isPlayerOne`, and reports whether it did. */
    method ClearIfOpponent(r: int, c: int, isPlayerOne: bool) returns (cleared: bool)
      requires Valid() && InBounds(r, c)
      modifies grid
      ensures cleared == IsOpponent(old(Cells())[r][c], isPlayerOne)
      ensures Cells() == if cleared then Put(old(Cells()), r, c, Empty) else old(Cells())
    {
      var middle := grid[r, c];
      cleared := middle.Holds? && middle.piece.isPlayerOne != isPlayerOne;
      if cleared {
        SetSquare(r, c, Empty);
      }
    }

    /** The capture scan of a move spanning `n > 1` rows: walks the inner
      * squares of the path and empties the first one that holds a piece
      * opposing `isPlayerOne`, then stops. */
    method RemoveFirstOpponent(sr: int, sc: int, er: int, ec: int, isPlayerOne: bool, n: int)
      requires Valid() && PathOnBoard(sr, sc, er, ec, n) && n > 1
      modifies grid
      ensures Cells() == WithoutFirstOpponent(old(Cells()), sr, sc, er, ec, isPlayerOne, n)
    {
      ghost var g := Cells();
      ghost var found := FirstCaptured(g, sr, sc, er, ec, isPlayerOne, n, 1);
      var i := 1;
      while i < n
        invariant 1 <= i <= n
        invariant Cells() == g
        invariant FirstCaptured(g, sr, sc, er, ec, isPlayerOne, n, i) == found
      {
        PathSquareInBounds(sr, sc, er, ec, n, i);
        var cleared := ClearIfOpponent(Toward(sr, er, i), Toward(sc, ec, i), isPlayerOne);
        if cleared {
          assert found == Some(i);
          return;
        }
        FirstCapturedSkips(g, sr, sc, er, ec, isPlayerOne, n, i);
        i := i + 1;
      }
      assert found == None;
    }

    method HasPieces(isPlayerOne: bool) returns (found: bool)
      requires Valid()
      ensures found == HasAnyPiece(Cells(), isPlayerOne)
    {
      ghost var g := Cells();
      for row := 0 to BoardSize
        invariant forall r, c :: 0 <= r < row && 0 <= c < BoardSize ==> !Owns(g[r][c], isPlayerOne)
      {
        for col := 0 to BoardSize
          invariant forall r, c :: 0 <= r < row && 0 <= c < BoardSize ==> !Owns(g[r][c], isPlayerOne)
          invariant forall c :: 0 <= c < col ==> !Owns(g[row][c], isPlayerOne)
        {
          var piece := grid[row, col];
          if piece.Holds? && piece.piece.isPlayerOne == isPlayerOne {
            assert Owns(g[row][col], isPlayerOne);
            return true;
          }
        }
      }
      return false;
    }

    method PlayerHasMoves(isPlayerOne: bool) returns (found: bool)
      requires Valid()
      ensures found == HasAnyMove(Cells(), isPlayerOne)
    {
      ghost var g := Cells();
      for row := 0 to BoardSize
        invariant forall r, c :: 0 <= r < row && 0 <= c < BoardSize ==>
          !(Owns(g[r][c], isPlayerOne) && PieceCanMove(g, r, c, isPlayerOne))
      {
        for col := 0 to BoardSize
          invariant forall r, c :: 0 <= r < row && 0 <= c < BoardSize ==>
            !(Owns(g[r][c], isPlayerOne) && PieceCanMove(g, r, c, isPlayerOne))
          invariant forall c :: 0 <= c < col ==> !(Owns(g[row][c], isPlayerOne) && PieceCanMove(g, row, c, isPlayerOne))
        {
          var piece := grid[row, col];
          if piece.Holds? && piece.piece.isPlayerOne == isPlayerOne {
            var can := CanMoveOrCapture(row, col, isPlayerOne);
            if can {
              assert Owns(g[row][col], isPlayerOne) && PieceCanMove(g, row, col, isPlayerOne);
              return true;
            }
          }
        }
      }
      return false;
    }

    method CanMoveOrCapture(row: int, col: int, isPlayerOne: bool) returns (can: bool)
      requires Valid() && InBounds(row, col)
      ensures can == PieceCanMove(Cells(), row, col, isPlayerOne)
    {
      can := TryOffsets(row, col, isPlayerOne, MoveOffsets);
    }

    method CanCapture(row: int, col: int, isPlayerOne: bool) returns (can: bool)
      requires Valid() && InBounds(row, col)
      ensures can == PieceCanJump(Cells(), row, col, isPlayerOne)
    {
      can := TryOffsets(row, col, isPlayerOne, JumpOffsets);
    }

    /** Tries every pair of offsets (row offset, column offset) drawn from
      * `offsets`, in order, and reports whether one lands on the board with a
      * valid move. */
    method TryOffsets(row: int, col: int, isPlayerOne: bool, offsets: seq<int>) returns (can: bool)
      requires Valid() && InBounds(row, col)
      ensures can == CanReach(Cells(), row, col, isPlayerOne, offsets)
    {
      ghost var g := Cells();
      for a := 0 to |offsets|
        invariant forall a', b :: 0 <= a' < a && 0 <= b < |offsets| ==>
          !ReachableBy(g, row, col, offsets[a'], offsets[b], isPlayerOne)
      {
        var hit := TryColumnOffsets(row, col, isPlayerOne, offsets[a], offsets);
        if hit {
          return true;
        }
      }
      return false;
    }

    /** The inner loop of `TryOffsets`: keeps the row offset `dr` and tries
      * every column offset drawn from `offsets`, in order. */
    method TryColumnOffsets(row: int, col: int, isPlayerOne: bool, dr: int, offsets: seq<int>) returns (can: bool)
      requires Valid() && InBounds(row, col)
      ensures can <==> exists b :: 0 <= b < |offsets| && ReachableBy(Cells(), row, col, dr, offsets[b], isPlayerOne)
    {
      ghost var g := Cells();
      for b := 0 to |offsets|
        invariant forall b' :: 0 <= b' < b ==> !ReachableBy(g, row, col, dr, offsets[b'], isPlayerOne)
      {
        var newRow, newCol := row + dr, col + offsets[b];
        if 0 <= newRow < BoardSize && 0 <= newCol < BoardSize {
          var ok := IsValidMove(row, col, newRow, newCol, isPlayerOne);
          if ok {
            assert ReachableBy(g, row, col, dr, offsets[b], isPlayerOne);
            return true;
          }
        }
      }
      return false;
    }
  }
}
