// The program's global state (the `board` grid and `currentPlayer`) as an
// object, with the validator that reads it and the step of the click handler
// that updates it after an accepted move.  The ray walk and the rook,
// bishop, queen and dispatcher methods are proved equal to the matching
// predicates of module Rules, read off a snapshot of the array; the
// constructor is proved against Pieces.InitialBoard and the move step
// against Pieces.Moved.

module ChessGame {
  import opened Pieces
  import opened Rules

  /** The contents of an 8x8 array as a board value. */
  ghost function Snapshot(a: array2<Cell>): (b: Board)
    reads a
    requires a.Length0 == 8 && a.Length1 == 8
    ensures forall r, c :: OnBoard(r, c) ==> b[r][c] == a[r, c]
  {
    seq(8, r requires 0 <= r < 8 reads a => seq(8, c requires 0 <= c < 8 reads a => a[r, c]))
  }

  class Game {
    var board: array2<Cell>
    var currentPlayer: Color

    /** The grid is 8x8 and holds only empty squares and the twelve codes. */
    ghost predicate Valid()
      reads this, board
    {
      board.Length0 == 8 && board.Length1 == 8 &&
      forall r, c :: OnBoard(r, c) ==> IsPieceCell(board[r, c])
    }

    /** The grid as a board value. */
    ghost function Cells(): (b: Board)
      reads this, board
      requires Valid()
    {
      Snapshot(board)
    }

    /** The board literal and `currentPlayer = 'white'` at load time. */
    constructor ()
      ensures Valid() && fresh(board)
      ensures Cells() == InitialBoard() && currentPlayer == White
    {
      board := new Cell[8, 8]((r, c) requires OnBoard(r, c) => InitialBoard()[r][c]);
      currentPlayer := White;
      new;
      BoardEquality(Cells(), InitialBoard());
    }

    /** isPathClear: walks the ray one square at a time and stops at the
        first occupied square; it stops before the destination. */
    method IsPathClear(fromRow: int, fromCol: int, toRow: int, toCol: int, rowStep: int, colStep: int)
      returns (clear: bool)
      requires Valid() && OnBoard(fromRow, fromCol) && OnBoard(toRow, toCol)
      requires OnRay(fromRow, fromCol, toRow, toCol, rowStep, colStep)
      ensures clear == PathClear(Cells(), fromRow, fromCol, toRow, toCol, rowStep, colStep)
    {
      ghost var n: int := Steps(fromRow, fromCol, toRow, toCol);
      ghost var k: int := 1;
      var row := fromRow + rowStep;
      var col := fromCol + colStep;
      while row != toRow || col != toCol
        invariant 1 <= k && (k <= n || n == 0)
        invariant row == Along(fromRow, rowStep, k) && col == Along(fromCol, colStep, k)
        invariant forall j :: 0 < j < k ==>
                    Cells()[Along(fromRow, rowStep, j)][Along(fromCol, colStep, j)] == Empty
        decreases n - k
      {
        if board[row, col] != Empty {
          assert Cells()[Along(fromRow, rowStep, k)][Along(fromCol, colStep, k)] != Empty;
          return false;
        }
        row := row + rowStep;
        col := col + colStep;
        k := k + 1;
      }
      return true;
    }

    /** isValidRookMove. */
    method IsValidRookMove(fromRow: int, fromCol: int, toRow: int, toCol: int) returns (valid: bool)
      requires Valid() && OnBoard(fromRow, fromCol) && OnBoard(toRow, toCol)
      ensures valid == RookMove(Cells(), fromRow, fromCol, toRow, toCol)
    {
      if fromRow == toRow {
        valid := IsPathClear(fromRow, fromCol, toRow, toCol, 0, Sign(toCol - fromCol));
        return;
      }
      if fromCol == toCol {
        valid := IsPathClear(fromRow, fromCol, toRow, toCol, Sign(toRow - fromRow), 0);
        return;
      }
      return false;
    }

    /** isValidBishopMove. */
    method IsValidBishopMove(fromRow: int, fromCol: int, toRow: int, toCol: int) returns (valid: bool)
      requires Valid() && OnBoard(fromRow, fromCol) && OnBoard(toRow, toCol)
      ensures valid == BishopMove(Cells(), fromRow, fromCol, toRow, toCol)
    {
      if Abs(fromRow - toRow) == Abs(fromCol - toCol) {
        valid := IsPathClear(fromRow, fromCol, toRow, toCol, Sign(toRow - fromRow), Sign(toCol - fromCol));
        return;
      }
      return false;
    }

    /** isValidQueenMove: the bishop test runs only when the rook test fails. */
    method IsValidQueenMove(fromRow: int, fromCol: int, toRow: int, toCol: int) returns (valid: bool)
      requires Valid() && OnBoard(fromRow, fromCol) && OnBoard(toRow, toCol)
      ensures valid == QueenMove(Cells(), fromRow, fromCol, toRow, toCol)
    {
      valid := IsValidRookMove(fromRow, fromCol, toRow, toCol);
      if !valid {
        valid := IsValidBishopMove(fromRow, fromCol, toRow, toCol);
      }
    }

    /** isValidMove: reads the board and the player to move, changes nothing. */
    method IsValidMove(fromRow: int, fromCol: int, toRow: int, toCol: int) returns (valid: bool)
      requires Valid() && OnBoard(fromRow, fromCol) && OnBoard(toRow, toCol)
      ensures valid == ValidMove(Cells(), currentPlayer, fromRow, fromCol, toRow, toCol)
    {
      var piece := board[fromRow, fromCol];
      if piece == Empty {
        return false;
      }
      var targetPiece := board[toRow, toCol];
      var isTargetPieceEnemy := IsEnemy(piece.letter, targetPiece);
      if WrongOwner(currentPlayer, piece.letter) {
        return false;
      }
      match ToLower(piece.letter)
      case 'p' =>
        valid := PawnMove(fromRow, fromCol, toRow, toCol, piece.letter, isTargetPieceEnemy);
      case 'r' =>
        valid := IsValidRookMove(fromRow, fromCol, toRow, toCol);
      case 'n' =>
        valid := KnightMove(fromRow, fromCol, toRow, toCol);
      case 'b' =>
        valid := IsValidBishopMove(fromRow, fromCol, toRow, toCol);
      case 'q' =>
        valid := IsValidQueenMove(fromRow, fromCol, toRow, toCol);
      case 'k' =>
        valid := KingMove(fromRow, fromCol, toRow, toCol);
      case _ =>
        valid := false;
    }

    /** The move step of the click handler: validate, and only on success copy
        the piece to the destination, clear the source and pass the turn. */
    method ApplyMove(fromRow: int, fromCol: int, toRow: int, toCol: int) returns (moved: bool)
      requires Valid() && OnBoard(fromRow, fromCol) && OnBoard(toRow, toCol)
      modifies this, board
      ensures Valid() && board == old(board)
      ensures moved == ValidMove(old(Cells()), old(currentPlayer), fromRow, fromCol, toRow, toCol)
      ensures Cells() == if moved then Moved(old(Cells()), fromRow, fromCol, toRow, toCol) else old(Cells())
      ensures currentPlayer == if moved then Opponent(old(currentPlayer)) else old(currentPlayer)
    {
      ghost var before := Cells();
      moved := IsValidMove(fromRow, fromCol, toRow, toCol);
      if moved {
        board[toRow, toCol] := board[fromRow, fromCol];
        board[fromRow, fromCol] := Empty;
        currentPlayer := if currentPlayer == White then Black else White;
        forall r, c | OnBoard(r, c)
          ensures Cells()[r][c] == Moved(before, fromRow, fromCol, toRow, toCol)[r][c]
        {
          MovedCells(before, fromRow, fromCol, toRow, toCol, r, c);
        }
        BoardEquality(Cells(), Moved(before, fromRow, fromCol, toRow, toCol));
      }
    }
  }
}
