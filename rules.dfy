// The move rules of chess.js as pure functions over a board value: the
// dispatcher (isValidMove), the six per-piece rules and the ray test that
// the sliding pieces delegate to (isPathClear).  They serve as the
// specification of the imperative code in ChessGame and as the subject of
// the lemmas in RuleProperties.

module Rules {
  import opened Pieces

  /** Math.abs on integers. */
  function Abs(x: int): (magnitude: nat)
  {
    if x < 0 then -x else x
  }

  /** Math.sign on integers: -1, 0 or 1. */
  function Sign(x: int): (s: int)
  {
    if x > 0 then 1 else if x < 0 then -1 else 0
  }

  function Max(a: int, b: int): (m: int)
  {
    if a < b then b else a
  }

  /** How many single steps a straight or diagonal ray needs to get from the
      source square to the destination square. */
  function Steps(fromRow: int, fromCol: int, toRow: int, toCol: int): (n: nat)
  {
    Max(Abs(toRow - fromRow), Abs(toCol - fromCol))
  }

  /** The coordinate reached from `x` after `k` steps of `d` (one of -1, 0, 1). */
  function Along(x: int, d: int, k: int): (y: int)
  {
    if d > 0 then x + k else if d < 0 then x - k else x
  }

  predicate IsStep(d: int)
  {
    -1 <= d <= 1
  }

  /** The step (rowStep, colStep) walks from the source onto the destination;
      a move onto the source square itself is walked with the zero step, as
      every caller derives the step with Math.sign. */
  predicate OnRay(fromRow: int, fromCol: int, toRow: int, toCol: int, rowStep: int, colStep: int)
  {
    IsStep(rowStep) && IsStep(colStep) &&
    Along(fromRow, rowStep, Steps(fromRow, fromCol, toRow, toCol)) == toRow &&
    Along(fromCol, colStep, Steps(fromRow, fromCol, toRow, toCol)) == toCol &&
    (fromRow == toRow && fromCol == toCol ==> rowStep == 0 && colStep == 0)
  }

  /** Every square strictly between source and destination on the ray is
      empty.  Neither the source nor the destination square is looked at, so
      a move to a neighbouring square, or onto the source, is always clear. */
  function PathClear(b: Board, fromRow: int, fromCol: int, toRow: int, toCol: int, rowStep: int, colStep: int): (clear: bool)
    requires OnBoard(fromRow, fromCol) && OnBoard(toRow, toCol)
    requires OnRay(fromRow, fromCol, toRow, toCol, rowStep, colStep)
    ensures Steps(fromRow, fromCol, toRow, toCol) <= 1 ==> clear
  {
    forall k :: 0 < k < Steps(fromRow, fromCol, toRow, toCol) ==>
      b[Along(fromRow, rowStep, k)][Along(fromCol, colStep, k)] == Empty
  }

  /** The program's `isTargetPieceEnemy`: the target holds a piece whose
      letter differs from the moving piece's once both are upper-cased.  The
      colours are never compared: between piece codes it tells the kinds of
      piece apart and nothing else. */
  function IsEnemy(piece: char, target: Cell): (enemy: bool)
    ensures enemy ==> target.Piece?
    ensures IsPieceCode(piece) && target.Piece? && IsPieceCode(target.letter) ==>
              (enemy <==> ToLower(piece) != ToLower(target.letter))
  {
    target.Piece? && ToUpper(piece) != ToUpper(target.letter)
  }

  /** The ownership test that makes isValidMove return false: a piece that
      equals its own lower case while white is to move, or its own upper case
      while black is to move.  For a piece code that means its case is the
      other player's; a character that is no letter belongs to neither side. */
  function WrongOwner(player: Color, piece: char): (wrong: bool)
    ensures IsPieceCode(piece) ==> (wrong <==> (player == White <==> 'a' <= piece <= 'z'))
    ensures !('a' <= piece <= 'z') && !('A' <= piece <= 'Z') ==> wrong
  {
    (player == White && piece == ToLower(piece)) ||
    (player == Black && piece == ToUpper(piece))
  }

  /** isValidPawnMove: 'P' moves towards row 0, any other pawn towards row 7.
      A straight move never lands on an "enemy", a diagonal one only on one. */
  function PawnMove(fromRow: int, fromCol: int, toRow: int, toCol: int, piece: char, isTargetPieceEnemy: bool): (valid: bool)
    ensures valid ==> (if piece == 'P' then toRow < fromRow else fromRow < toRow)
    ensures valid ==> Abs(toRow - fromRow) <= 2 && Abs(toCol - fromCol) <= 1
    ensures valid ==> (toCol == fromCol <==> !isTargetPieceEnemy)
    ensures valid && Abs(toRow - fromRow) == 2 ==> toCol == fromCol && (fromRow == 6 || fromRow == 1)
  {
    var direction := if piece == 'P' then -1 else 1;
    if toCol == fromCol then
      (toRow == fromRow + direction && !isTargetPieceEnemy) ||
      (toRow == fromRow + direction * 2 && !isTargetPieceEnemy &&
       ((piece == 'P' && fromRow == 6) || (piece == 'p' && fromRow == 1)))
    else
      Abs(toCol - fromCol) == 1 && toRow == fromRow + direction && isTargetPieceEnemy
  }

  /** isValidRookMove: along the source's row or column, with a clear path. */
  function RookMove(b: Board, fromRow: int, fromCol: int, toRow: int, toCol: int): (valid: bool)
    requires OnBoard(fromRow, fromCol) && OnBoard(toRow, toCol)
    ensures valid ==> fromRow == toRow || fromCol == toCol
    ensures (fromRow == toRow || fromCol == toCol) && Steps(fromRow, fromCol, toRow, toCol) <= 1 ==> valid
  {
    if fromRow == toRow then
      PathClear(b, fromRow, fromCol, toRow, toCol, 0, Sign(toCol - fromCol))
    else if fromCol == toCol then
      PathClear(b, fromRow, fromCol, toRow, toCol, Sign(toRow - fromRow), 0)
    else
      false
  }

  /** isValidKnightMove. */
  function KnightMove(fromRow: int, fromCol: int, toRow: int, toCol: int): (valid: bool)
    ensures valid <==> fromRow != toRow && fromCol != toCol && Abs(toRow - fromRow) + Abs(toCol - fromCol) == 3
  {
    (Abs(fromRow - toRow) == 2 && Abs(fromCol - toCol) == 1) ||
    (Abs(fromRow - toRow) == 1 && Abs(fromCol - toCol) == 2)
  }

  /** isValidBishopMove: along a diagonal, with a clear path. */
  function BishopMove(b: Board, fromRow: int, fromCol: int, toRow: int, toCol: int): (valid: bool)
    requires OnBoard(fromRow, fromCol) && OnBoard(toRow, toCol)
    ensures valid ==> Abs(toRow - fromRow) == Abs(toCol - fromCol)
    ensures Abs(toRow - fromRow) == Abs(toCol - fromCol) <= 1 ==> valid
  {
    if Abs(fromRow - toRow) == Abs(fromCol - toCol) then
      PathClear(b, fromRow, fromCol, toRow, toCol, Sign(toRow - fromRow), Sign(toCol - fromCol))
    else
      false
  }

  /** isValidQueenMove.  A queen can always step to a neighbouring square,
      or stay put. */
  function QueenMove(b: Board, fromRow: int, fromCol: int, toRow: int, toCol: int): (valid: bool)
    requires OnBoard(fromRow, fromCol) && OnBoard(toRow, toCol)
    ensures valid ==> fromRow == toRow || fromCol == toCol || Abs(toRow - fromRow) == Abs(toCol - fromCol)
    ensures Steps(fromRow, fromCol, toRow, toCol) <= 1 ==> valid
  {
    RookMove(b, fromRow, fromCol, toRow, toCol) || BishopMove(b, fromRow, fromCol, toRow, toCol)
  }

  /** isValidKingMove. */
  function KingMove(fromRow: int, fromCol: int, toRow: int, toCol: int): (valid: bool)
    ensures valid <==> Steps(fromRow, fromCol, toRow, toCol) <= 1
  {
    Abs(fromRow - toRow) <= 1 && Abs(fromCol - toCol) <= 1
  }

  /** isValidMove with the board and the player to move as arguments.  Only
      one of the twelve piece codes is ever moved. */
  function ValidMove(b: Board, player: Color, fromRow: int, fromCol: int, toRow: int, toCol: int): (valid: bool)
    requires OnBoard(fromRow, fromCol) && OnBoard(toRow, toCol)
    ensures valid ==> b[fromRow][fromCol].Piece? && IsPieceCode(b[fromRow][fromCol].letter)
  {
    match b[fromRow][fromCol]
    case Empty => false
    case Piece(piece) =>
      var isTargetPieceEnemy := IsEnemy(piece, b[toRow][toCol]);
      if WrongOwner(player, piece) then false
      else
        match ToLower(piece)
        case 'p' => PawnMove(fromRow, fromCol, toRow, toCol, piece, isTargetPieceEnemy)
        case 'r' => RookMove(b, fromRow, fromCol, toRow, toCol)
        case 'n' => KnightMove(fromRow, fromCol, toRow, toCol)
        case 'b' => BishopMove(b, fromRow, fromCol, toRow, toCol)
        case 'q' => QueenMove(b, fromRow, fromCol, toRow, toCol)
        case 'k' => KingMove(fromRow, fromCol, toRow, toCol)
        case _ => false
  }
}
