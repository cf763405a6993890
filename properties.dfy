// What the move rules of chess.js promise, stated against reference
// definitions that do not mention rays or steps: which squares lie strictly
// between two squares, which offsets a knight or king may jump, and which
// target squares a pawn can enter.  The quirks of the program are stated as
// they are: the destination of a non-pawn move is never inspected, the pawn's
// "enemy" test ignores colour, and its double step ignores the square it
// passes over.

module RuleProperties {
  import opened Pieces
  import opened Rules

  predicate StrictlyBetween(a: int, x: int, b: int)
  {
    a < x < b || b < x < a
  }

  /** (r, c) lies strictly inside the straight or diagonal segment from
      (fromRow, fromCol) to (toRow, toCol). */
  predicate Between(fromRow: int, fromCol: int, toRow: int, toCol: int, r: int, c: int)
  {
    (fromRow == toRow && r == fromRow && StrictlyBetween(fromCol, c, toCol)) ||
    (fromCol == toCol && c == fromCol && StrictlyBetween(fromRow, r, toRow)) ||
    (Abs(toRow - fromRow) == Abs(toCol - fromCol) &&
     StrictlyBetween(fromRow, r, toRow) && StrictlyBetween(fromCol, c, toCol) &&
     Abs(r - fromRow) == Abs(c - fromCol))
  }

  ghost predicate ClearBetween(b: Board, fromRow: int, fromCol: int, toRow: int, toCol: int)
  {
    forall r, c :: OnBoard(r, c) && Between(fromRow, fromCol, toRow, toCol, r, c) ==> b[r][c] == Empty
  }

  /** The eight (row, column) offsets of a knight's jump. */
  const KnightJumps: set<(int, int)> :=
    {(2, 1), (2, -1), (-2, 1), (-2, -1), (1, 2), (1, -2), (-1, 2), (-1, -2)}

  /** The nine offsets a king may take, standing still included. */
  const KingSteps: set<(int, int)> :=
    {(-1, -1), (-1, 0), (-1, 1), (0, -1), (0, 0), (0, 1), (1, -1), (1, 0), (1, 1)}

  // ---------------------------------------------------------------------
  // isPathClear

  /** The ray test reads neither the source nor the destination square. */
  lemma PathClearIgnoresEndpoints(b1: Board, b2: Board, fromRow: int, fromCol: int, toRow: int, toCol: int,
                                  rowStep: int, colStep: int)
    requires OnBoard(fromRow, fromCol) && OnBoard(toRow, toCol)
    requires OnRay(fromRow, fromCol, toRow, toCol, rowStep, colStep)
    requires forall r, c :: OnBoard(r, c) && (r != fromRow || c != fromCol) && (r != toRow || c != toCol) ==>
               b1[r][c] == b2[r][c]
    ensures PathClear(b1, fromRow, fromCol, toRow, toCol, rowStep, colStep) ==
            PathClear(b2, fromRow, fromCol, toRow, toCol, rowStep, colStep)
  {
    forall k | 0 < k < Steps(fromRow, fromCol, toRow, toCol)
      ensures b1[Along(fromRow, rowStep, k)][Along(fromCol, colStep, k)] ==
              b2[Along(fromRow, rowStep, k)][Along(fromCol, colStep, k)]
    {
      assert Along(fromRow, rowStep, k) != fromRow || Along(fromCol, colStep, k) != fromCol;
      assert Along(fromRow, rowStep, k) != toRow || Along(fromCol, colStep, k) != toCol;
    }
  }

  /** The only steps that walk onto the destination are the Math.sign steps
      the callers pass, so PathClearIff covers every call of isPathClear. */
  lemma OnRayStepIsSign(fromRow: int, fromCol: int, toRow: int, toCol: int, rowStep: int, colStep: int)
    requires OnRay(fromRow, fromCol, toRow, toCol, rowStep, colStep)
    ensures rowStep == Sign(toRow - fromRow) && colStep == Sign(toCol - fromCol)
  {
  }

  /** Walking the ray with the Math.sign steps visits exactly the squares
      strictly between source and destination. */
  lemma PathClearIff(b: Board, fromRow: int, fromCol: int, toRow: int, toCol: int)
    requires OnBoard(fromRow, fromCol) && OnBoard(toRow, toCol)
    requires fromRow == toRow || fromCol == toCol || Abs(toRow - fromRow) == Abs(toCol - fromCol)
    ensures OnRay(fromRow, fromCol, toRow, toCol, Sign(toRow - fromRow), Sign(toCol - fromCol))
    ensures PathClear(b, fromRow, fromCol, toRow, toCol, Sign(toRow - fromRow), Sign(toCol - fromCol)) <==>
            ClearBetween(b, fromRow, fromCol, toRow, toCol)
  {
    var dr, dc, n := Sign(toRow - fromRow), Sign(toCol - fromCol), Steps(fromRow, fromCol, toRow, toCol);
    if PathClear(b, fromRow, fromCol, toRow, toCol, dr, dc) {
      forall r, c | OnBoard(r, c) && Between(fromRow, fromCol, toRow, toCol, r, c)
        ensures b[r][c] == Empty
      {
        var k := if fromRow == toRow then Abs(c - fromCol) else Abs(r - fromRow);
        assert 0 < k < n && Along(fromRow, dr, k) == r && Along(fromCol, dc, k) == c;
      }
    }
    if ClearBetween(b, fromRow, fromCol, toRow, toCol) {
      forall k | 0 < k < n
        ensures b[Along(fromRow, dr, k)][Along(fromCol, dc, k)] == Empty
      {
        var r, c := Along(fromRow, dr, k), Along(fromCol, dc, k);
        assert OnBoard(r, c) && Between(fromRow, fromCol, toRow, toCol, r, c);
      }
    }
  }

  // ---------------------------------------------------------------------
  // isValidMove: ownership

  /** Only a piece of the player to move is ever moved: an upper-case letter
      while white is to move, a lower-case one while black is. */
  lemma OwnPieceRequired(b: Board, player: Color, fromRow: int, fromCol: int, toRow: int, toCol: int)
    requires OnBoard(fromRow, fromCol) && OnBoard(toRow, toCol)
    requires ValidMove(b, player, fromRow, fromCol, toRow, toCol)
    ensures b[fromRow][fromCol].Piece?
    ensures player == White ==> 'A' <= b[fromRow][fromCol].letter <= 'Z'
    ensures player == Black ==> 'a' <= b[fromRow][fromCol].letter <= 'z'
  {
  }

  // ---------------------------------------------------------------------
  // The per-piece rules, as seen through the dispatcher

  /** A knight jumps by one of the eight L-shaped offsets; nothing on the
      board other than the knight itself matters. */
  lemma KnightRule(b: Board, player: Color, fromRow: int, fromCol: int, toRow: int, toCol: int)
    requires OnBoard(fromRow, fromCol) && OnBoard(toRow, toCol)
    requires b[fromRow][fromCol] == Piece(if player == White then 'N' else 'n')
    ensures ValidMove(b, player, fromRow, fromCol, toRow, toCol) <==> (toRow - fromRow, toCol - fromCol) in KnightJumps
  {
  }

  /** A king steps to any of the nine squares around and including its own;
      nothing on the board other than the king itself matters. */
  lemma KingRule(b: Board, player: Color, fromRow: int, fromCol: int, toRow: int, toCol: int)
    requires OnBoard(fromRow, fromCol) && OnBoard(toRow, toCol)
    requires b[fromRow][fromCol] == Piece(if player == White then 'K' else 'k')
    ensures ValidMove(b, player, fromRow, fromCol, toRow, toCol) <==> (toRow - fromRow, toCol - fromCol) in KingSteps
  {
  }

  /** A rook moves along its row or column when every square strictly between
      is empty, whatever stands on the destination. */
  lemma RookRule(b: Board, player: Color, fromRow: int, fromCol: int, toRow: int, toCol: int)
    requires OnBoard(fromRow, fromCol) && OnBoard(toRow, toCol)
    requires b[fromRow][fromCol] == Piece(if player == White then 'R' else 'r')
    ensures ValidMove(b, player, fromRow, fromCol, toRow, toCol) <==>
            (fromRow == toRow || fromCol == toCol) && ClearBetween(b, fromRow, fromCol, toRow, toCol)
  {
    if fromRow == toRow || fromCol == toCol {
      PathClearIff(b, fromRow, fromCol, toRow, toCol);
    }
  }

  /** A bishop moves along a diagonal when every square strictly between is
      empty, whatever stands on the destination. */
  lemma BishopRule(b: Board, player: Color, fromRow: int, fromCol: int, toRow: int, toCol: int)
    requires OnBoard(fromRow, fromCol) && OnBoard(toRow, toCol)
    requires b[fromRow][fromCol] == Piece(if player == White then 'B' else 'b')
    ensures ValidMove(b, player, fromRow, fromCol, toRow, toCol) <==>
            Abs(toRow - fromRow) == Abs(toCol - fromCol) && ClearBetween(b, fromRow, fromCol, toRow, toCol)
  {
    if Abs(toRow - fromRow) == Abs(toCol - fromCol) {
      PathClearIff(b, fromRow, fromCol, toRow, toCol);
    }
  }

  /** A queen moves exactly where a rook or a bishop could. */
  lemma QueenRule(b: Board, player: Color, fromRow: int, fromCol: int, toRow: int, toCol: int)
    requires OnBoard(fromRow, fromCol) && OnBoard(toRow, toCol)
    requires b[fromRow][fromCol] == Piece(if player == White then 'Q' else 'q')
    ensures ValidMove(b, player, fromRow, fromCol, toRow, toCol) <==>
            (fromRow == toRow || fromCol == toCol || Abs(toRow - fromRow) == Abs(toCol - fromCol)) &&
            ClearBetween(b, fromRow, fromCol, toRow, toCol)
    ensures ValidMove(b, player, fromRow, fromCol, toRow, toCol) ==
            (RookMove(b, fromRow, fromCol, toRow, toCol) || BishopMove(b, fromRow, fromCol, toRow, toCol))
  {
    if fromRow == toRow || fromCol == toCol || Abs(toRow - fromRow) == Abs(toCol - fromCol) {
      PathClearIff(b, fromRow, fromCol, toRow, toCol);
    }
  }

  /** For a pawn letter, the program's "enemy" test holds exactly when the
      target is occupied by something other than a pawn of either colour. */
  lemma PawnEnemy(piece: char, target: Cell)
    requires piece == 'P' || piece == 'p'
    ensures IsEnemy(piece, target) <==> target !in {Empty, Piece('P'), Piece('p')}
  {
  }

  /** A pawn advances one square, or two from its home row, onto a square that
      is empty or holds a pawn of either colour, and moves one square
      diagonally forward onto any other piece, its own side's included.  The
      square a double step passes over is never looked at. */
  lemma PawnRule(b: Board, player: Color, fromRow: int, fromCol: int, toRow: int, toCol: int)
    requires OnBoard(fromRow, fromCol) && OnBoard(toRow, toCol)
    requires b[fromRow][fromCol] == Piece(if player == White then 'P' else 'p')
    ensures var forward := if player == White then -1 else 1;
            var home := if player == White then 6 else 1;
            var enterable := b[toRow][toCol] in {Empty, Piece('P'), Piece('p')};
            ValidMove(b, player, fromRow, fromCol, toRow, toCol) <==>
              (toCol == fromCol && toRow == fromRow + forward && enterable) ||
              (toCol == fromCol && toRow == fromRow + 2 * forward && fromRow == home && enterable) ||
              (Abs(toCol - fromCol) == 1 && toRow == fromRow + forward && !enterable)
  {
    PawnEnemy(b[fromRow][fromCol].letter, b[toRow][toCol]);
  }

  // ---------------------------------------------------------------------
  // What the dispatcher does not look at

  /** Except for pawns, what stands on the destination square never changes
      the verdict: a move onto one's own piece is accepted like any other. */
  lemma NonPawnIgnoresDestination(b1: Board, b2: Board, player: Color,
                                  fromRow: int, fromCol: int, toRow: int, toCol: int)
    requires OnBoard(fromRow, fromCol) && OnBoard(toRow, toCol)
    requires fromRow != toRow || fromCol != toCol
    requires forall r, c :: OnBoard(r, c) && (r != toRow || c != toCol) ==> b1[r][c] == b2[r][c]
    requires b1[fromRow][fromCol].Piece? && ToLower(b1[fromRow][fromCol].letter) != 'p'
    ensures ValidMove(b1, player, fromRow, fromCol, toRow, toCol) == ValidMove(b2, player, fromRow, fromCol, toRow, toCol)
  {
    if fromRow == toRow || fromCol == toCol || Abs(toRow - fromRow) == Abs(toCol - fromCol) {
      PathClearIff(b1, fromRow, fromCol, toRow, toCol);
      PathClearIff(b2, fromRow, fromCol, toRow, toCol);
      PathClearIgnoresEndpoints(b1, b2, fromRow, fromCol, toRow, toCol, Sign(toRow - fromRow), Sign(toCol - fromCol));
    }
  }

  /** A rook, bishop, queen or king of the player to move may "move" onto its
      own square, and applying that move empties the square. */
  lemma NullMoveErasesPiece(b: Board, player: Color, row: int, col: int)
    requires OnBoard(row, col)
    requires b[row][col].Piece? && b[row][col].letter in (if player == White then "RBQK" else "rbqk")
    ensures ValidMove(b, player, row, col, row, col)
    ensures Moved(b, row, col, row, col)[row][col] == Empty
  {
    MovedCells(b, row, col, row, col, row, col);
  }

  // ---------------------------------------------------------------------
  // Moves from the starting position

  /** 1. e4 e5 2. Nc3 (or Na3) from the program's starting position.  The
      bishop on c1 is blocked towards e3 by its own d-pawn, yet it may land
      on that pawn, already in the starting position.  A white pawn may not
      double-step off its home row or move diagonally onto an empty square,
      and black may not move a white pawn. */
  lemma OpeningSequence()
    ensures var b0 := InitialBoard();
            var b1 := Moved(b0, 6, 4, 4, 4);
            var b2 := Moved(b1, 1, 4, 3, 4);
            ValidMove(b0, White, 6, 4, 4, 4) &&
            ValidMove(b0, White, 7, 2, 6, 3) &&
            !ValidMove(b0, Black, 6, 4, 4, 4) &&
            !ValidMove(b0, White, 6, 4, 5, 3) &&
            ValidMove(b1, Black, 1, 4, 3, 4) &&
            ValidMove(b2, White, 7, 1, 5, 2) &&
            ValidMove(b2, White, 7, 1, 5, 0) &&
            !ValidMove(b2, White, 7, 2, 5, 4) &&
            ValidMove(b2, White, 7, 2, 6, 3) &&
            !ValidMove(Moved(b0, 6, 4, 5, 4), White, 5, 4, 3, 4)
  {
    var b0 := InitialBoard();
    var b1 := Moved(b0, 6, 4, 4, 4);
    var b2 := Moved(b1, 1, 4, 3, 4);
    assert b2[6][3] == Piece('P');
    assert !PathClear(b2, 7, 2, 5, 4, -1, 1) by {
      assert Along(7, -1, 1) == 6 && Along(2, 1, 1) == 3;
    }
  }

  /** A white pawn double-steps over a black knight standing right in front
      of it. */
  lemma DoubleStepJumpsOverPiece()
    ensures var b := InitialBoard()[5 := InitialBoard()[5][4 := Piece('n')]];
            ValidMove(b, White, 6, 4, 4, 4)
  {
  }
}
