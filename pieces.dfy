// Piece codes, colours and the board as a value.
//
// A square holds either nothing (the empty string "" in the program) or a
// one-letter piece code: upper case is white, lower case is black, and the
// letter names the type (p, n, b, r, q, k).

module Pieces {

  datatype Color = White | Black

  /** The player who moves next after `c`. */
  function Opponent(c: Color): (next: Color)
  {
    match c
    case White => Black
    case Black => White
  }

  /** The contents of one square. `Empty` stands for the empty string. */
  datatype Cell = Empty | Piece(letter: char)

  /** ASCII upper-casing of one letter; every other character is unchanged. */
  function ToUpper(c: char): (upper: char)
  {
    if 'a' <= c <= 'z' then (c as int - 32) as char else c
  }

  /** ASCII lower-casing of one letter; every other character is unchanged. */
  function ToLower(c: char): (lower: char)
  {
    if 'A' <= c <= 'Z' then (c as int + 32) as char else c
  }

  /** The twelve piece codes the program ever places on the board. */
  predicate IsPieceCode(c: char)
  {
    c in "PNBRQKpnbrqk"
  }

  predicate IsPieceCell(x: Cell)
  {
    x.Empty? || IsPieceCode(x.letter)
  }

  /** An 8x8 grid of squares; row 0 is black's back rank, row 7 white's. */
  type Board = b: seq<seq<Cell>> | |b| == 8 && forall r :: 0 <= r < 8 ==> |b[r]| == 8
    witness [EmptyRank, EmptyRank, EmptyRank, EmptyRank, EmptyRank, EmptyRank, EmptyRank, EmptyRank]

  predicate OnBoard(r: int, c: int)
  {
    0 <= r < 8 && 0 <= c < 8
  }

  /** Two boards are equal when they agree on every square. */
  lemma BoardEquality(b1: Board, b2: Board)
    requires forall r, c :: OnBoard(r, c) ==> b1[r][c] == b2[r][c]
    ensures b1 == b2
  {
    forall r | 0 <= r < 8
      ensures b1[r] == b2[r]
    {
      assert forall c :: 0 <= c < 8 ==> b1[r][c] == b2[r][c];
    }
  }

  function Rank(s: string): (rank: seq<Cell>)
  {
    seq(|s|, i requires 0 <= i < |s| => Piece(s[i]))
  }

  const EmptyRank: seq<Cell> := [Empty, Empty, Empty, Empty, Empty, Empty, Empty, Empty]

  /** The starting position the program's board is initialised with. */
  function InitialBoard(): (b: Board)
    ensures forall r, c :: OnBoard(r, c) ==> IsPieceCell(b[r][c])
  {
    [ Rank("rnbqkbnr"),
      Rank("pppppppp"),
      EmptyRank, EmptyRank, EmptyRank, EmptyRank,
      Rank("PPPPPPPP"),
      Rank("RNBQKBNR") ]
  }

  /** Black holds rows 0-1, white rows 6-7, rows 2-5 are empty, and the
      back ranks mirror each other with the case swapped. */
  lemma InitialBoardLayout()
    ensures forall r, c :: OnBoard(r, c) && 2 <= r <= 5 ==> InitialBoard()[r][c] == Empty
    ensures forall r, c :: OnBoard(r, c) && r <= 1 ==>
              InitialBoard()[r][c].Piece? && 'a' <= InitialBoard()[r][c].letter <= 'z'
    ensures forall r, c :: OnBoard(r, c) && 6 <= r ==>
              InitialBoard()[r][c].Piece? && 'A' <= InitialBoard()[r][c].letter <= 'Z'
    ensures forall r, c :: OnBoard(r, c) && r <= 1 ==>
              InitialBoard()[7 - r][c] == Piece(ToUpper(InitialBoard()[r][c].letter))
    ensures forall c :: 0 <= c < 8 ==> InitialBoard()[1][c] == Piece('p') && InitialBoard()[6][c] == Piece('P')
  {
  }

  /** The board after the program's two assignments for an accepted move:
      the destination receives the source's contents, then the source is
      cleared. */
  function Moved(b: Board, fromRow: int, fromCol: int, toRow: int, toCol: int): (after: Board)
    requires OnBoard(fromRow, fromCol) && OnBoard(toRow, toCol)
    ensures after[fromRow][fromCol] == Empty
    ensures fromRow != toRow || fromCol != toCol ==> after[toRow][toCol] == b[fromRow][fromCol]
  {
    var b1 := b[toRow := b[toRow][toCol := b[fromRow][fromCol]]];
    b1[fromRow := b1[fromRow][fromCol := Empty]]
  }

  /** Square by square: the source is empty afterwards, the destination holds
      the moved piece (unless it is the source itself), nothing else changes. */
  lemma MovedCells(b: Board, fromRow: int, fromCol: int, toRow: int, toCol: int, r: int, c: int)
    requires OnBoard(fromRow, fromCol) && OnBoard(toRow, toCol) && OnBoard(r, c)
    ensures Moved(b, fromRow, fromCol, toRow, toCol)[r][c] ==
              if r == fromRow && c == fromCol then Empty
              else if r == toRow && c == toCol then b[fromRow][fromCol]
              else b[r][c]
  {
  }

  /** A move never brings a code onto the board that was not there before. */
  lemma MovedKeepsPieceCodes(b: Board, fromRow: int, fromCol: int, toRow: int, toCol: int)
    requires OnBoard(fromRow, fromCol) && OnBoard(toRow, toCol)
    requires forall r, c :: OnBoard(r, c) ==> IsPieceCell(b[r][c])
    ensures forall r, c :: OnBoard(r, c) ==> IsPieceCell(Moved(b, fromRow, fromCol, toRow, toCol)[r][c])
  {
    forall r, c | OnBoard(r, c)
      ensures IsPieceCell(Moved(b, fromRow, fromCol, toRow, toCol)[r][c])
    {
      MovedCells(b, fromRow, fromCol, toRow, toCol, r, c);
    }
  }
}
