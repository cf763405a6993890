# Chessboard move validator

A verified model of the move-validation engine of a browser chessboard
(`chess.js`). The board is an 8×8 grid of one-letter piece codes. Upper case
is white, lower case is black, and the empty string marks an empty square. A
global flag `currentPlayer` says whose turn it is. When a player picks a
source and a destination square, `isValidMove` checks that the source holds a
piece of the player to move. It then hands the move to one of six per-piece
rules. The rook, bishop and queen rules call `isPathClear`, which walks the
ray between the two squares. If the move is accepted, the click handler
copies the piece to the destination, clears the source and passes the turn.

The model is in four modules:

- `Pieces` (`pieces.dfy`): colours, square contents (`Cell = Empty | Piece(letter)`,
  where `Empty` is the program's `""`), ASCII case mapping, the board as a value
  (`Board`, 8 rows of 8 cells), the starting position, and `Moved`. `Moved`
  gives the board after the two assignments of an accepted move.
- `Rules` (`rules.dfy`): the program's rule functions as pure predicates over a
  board value. These are `PathClear`, `PawnMove`, `RookMove`, `KnightMove`,
  `BishopMove`, `QueenMove`, `KingMove` and the dispatcher `ValidMove`, which
  takes the player to move as an argument. They keep the program's branches,
  constants and order of tests.
- `ChessGame` (`game.dfy`): the program's global state as a class `Game`, with
  `board: array2<Cell>` and `currentPlayer: Color`. `IsPathClear` is the
  program's `while` loop. The rook, bishop, queen and dispatcher methods read
  the array and change nothing. `ApplyMove` validates a move and, on success,
  updates the array in place and flips the turn. `IsPathClear`,
  `IsValidRookMove`, `IsValidBishopMove`, `IsValidQueenMove` and `IsValidMove`
  are proved equal to the matching predicate of `Rules`, evaluated on a
  snapshot of the array. The constructor is proved against
  `Pieces.InitialBoard`, and `ApplyMove`'s new state against `Pieces.Moved`.
  The pawn, knight and king rules have no loop and no state, so the
  dispatcher method calls their `Rules` predicates directly.
- `RuleProperties` (`properties.dfy`): what the rules promise, stated against
  reference definitions that mention no rays or steps. "Strictly between" is
  defined geometrically, and knight and king moves are fixed sets of offsets.
  It also holds the program's quirks and a short opening.

Behaviour modelled exactly as the code has it, where the usual rules of chess
say otherwise:

- The pawn's "enemy" test compares the two letters after upper-casing them. It
  therefore ignores colour. A pawn may advance straight onto a pawn of either
  colour, and that pawn is then gone from `board`. It may take diagonally any
  non-pawn piece, its own side's included, and it can never take a pawn
  diagonally.
- Only the pawn rule looks at the destination. A rook, knight, bishop, queen
  or king may move onto a piece of its own side. So the bishop on c1 may move
  onto its own d-pawn, both from the starting position and after 1. e4 e5, as
  `OpeningSequence` shows.
- A "move" onto the source square itself is accepted for rook, bishop, queen
  and king. The two assignments of the click handler then leave that square
  empty, so the piece disappears from `board` (`NullMoveErasesPiece`), while
  the page still shows it and the turn passes.
- The two-square pawn advance does not look at the square it passes over.

## Model

| member | source | states |
|---|---|---|
| Pieces.InitialBoard | chess.js:1-10 | The board literal; every square holds the empty marker or one of the twelve piece codes |
| Pieces.Moved | chess.js:72-73 | The board after the two assignments: the source square ends up empty, and a distinct destination holds what stood on the source |
| Pieces.InitialBoardLayout | chess.js:1-10 | The starting position: black letters on rows 0-1, white letters on rows 6-7, rows 2-5 empty, pawns on rows 1 and 6, and each white back-rank piece the upper case of the black piece facing it |
| Pieces.MovedCells | chess.js:72-73 | After an accepted move the source square is empty, the destination holds the source's former contents unless it is the source itself, and every other square is unchanged |
| Pieces.MovedKeepsPieceCodes | chess.js:72-73 | A move never puts anything on the board except the empty marker and codes that were already there |
| Rules.PathClear | chess.js:153-164 | isPathClear on a board value, for a step that lands on the destination; a move to a neighbouring square, or onto the source itself, is always clear |
| Rules.IsEnemy | chess.js:88 | isTargetPieceEnemy: holds only for an occupied target, and between piece codes exactly when the two kinds of piece differ, whatever their colours |
| Rules.WrongOwner | chess.js:91-93 | The ownership test: a piece code is refused exactly when its case belongs to the other player, and a character that is no letter is always refused |
| Rules.PawnMove | chess.js:108-121 | isValidPawnMove: an accepted move goes towards row 0 for 'P' and towards row 7 otherwise, at most two rows and one column; it is straight exactly when the target is not an "enemy", and a two-row move is straight and starts on row 6 or 1 |
| Rules.RookMove | chess.js:123-131 | isValidRookMove on a board value: accepted moves stay on the source's row or column, and a single orthogonal step (or no step) is always accepted |
| Rules.KnightMove | chess.js:133-136 | isValidKnightMove: accepted iff both coordinates change and the row and column deltas add up to 3 in size |
| Rules.BishopMove | chess.js:138-143 | isValidBishopMove on a board value: accepted moves have deltas of equal size, and a single diagonal step (or no step) is always accepted |
| Rules.QueenMove | chess.js:145-147 | isValidQueenMove on a board value: accepted moves lie on a row, a column or a diagonal, and any step to a neighbouring square (or no step) is accepted |
| Rules.KingMove | chess.js:149-151 | isValidKingMove: accepted iff the destination is at most one step away in every direction, the source square included |
| Rules.ValidMove | chess.js:83-105 | isValidMove on a board value and the player to move: an accepted move always starts from a square holding one of the twelve piece codes |
| ChessGame.Game.constructor | chess.js:1-19 | The game starts from the literal starting position with white to move |
| ChessGame.Game.IsPathClear | chess.js:153-164 | Given a step that lands on the destination, the loop terminates and returns true exactly when every square strictly between source and destination on the ray is empty |
| ChessGame.Game.IsValidRookMove | chess.js:123-131 | Returns the rook rule: same row or same column, with the ray walked by the Math.sign steps clear |
| ChessGame.Game.IsValidBishopMove | chess.js:138-143 | Returns the bishop rule: equal absolute row and column deltas, with the diagonal ray clear |
| ChessGame.Game.IsValidQueenMove | chess.js:145-147 | Returns rook-legal or bishop-legal |
| ChessGame.Game.IsValidMove | chess.js:83-105 | Returns the dispatcher's verdict on the current board and player, and changes neither the board nor the turn |
| ChessGame.Game.ApplyMove | chess.js:70-75 | An accepted move copies the piece, clears the source and flips the turn, and no other square changes. A rejected move changes neither board nor turn. The board keeps only valid codes |
| RuleProperties.PathClearIgnoresEndpoints | chess.js:153-164 | The ray test never reads the source or the destination square |
| RuleProperties.OnRayStepIsSign | chess.js:125-140 | Every step that walks from the source onto the destination is the Math.sign step of the row and column deltas, which is what the rook and bishop rules pass |
| RuleProperties.PathClearIff | chess.js:153-164 | On a straight or diagonal line, walking with the Math.sign steps visits exactly the squares strictly between source and destination, so the test holds iff those squares are all empty |
| RuleProperties.OwnPieceRequired | chess.js:84-94 | An accepted move starts from an occupied square whose letter is upper case when white is to move and lower case when black is to move |
| RuleProperties.KnightRule | chess.js:133-136 | A knight move is accepted iff the offset is one of the eight L-shaped jumps, whatever else is on the board |
| RuleProperties.KingRule | chess.js:149-151 | A king move is accepted iff the offset is one of the nine offsets with both deltas in [-1, 1], standing still included, whatever else is on the board |
| RuleProperties.RookRule | chess.js:123-131 | A rook move is accepted iff source and destination share a row or a column and every square strictly between is empty; the destination's occupant plays no part |
| RuleProperties.BishopRule | chess.js:138-143 | A bishop move is accepted iff the row and column deltas have equal size and every square strictly between is empty; the destination's occupant plays no part |
| RuleProperties.QueenRule | chess.js:145-147 | A queen move is accepted iff it lies on a line or a diagonal with every square strictly between empty, which is exactly rook-legal or bishop-legal |
| RuleProperties.PawnEnemy | chess.js:88 | For a pawn, the case-insensitive enemy test holds iff the target is occupied by something other than a pawn of either colour |
| RuleProperties.PawnRule | chess.js:108-121 | White pawns move towards row 0 and black ones towards row 7. The move is accepted iff it is one straight step onto an empty or pawn-occupied square, two straight steps from row 6 or 1 onto such a square (the middle square unexamined), or one diagonal step onto any other piece |
| RuleProperties.NonPawnIgnoresDestination | chess.js:96-105 | For every piece but the pawn, changing only what stands on the destination never changes the verdict |
| RuleProperties.NullMoveErasesPiece | chess.js:70-75 | A rook, bishop, queen or king of the player to move may move onto its own square, and applying that move leaves the square empty on the board |
| RuleProperties.OpeningSequence | chess.js:83-164 | From the starting position white can play e2-e4, then black e7-e5, then white either knight jump. A diagonal pawn step onto an empty square, a double step off the home row and moving the opponent's piece are all rejected. The c1 bishop is blocked towards e3 but may land on its own d-pawn, both from the starting position and after 1. e4 e5 |
| RuleProperties.DoubleStepJumpsOverPiece | chess.js:114 | A white pawn on its home row double-steps even when a piece stands on the square in front of it |

## Left out

- Rendering (`drawBoard`), the glyph table, highlighting and the initial `drawBoard()` call are left out; they are DOM work.
- Selection in the click handler is left out, and it does gate moves. The program lets a player pick a source square only if the square's DOM element carries the mover's colour class, not by reading `board`. It moves the piece's element onto the target square without removing a captured piece's element, so after a capture the first `.piece` element there is the captured one. After taking an opponent's piece, the owner can no longer select the capturing piece. After taking one of its own pieces, a click on that square picks up the taken piece's element, while the move validated and applied to `board` is the capturing piece's. `ApplyMove` accepts a move from any square, so the model reaches a superset of the boards the program reaches.
- `form.js` is not part of this model; it is page-scroll and form-submit UI code.
- Check, checkmate, castling, en passant and promotion do not exist in the program and are not modelled.
- Case mapping is ASCII only. JavaScript's `toUpperCase`/`toLowerCase` are Unicode-wide, but the board only ever holds the twelve ASCII piece letters, as `Game.Valid` records.
- A square is `Empty` or `Piece(letter)` rather than a string. The program only ever stores `""` or a one-letter code, and `!piece` is exactly the `Empty` case.
- `currentPlayer` is a two-valued `Color` rather than the strings `'white'`/`'black'`, which are the only values the program assigns.
- Coordinates come from the squares' `data-row`/`data-col` attributes, so they always lie in 0-7. The model requires that rather than modelling `parseInt` of DOM data.
- `IsPathClear` requires a step that lands on the destination, with the zero step for a move onto the source square. Every call in the program passes such a step. With any other step the JavaScript loop could run off the grid, or stop early at an occupied square.
- The interleaving of clicks and the DOM node moved by `square.appendChild(selectedPiece)` are not modelled; only the board and turn updates that follow a validation are.
