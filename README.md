# A verified model of a small chess rules engine

This project models the rules core of a Python chess program in Dafny. It covers
`pieces.py` (the six piece classes and the squares each reaches) and the non-drawing
part of `board.py`:

- the `Board` scans: `FindKing`, `IsEmpty`, `IsSquareAttacked`, `IsKingInCheck`,
  `IsCheckmate`, `TranslateFen`;
- the FEN cursor `ChessParser`;
- the static `MoveManager`: the legality filter with its make/unmake trial, and
  `MovePiece` with capture, en passant, rook relocation, flags, turn flip, promotion
  and the mate test.

The model follows the code as written, including the places where the program does
not play chess by the book.

## Layout

| file | module | what it holds |
|---|---|---|
| `wrappers.dfy` | `Wrappers` | `Option` |
| `pieces.dfy` | `Pieces` | colours, squares, the `Piece` datatype; move and attack generators as functions, and their loops as methods proved equal to them |
| `piece_facts.dfy` | `PieceFacts` | ray shape, pawn rules, castling squares |
| `position.dfy` | `Position` | the read-only queries of `board.py` as functions of a piece list and a turn: clipping, own-colour filter, first king, attack, check, trial move, legality, mate |
| `position_facts.dfy` | `PositionFacts` | what the legality filter and the check/mate tests promise |
| `moves.dfy` | `Moves` | the steps of `MovePiece` as functions on (piece list, mover index) |
| `move_facts.dfy` | `MoveFacts` | what a move does to the list, and small positions that show the quirks |
| `parser.dfy` | `ChessParser` | the FEN cursor as a left fold `Scan`, and the loop proved equal to it |
| `parser_facts.dfy` | `ParserFacts` | turn, rank, file and piece-count arithmetic of the cursor; pieces placed in increasing order |
| `board.dfy` | `Chess` | class `Board` (fields `pieces`, `turn`) and the `MoveManager` methods, each proved against the functions above |

Pieces are values: `King(color, pos, possibleCastle)`, `Rook(color, pos, castling)`,
`Pawn(color, pos, enPassantAble)`, and `Queen`/`Bishop`/`Knight(color, pos)`.
`board.board` is the field `Board.pieces : seq<Piece>`, which the methods reassign.
The class attribute `MoveManager.turn` is folded into the board as `Board.turn`.

A selected piece is named by its index in the list. The steps of `MovePiece` that
remove a piece return the mover's new index.

Colour 0 is `Black`: lower case in FEN, pawns move toward row 7. Colour 1 is `White`:
upper case, pawns move toward row 0. A square is `Square(x, y)`, with x the column and
y the row, and is never bounds-checked unless the code checks it.

### Behaviour reproduced as written

These follow the code, not the rules of chess or the intent described for the
program:

- The queen-side branch of `King.castling` tests file 7 again, so a rook on file 0
  never enables castling. See `PieceFacts.CastlingSquares`.
- `castle_inator` tests the destination ROW against 6 and 2. Castling to g1
  (row 7) leaves the rook where it is (`MoveFacts.CastlingLeavesRook`). A plain king
  step to row 6 drags a rook standing on file 7 of the king's row
  (`MoveFacts.KingStepMovesRook`). The rook keeps its `castling` flag
  (`MoveFacts.RookFollowsKing`).
- `En_passant_takinator` runs on every pawn move. A straight push removes a flagged
  enemy pawn standing beside the pusher (`MoveFacts.PushTakesEnPassant`).
- The trial move of `LegalMoves` and `IsCheckmate` only overwrites the mover's square.
  A piece standing on the target stays in the list and keeps attacking
  (`Position.Trial`).
- `MovePiece` returns `Some(false)` on mate and `None` otherwise, because line 306
  compares the piece with 1. See `Chess.MovePiece`.
- The parser reads the whole string. 'b' is caught by the piece branch first, so it
  places a black bishop and never sets the turn. Only 'w' sets the turn, to White
  (`ParserFacts.ScanTurn`). Letters of the castling field place more pieces past
  the position (`ParserFacts.CastlingFieldPlacesPieces`).

As evidently intended, FEN 'b' would set the turn, the queen-side test would look at
file 0, the castle test would look at the destination file, castling would clear the
rook's eligibility, and `MovePiece` would name the winner. The code does none of
these, and the model follows the code.

## Model

| member | source | states |
|---|---|---|
| `Pieces.Positions` | pieces.py:75 | entry k of `occupied_positions` is the square of piece k, same length |
| `Pieces.OpponentPositions` | pieces.py:187 | a square is listed exactly when a piece of another colour stands on it |
| `Pieces.KingMoves` | pieces.py:30-37 | exactly the 8 squares at offset {-1,0,1}² other than (0,0), with no bounds or occupancy test |
| `Pieces.KnightMoves` | pieces.py:141-158 | exactly the 8 L-shaped squares, whatever stands there |
| `Pieces.CastRays` | pieces.py:73-84 | the nested ray loop of Queen/Rook/Bishop `legal_moves` yields `Rays` over the direction table |
| `Pieces.CastRay` | pieces.py:78-82 | the inner loop: steps 1..7 in order, stopping after (and including) the first occupied square |
| `Pieces.PawnAttacks` | pieces.py:198-201 | both forward diagonals [x±1, y+dir(colour)], whatever the occupancy |
| `Pieces.EnPassantTarget` | pieces.py:203-212 | None iff no enemy pawn with the flag stands in an adjacent file; otherwise [that pawn's x, y+dir] for the first such pawn in list order; the enemy's row is not looked at |
| `Pieces.CheckForEnPassant` | pieces.py:203-212 | the search loop returns `EnPassantTarget` |
| `Pieces.Captures` | pieces.py:189-191 | a diagonal is kept exactly when a piece of another colour holds it |
| `Pieces.PawnLegalMoves` | pieces.py:170-196 | the pawn loop computes `PawnMoves` (steps, captures, en-passant square from the en-passant row, None dropped) |
| `Pieces.PawnCaptures` | pieces.py:189-191 | the removal loop keeps exactly `Captures` of the diagonals |
| `Pieces.RooksOf` | pieces.py:48 | a piece is listed exactly when it is a rook of the king's colour |
| `Pieces.Castling` | pieces.py:39-59 | the rook loop computes `CastlingMoves` |
| `Pieces.LegalMovesOf` | pieces.py:17-18 | `piece.legal_moves(board)` dispatches on the class to the generator of that piece |
| `Pieces.AttackingSquaresOf` | pieces.py:20-21 | `attacking_squares` is the diagonals for a pawn and the moves for every other piece |
| `PieceFacts.RayShape` | pieces.py:77-82 | a ray lists steps i, i+1, … in order; all squares but the last are empty; it stops early only at an occupied square; at most 8-i squares |
| `PieceFacts.RaySquares` | pieces.py:78-82 | each square of a ray is 1..7 steps along the direction with every earlier step empty; at most 7 squares |
| `PieceFacts.RaysSquares` | pieces.py:77-82 | every slider square lies 1..7 steps along one of the piece's directions past empty squares; at most 7 per direction |
| `PieceFacts.DirectionTables` | pieces.py:62-119 | Queen directions = Rook's 4 orthogonal + Bishop's 4 diagonal unit directions |
| `PieceFacts.PawnMovesFrom` | pieces.py:170-196 | a pawn square is offered iff it is the free single step, the double step from the home row with both squares free, an enemy-held diagonal, or the en-passant square from the en-passant row |
| `PieceFacts.EnPassantOnDiagonal` | pieces.py:210-211 | the en-passant square is one of the pawn's two diagonals |
| `PieceFacts.PawnStraight` | pieces.py:174-183 | single step iff its square is empty; double step iff home row and both squares empty; nothing else stays in the pawn's file |
| `PieceFacts.PawnSides` | pieces.py:185-195 | off-file squares are diagonals, each offered iff enemy-held or the en-passant square |
| `PieceFacts.ScanSquares` | pieces.py:49-57 | the rook loop adds x+2 (king side clear) or else x-2 (queen side clear) exactly when some flagged rook stands on file 7 |
| `PieceFacts.CastlingSquares` | pieces.py:39-59 | `King.castling` is empty without the king's flag or a same-colour flagged rook on file 7 (any row); otherwise exactly [x+2,y] if files 5-6 are empty, else [x-2,y] if files 1-3 are empty |
| `Position.Clip` | board.py:165 | a square is kept iff it is in the list and inside [0,7]×[0,7] |
| `Position.WithoutOwn` | board.py:166-167 | a square is kept iff it is in the list and no piece of the mover's colour holds it |
| `Position.KingSquare` | board.py:39-44 | None iff there is no king of that colour from index k on; else the square of the first one in list order |
| `Position.Trial` | board.py:175-177 | the trial overwrites only the mover's square: the mover keeps its kind, colour and flags, and every other entry, the captured piece included, stays |
| `Position.Survivors` | board.py:172-182 | a candidate survives iff its trial leaves the mover's colour out of check |
| `PositionFacts.CandidateSquares` | board.py:163-170 | a candidate is an on-board move not held by the mover's colour, or a castling square of a flagged king, which skips both filters |
| `PositionFacts.LegalSquares` | board.py:153-184 | `m` is legal iff the mover's colour has the turn, `m` is a candidate, and the trial leaves the mover's king out of check |
| `PositionFacts.RestoreTrial` | board.py:175-182 | putting the piece back on its own square restores the list exactly |
| `PositionFacts.AnyFromMeans` | board.py:47-52 | the first-match scan from index k succeeds iff some entry from k on matches |
| `PositionFacts.AttackedScan` | board.py:46-52 | the attacker scan succeeds iff some piece of the attacking colour has the square among its clipped attacked squares |
| `PositionFacts.InCheckKing` | board.py:60-63 | in check iff the colour has a king and its FIRST king stands on a square the other colour attacks, whoever has the turn |
| `PositionFacts.LegalEscapes` | board.py:79-84 | every legal square's trial leaves the mover out of check |
| `PositionFacts.MatedMeans` | board.py:65-92 | mate implies check; for the side not to move, mate iff check; for the side to move, mate iff check and every candidate's trial leaves it in check |
| `PositionFacts.MovableScan` | board.py:72-92 | the piece scan of `IsCheckmate` finds a piece with a legal move iff the no-legal-move half of mate fails |
| `PositionFacts.NoEscapePrefix` | board.py:79-88 | if every trial square leaves the side in check, so does every prefix of them |
| `PositionFacts.TrappedPiece` | board.py:76-88 | the inner trial loop finds no escape iff the piece has no legal move |
| `Moves.RemoveAt` | board.py:201 | `remove` drops exactly one entry: shorter by one, order kept, multiset minus that piece |
| `Moves.RemoveOther` | board.py:212 | removing another piece keeps the mover and re-indexes it |
| `Moves.FirstCapturable` | board.py:199-200 | the first piece of another colour on the target, or None iff there is none |
| `Moves.Capture` | board.py:198-204 | `capturePiece` keeps the mover |
| `Moves.FirstPassedPawn` | board.py:209-210 | the first flagged enemy pawn on the mover's row, or None iff there is none |
| `Moves.TakeEnPassant` | board.py:207-214 | `En_passant_takinator` keeps the mover (what it removes: `MoveFacts.EnPassantRemovesOne`) |
| `Moves.FirstRook` | board.py:226-230 | the first same-colour rook on that file of the king's row, or None iff there is none |
| `Moves.Shift` | board.py:232 | only entry j changes, by `dx` files |
| `Moves.MoveRook` | board.py:217-245 | `castle_inator` keeps the list length and the mover's index, colour and row (what it moves: `MoveFacts.RookStaysUnlessKingRow`, `RookFollowsKing`, `LoneKingUnshifted`) |
| `Moves.MarkDoubleStep` | board.py:276-277 | only the mover may change |
| `Moves.ClearEnPassant` | board.py:280-282 | every pawn of another colour loses its flag; every other entry is unchanged |
| `Moves.Settle` | board.py:285-294 | only the mover's entry changes |
| `MoveFacts.MoverLands` | board.py:276-294 | the mover stands on the target with its colour and kind; a king loses `possible_castle`, a rook `castling`, a pawn has its flag set after a two-row step |
| `MoveFacts.PromotionReplaces` | board.py:297-301 | a pawn reaching row 0 or 7 is replaced by a queen of its colour on the target, appended last; otherwise the list is unchanged by this step |
| `MoveFacts.OpponentFlagsCleared` | board.py:280-282 | after a move no pawn of the other colour is passable |
| `MoveFacts.CaptureRemovesOne` | board.py:198-204 | at most one piece of the other colour standing on the target is removed; nothing changes when there is none |
| `MoveFacts.EnPassantRemovesOne` | board.py:207-214 | nothing changes for a non-pawn or when no flagged enemy pawn stands on the mover's row; otherwise the FIRST such pawn is removed when it is in an adjacent file, and nothing is removed when it is not (the search stops there); never more than one piece |
| `MoveFacts.RookFollowsKing` | board.py:217-245 | when the king's destination row is 6 (or 2), the first rook on file 7 (or 0) of the king's row ends on file 5 (or 3), keeping its `castling` flag; every other piece but the king only has its en-passant flag cleared, and the length is kept |
| `MoveFacts.RookStaysUnlessKingRow` | board.py:219-236 | `castle_inator` changes nothing unless the mover is a king whose destination row is 6 or 2 |
| `MoveFacts.LoneKingUnshifted` | board.py:217-245 | a king moving to a row other than 6 and 2, or finding no rook on the tested file: every other piece only has its en-passant flag cleared (the shift of the king is overwritten) |
| `MoveFacts.PushTakesEnPassant` | board.py:207-214 | white pawn e5 pushing to e6 removes black's flagged pawn on d5 |
| `MoveFacts.PushRemovesNeighbour` | board.py:267-270 | in that position the capture step removes nothing and the en-passant step removes the d5 pawn |
| `MoveFacts.KingStepMovesRook` | board.py:218-232 | a king step from e1 to e2 moves the h1 rook to f1 |
| `MoveFacts.CastlingLeavesRook` | board.py:224 | castling e1 to g1 (destination row 7) leaves the h1 rook in place |
| `ChessParser.CreatePiece` | board.py:134-147 | a piece iff the letter is one of kqrbnp, of that kind, colour and square; kings and rooks start flagged, pawns not passable |
| `ChessParser.TranslateFen` | board.py:104-131 | the character loop computes the left fold `Scan` of `Step` from cursor (0,0): pieces and turn |
| `ParserFacts.ScanConcat` | board.py:111 | reading `a + b` is reading `b` from where `a` left off |
| `ParserFacts.Letters` | board.py:117 | the extracted characters are all piece letters |
| `ParserFacts.ScanTurn` | board.py:128-129 | the turn becomes White iff the string contains 'w', and is unchanged otherwise |
| `ParserFacts.ScanRank` | board.py:112-114 | the rank grows by one per '/' and by nothing else |
| `ParserFacts.Segment` | board.py:113 | the part after the last '/' has no '/' |
| `ParserFacts.ScanFile` | board.py:112-126 | the file is 0 after the last '/' (or the start file) plus each later digit's value and one per piece letter, with no bound |
| `ParserFacts.ScanPieces` | board.py:117-123 | one piece per piece letter, appended in order, of that letter's kind and case colour; earlier pieces unchanged |
| `ParserFacts.PieceAtCursor` | board.py:117-123 | a piece letter's piece, of its kind and case colour, stands on the cursor square at the time the letter is read, right after the pieces placed before it, whatever follows |
| `ParserFacts.ScanOrdered` | board.py:109-131 | pieces are placed in strictly increasing reading order, behind the cursor, on non-negative coordinates |
| `ParserFacts.DistinctSquares` | board.py:109-131 | the parser never puts two pieces on one square |
| `ParserFacts.CastlingFieldPlacesPieces` | board.py:111-129 | "k/K w Kq" yields the two kings, plus a white king and a black queen past white's king, and White to move |
| `Chess.Board.constructor` | board.py:8 | an empty list, colour 0 to move |
| `Chess.Board.FindKing` | board.py:39-44 | the loop returns `KingSquare`, the first king of the colour |
| `Chess.Board.IsSquareAttacked` | board.py:46-52 | true iff some piece of the attacking colour has the square among its clipped attacked squares |
| `Chess.Board.IsEmpty` | board.py:54-58 | true iff no piece stands on the square |
| `Chess.Board.IsKingInCheck` | board.py:60-63 | equals `InCheck`: false without a king (the None square is in no list) |
| `Chess.Board.IsCheckmate` | board.py:65-92 | returns `Mated(pieces, turn, c)` and leaves pieces and turn as they were on every path |
| `Chess.Board.PieceEscapes` | board.py:76-88 | one piece's turn of the mate loop finds an escape iff the piece has a legal move; board restored |
| `Chess.Board.TryMoves` | board.py:79-88 | the trial loop reports an escape iff some square's trial leaves the colour out of check; board restored |
| `Chess.Board.CheckAfter` | board.py:175-182 | one make/unmake trial: the answer is the check status of the trial list, and the list and turn come back unchanged |
| `Chess.Board.TranslateFen` | board.py:94-95 | the board's pieces and turn become the parser's result |
| `Chess.LegalMoves` | board.py:153-184 | [] without a piece; else exactly `Legal` (out of turn gives []); board and turn unchanged |
| `Chess.CandidateMoves` | board.py:163-170 | the pre-trial list is `Candidates` |
| `Chess.KeepSafe` | board.py:172-184 | the trial loop keeps exactly `Survivors`, in order; board unchanged |
| `Chess.AttackedSquares` | board.py:187-190 | the piece's attacked squares clipped to the board |
| `Chess.IsLegalMove` | board.py:193-195 | true iff there is a piece and the square is among its legal moves |
| `Chess.CapturePiece` | board.py:198-204 | the list becomes `Capture` of the old one, mover index tracked, turn unchanged |
| `Chess.EnPassantTakinator` | board.py:207-214 | the list becomes `TakeEnPassant` of the old one, mover index tracked |
| `Chess.CastleInator` | board.py:217-245 | the list becomes `MoveRook` of the old one |
| `Chess.ClearEnPassantFlags` | board.py:280-282 | the list becomes `ClearEnPassant` of the old one |
| `Chess.MovePiece` | board.py:248-306 | no piece or target not in `legal_moves`: None and nothing changes; otherwise the list becomes `Moved`, the turn flips once, and the result is Some(false) iff the other colour is then mated |
| `Chess.MakeMove` | board.py:266-301 | the accepted move: list becomes `Moved`, turn flipped |
| `Chess.PromotePawn` | board.py:297-301 | the list becomes `Promote` of the old one |
| `Chess.ClearAndCastle` | board.py:266-273 | capture, en-passant removal and rook move in order, mover index tracked |
| `Chess.SettleMover` | board.py:275-294 | two-row flag, flag clearing loop, placement on the target and castling flag drop |

## Left out

- Drawing and input: `Board.__init__`'s `graphical_board`, `DrawBoard`, `DrawPieces`
  and `DrawSelectedSquares` (board.py:7-37), all of main.py, and the constants
  module, whose values are used only for drawing.
- `Piece.rect` and all pixel arithmetic (pieces.py:12; board.py:233, 245, 252-264).
  `MovePiece` takes the target square as a parameter instead of rounding the dragged
  rectangle. The reset of the rectangle after an illegal drop is not modelled.
- `__repr__`, `piece_type`, the unused `King.in_check` flag and the `del piece`
  statements have no effect on the rules.
- Object identity and list aliasing: a piece is named by its index, and positions
  are value pairs. `FindKing` handing out the live position list and the promoted
  queen sharing the pawn's list have no observable effect here.
- `Chess.Board.IsKingInCheck`: the source passes the None that `FindKing` returns to
  `IsSquareAttacked`. No attacked-square list contains None, so the model returns
  false at once.
- `ChessParser.Lower`: `str.lower` is modelled only for ASCII capitals and the Kelvin
  sign. These are the only characters whose lower case is one of the six piece
  letters, so the parser's two questions get the same answers.
- `MoveManager.turn` is a class attribute shared by all boards. Here it is a field
  of the one board.
- Stalemate, draws, move history and the FEN fields beyond what the cursor loop
  reads do not exist in the program.
