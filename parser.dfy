/**
 * `ChessParser` of board.py: a cursor that walks a FEN string one character at a
 * time. Every character of the string is read, so letters of the later fields
 * (castling rights, for instance) also place pieces, past the last file.
 */
module ChessParser {
  import opened Wrappers
  import opened Pieces

  /** Python's `str.lower` on the characters that matter here: ASCII capitals and
      the Kelvin sign, which lower-cases to 'k'. Every other character is returned
      unchanged, which is exact for the two questions the parser asks of it. */
  function Lower(ch: char): char
  {
    if 'A' <= ch <= 'Z' then (ch as int - 'A' as int + 'a' as int) as char
    else if ch == '\U{212A}' then 'k'
    else ch
  }

  /** Membership in "kqrbnp", one letter at a time. */
  predicate PieceKind(ch: char)
  {
    ch == 'k' || ch == 'q' || ch == 'r' || ch == 'b' || ch == 'n' || ch == 'p'
  }

  /** The letter `create_piece` reads for each kind of piece. */
  function KindLetter(p: Piece): char
  {
    match p
    case King(_, _, _) => 'k'
    case Queen(_, _) => 'q'
    case Rook(_, _, _) => 'r'
    case Bishop(_, _) => 'b'
    case Knight(_, _) => 'n'
    case Pawn(_, _, _) => 'p'
  }

  /** `ChessParser.create_piece`: a fresh piece for one of the six letters, kings and
      rooks with their castling flags set and pawns not yet passable; None otherwise. */
  function CreatePiece(c: Color, kind: char, at: Square): (r: Option<Piece>)
    ensures r.Some? <==> PieceKind(kind)
    ensures r.Some? ==> r.value.color == c && r.value.pos == at && KindLetter(r.value) == kind
    ensures r.Some? && r.value.King? ==> r.value.possibleCastle
    ensures r.Some? && r.value.Rook? ==> r.value.castling
    ensures r.Some? && r.value.Pawn? ==> !r.value.enPassantAble
  {
    if kind == 'p' then Some(Pawn(c, at, false))
    else if kind == 'n' then Some(Knight(c, at))
    else if kind == 'b' then Some(Bishop(c, at))
    else if kind == 'r' then Some(Rook(c, at, true))
    else if kind == 'q' then Some(Queen(c, at))
    else if kind == 'k' then Some(King(c, at, true))
    else None
  }

  /** The parser's state: the pieces so far, the cursor (file, rank) and the turn. */
  datatype Cursor = Cursor(pieces: seq<Piece>, file: nat, rank: nat, turn: Color)

  /** A character whose lower case is one of the six piece letters. */
  predicate IsPieceLetter(ch: char)
  {
    PieceKind(Lower(ch))
  }

  /** Lower case is black (colour 0), anything else white (colour 1). */
  function LetterColor(ch: char): Color
  {
    if ch == Lower(ch) then Black else White
  }

  /** One turn of the loop in `ChessParser.TranslateFen`. */
  function Step(cur: Cursor, ch: char): Cursor
  {
    if ch == '/' then cur.(file := 0, rank := cur.rank + 1)
    else if IsPieceLetter(ch) then
      match CreatePiece(LetterColor(ch), Lower(ch), Square(cur.file, cur.rank))
      case Some(p) => cur.(pieces := cur.pieces + [p], file := cur.file + 1)
      case None => cur
    else if '1' <= ch <= '8' then cur.(file := cur.file + (ch as int - '0' as int))
    else if ch == 'w' || ch == 'b' then cur.(turn := if ch == 'b' then Black else White)
    else cur
  }

  /** The state after reading all of `fen`. */
  function Scan(fen: string, start: Cursor): Cursor
  {
    if fen == [] then start else Step(Scan(fen[..|fen| - 1], start), fen[|fen| - 1])
  }

  /** The state the loop starts from: no pieces, cursor on (0, 0). */
  function Start(turn: Color): Cursor
  {
    Cursor([], 0, 0, turn)
  }

  /** `ChessParser.TranslateFen`, with `MoveManager.turn` passed in and handed back. */
  method TranslateFen(fen: string, turn0: Color) returns (pieces: seq<Piece>, turn: Color)
    ensures pieces == Scan(fen, Start(turn0)).pieces && turn == Scan(fen, Start(turn0)).turn
  {
    pieces, turn := [], turn0;
    var file: nat, rank: nat := 0, 0;
    for i := 0 to |fen|
      invariant Cursor(pieces, file, rank, turn) == Scan(fen[..i], Start(turn0))
    {
      var ch := fen[i];
      assert fen[..i + 1][..i] == fen[..i];
      if ch == '/' {
        file, rank := 0, rank + 1;
        continue;
      } else if PieceKind(Lower(ch)) {
        var color := if ch == Lower(ch) then Black else White;
        var piece := CreatePiece(color, Lower(ch), Square(file, rank));
        if piece.Some? {
          pieces := pieces + [piece.value];
          file := file + 1;
        }
        continue;
      } else if '1' <= ch <= '8' {
        file := file + (ch as int - '0' as int);
      } else if ch == 'w' || ch == 'b' {
        turn := if ch == 'b' then Black else White;
      }
    }
    assert fen[..|fen|] == fen;
  }
}
