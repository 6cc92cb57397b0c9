/**
 * The pieces and the squares each kind of piece reaches (pieces.py).
 *
 * A square is `[x, y]`: x is the column, y the row. Colour 0 (Black) is written
 * in lower case in a position string and its pawns move toward row 7; colour 1
 * (White) is written in upper case and its pawns move toward row 0.
 *
 * The generators read the piece list (`board.board`) and never change it, so
 * each takes that list as a value. Comprehensions are functions; every loop of
 * pieces.py is a method proved equal to the function that specifies it.
 * Candidate squares are neither clipped to the board nor filtered by colour here.
 */
module Pieces {
  import opened Wrappers

  datatype Color = Black | White {
    /** The other colour (`1 - color`). */
    function Opponent(): (o: Color)
      ensures o != this
    {
      if this == Black then White else Black
    }
  }

  datatype Square = Square(x: int, y: int)

  /** One constructor per piece class; each carries only the flags its class has. */
  datatype Piece =
    | King(color: Color, pos: Square, possibleCastle: bool)
    | Queen(color: Color, pos: Square)
    | Rook(color: Color, pos: Square, castling: bool)
    | Bishop(color: Color, pos: Square)
    | Knight(color: Color, pos: Square)
    | Pawn(color: Color, pos: Square, enPassantAble: bool)

  function Abs(n: int): nat
  {
    if n < 0 then -n else n
  }

  /** `Pawn.directions`, `Pawn.special_ranks` and `Pawn.en_passant_rank`, indexed by colour. */
  function Direction(c: Color): int
  {
    if c == Black then 1 else -1
  }

  function SpecialRank(c: Color): int
  {
    if c == Black then 1 else 6
  }

  function EnPassantRank(c: Color): int
  {
    if c == Black then 4 else 3
  }

  /** Some piece stands on `s` (`s in occupied_positions`). */
  predicate Occupied(pieces: seq<Piece>, s: Square)
  {
    s in Positions(pieces)
  }

  /** A piece of a colour other than `c` stands on `s`. */
  predicate HeldByOpponent(pieces: seq<Piece>, s: Square, c: Color)
  {
    exists k :: 0 <= k < |pieces| && pieces[k].pos == s && pieces[k].color != c
  }

  /** `[piece.position for piece in board.board]` */
  function Positions(pieces: seq<Piece>): (r: seq<Square>)
    ensures |r| == |pieces|
    ensures forall k :: 0 <= k < |pieces| ==> r[k] == pieces[k].pos
  {
    seq(|pieces|, k requires 0 <= k < |pieces| => pieces[k].pos)
  }

  /** `[piece.position for piece in board.board if piece.color != self.color]` */
  function OpponentPositions(pieces: seq<Piece>, c: Color): (r: seq<Square>)
    ensures forall s :: s in r <==> HeldByOpponent(pieces, s, c)
  {
    if pieces == [] then []
    else
      var last := pieces[|pieces| - 1];
      var prefix := OpponentPositions(pieces[..|pieces| - 1], c);
      assert forall s :: HeldByOpponent(pieces, s, c) <==>
        HeldByOpponent(pieces[..|pieces| - 1], s, c) || (last.pos == s && last.color != c);
      prefix + if last.color != c then [last.pos] else []
  }

  // ---------------------------------------------------------------- King, Knight

  /** `King.legal_moves` and `King.attacking_squares`: the eight neighbours, in source order. */
  function KingMoves(from: Square): (r: seq<Square>)
    ensures |r| == 8
    ensures forall s :: s in r <==>
      s != from && -1 <= s.x - from.x <= 1 && -1 <= s.y - from.y <= 1
  {
    var x, y := from.x, from.y;
    [Square(x - 1, y - 1), Square(x - 1, y), Square(x - 1, y + 1),
     Square(x, y - 1), Square(x, y + 1),
     Square(x + 1, y - 1), Square(x + 1, y), Square(x + 1, y + 1)]
  }

  /** `Knight.moves` offsets added to the knight's square, whatever stands there. */
  function KnightMoves(from: Square): (r: seq<Square>)
    ensures |r| == 8
    ensures forall s :: s in r <==>
      (Abs(s.x - from.x) == 1 && Abs(s.y - from.y) == 2) ||
      (Abs(s.x - from.x) == 2 && Abs(s.y - from.y) == 1)
  {
    var x, y := from.x, from.y;
    [Square(x - 2, y - 1), Square(x - 2, y + 1),
     Square(x + 2, y - 1), Square(x + 2, y + 1),
     Square(x - 1, y + 2), Square(x - 1, y - 2),
     Square(x + 1, y + 2), Square(x + 1, y - 2)]
  }

  // ---------------------------------------------------------------- Queen, Rook, Bishop

  const QueenDirections: seq<(int, int)> :=
    [(0, 1), (0, -1), (1, 0), (-1, 0), (1, 1), (-1, -1), (-1, 1), (1, -1)]
  const RookDirections: seq<(int, int)> := [(0, 1), (0, -1), (1, 0), (-1, 0)]
  const BishopDirections: seq<(int, int)> := [(1, 1), (-1, -1), (-1, 1), (1, -1)]

  /** The square `i` steps from `from` in direction `d`. */
  function Along(from: Square, d: (int, int), i: int): Square
  {
    Square(from.x + i * d.0, from.y + i * d.1)
  }

  /** The ray in direction `d` from step `i` on: each step up to 7 in order, ending
      right after the first occupied square, which is included. */
  function Ray(pieces: seq<Piece>, from: Square, d: (int, int), i: nat): seq<Square>
    decreases 8 - i
  {
    if i >= 8 then []
    else
      var s := Along(from, d, i);
      if Occupied(pieces, s) then [s] else [s] + Ray(pieces, from, d, i + 1)
  }

  /** The rays of all directions in `dirs`, one after the other. */
  function Rays(pieces: seq<Piece>, from: Square, dirs: seq<(int, int)>): seq<Square>
  {
    if dirs == [] then []
    else Rays(pieces, from, dirs[..|dirs| - 1]) + Ray(pieces, from, dirs[|dirs| - 1], 1)
  }

  /** The loop shared by `Queen.legal_moves`, `Rook.legal_moves` and `Bishop.legal_moves`. */
  method CastRays(pieces: seq<Piece>, from: Square, dirs: seq<(int, int)>) returns (moves: seq<Square>)
    ensures moves == Rays(pieces, from, dirs)
  {
    var occupied := Positions(pieces);
    moves := [];
    for k := 0 to |dirs|
      invariant moves == Rays(pieces, from, dirs[..k])
    {
      var ray := CastRay(pieces, occupied, from, dirs[k]);
      moves := moves + ray;
      assert dirs[..k + 1][..k] == dirs[..k];
    }
    assert dirs[..|dirs|] == dirs;
  }

  /** The inner loop of `CastRays`: steps 1 to 7 in direction `d`, stopping after an occupied square. */
  method CastRay(pieces: seq<Piece>, occupied: seq<Square>, from: Square, d: (int, int)) returns (ray: seq<Square>)
    requires occupied == Positions(pieces)
    ensures ray == Ray(pieces, from, d, 1)
  {
    ghost var whole := Ray(pieces, from, d, 1);
    ray := [];
    var i := 1;
    while i < 8
      invariant 1 <= i <= 8
      invariant ray + Ray(pieces, from, d, i) == whole
    {
      var possible := Along(from, d, i);
      ghost var rest := Ray(pieces, from, d, i + 1);
      assert Ray(pieces, from, d, i) == if possible in occupied then [possible] else [possible] + rest;
      if possible in occupied {
        ray := ray + [possible];
        break;
      }
      assert (ray + [possible]) + rest == ray + ([possible] + rest);
      ray := ray + [possible];
      i := i + 1;
    }
  }

  // ---------------------------------------------------------------- Pawn

  /** `Pawn.attacking_squares`: both forward diagonals, whatever stands there. */
  function PawnAttacks(c: Color, from: Square): (r: seq<Square>)
    ensures |r| == 2
    ensures forall s :: s in r <==> s.y == from.y + Direction(c) && Abs(s.x - from.x) == 1
  {
    [Square(from.x - 1, from.y + Direction(c)), Square(from.x + 1, from.y + Direction(c))]
  }

  /** A pawn of colour `c` on `from` may take `q` en passant: an enemy pawn with the
      flag set in an adjacent file. The enemy pawn's row is not looked at. */
  predicate EnPassantVictim(q: Piece, c: Color, from: Square)
  {
    q.Pawn? && q.color == c.Opponent() && q.enPassantAble && Abs(q.pos.x - from.x) == 1
  }

  /** `Pawn.check_for_en_passant` from list index `k` on: the square behind the first
      en-passant victim, or None. */
  function EnPassantTarget(pieces: seq<Piece>, c: Color, from: Square, k: nat): (r: Option<Square>)
    decreases |pieces| - k
    ensures r.None? <==> forall j :: k <= j < |pieces| ==> !EnPassantVictim(pieces[j], c, from)
    ensures r.Some? ==> exists j :: (k <= j < |pieces| && EnPassantVictim(pieces[j], c, from) &&
      r.value == Square(pieces[j].pos.x, from.y + Direction(c)) &&
      forall i :: k <= i < j ==> !EnPassantVictim(pieces[i], c, from))
  {
    if k >= |pieces| then None
    else if EnPassantVictim(pieces[k], c, from) then Some(Square(pieces[k].pos.x, from.y + Direction(c)))
    else EnPassantTarget(pieces, c, from, k + 1)
  }

  method CheckForEnPassant(pieces: seq<Piece>, c: Color, from: Square) returns (r: Option<Square>)
    ensures r == EnPassantTarget(pieces, c, from, 0)
  {
    for k := 0 to |pieces|
      invariant EnPassantTarget(pieces, c, from, k) == EnPassantTarget(pieces, c, from, 0)
    {
      var piece := pieces[k];
      if piece.Pawn? && piece.color == c.Opponent() {
        if !piece.enPassantAble {
          continue;
        }
        if Abs(piece.pos.x - from.x) == 1 {
          return Some(Square(piece.pos.x, from.y + Direction(c)));
        }
      }
    }
    return None;
  }

  /** The squares of `squares`, in order, that a piece of a colour other than `c` holds. */
  function Captures(squares: seq<Square>, pieces: seq<Piece>, c: Color): (r: seq<Square>)
    ensures forall s :: s in r <==> s in squares && HeldByOpponent(pieces, s, c)
  {
    if squares == [] then []
    else
      var last := squares[|squares| - 1];
      Captures(squares[..|squares| - 1], pieces, c) +
        if HeldByOpponent(pieces, last, c) then [last] else []
  }

  /** `Pawn.legal_moves`: the double step (home row only), the single step, the
      occupied diagonals and the en-passant square. An occupied single-step square
      discards the double step too. */
  function PawnMoves(pieces: seq<Piece>, c: Color, from: Square): seq<Square>
  {
    var double := Square(from.x, from.y + 2 * Direction(c));
    var forward := Square(from.x, from.y + Direction(c));
    var steps :=
      if Occupied(pieces, forward) then []
      else (if from.y == SpecialRank(c) && !Occupied(pieces, double) then [double] else []) + [forward];
    var passing :=
      if from.y != EnPassantRank(c) then []
      else match EnPassantTarget(pieces, c, from, 0)
        case None => []
        case Some(s) => [s];
    steps + (Captures(PawnAttacks(c, from), pieces, c) + passing)
  }

  method PawnLegalMoves(pieces: seq<Piece>, c: Color, from: Square) returns (moves: seq<Square>)
    ensures moves == PawnMoves(pieces, c, from)
  {
    var occupied := Positions(pieces);
    var double := Square(from.x, from.y + 2 * Direction(c));
    var forward := Square(from.x, from.y + Direction(c));
    moves := [];
    if from.y == SpecialRank(c) && double !in occupied {
      moves := moves + [double];
    }
    if forward !in occupied {
      moves := moves + [forward];
    } else {
      moves := [];
    }
    assert moves == if Occupied(pieces, forward) then []
      else (if from.y == SpecialRank(c) && !Occupied(pieces, double) then [double] else []) + [forward];
    var attacks := PawnAttacks(c, from);
    var kept := PawnCaptures(pieces, c, attacks);
    // the None that `check_for_en_passant` may give is dropped
    if from.y == EnPassantRank(c) {
      var target := CheckForEnPassant(pieces, c, from);
      if target.Some? {
        kept := kept + [target.value];
      }
    }
    moves := moves + kept;
  }

  /** The loop of `Pawn.legal_moves` that removes the diagonals no enemy piece holds. */
  method PawnCaptures(pieces: seq<Piece>, c: Color, attacks: seq<Square>) returns (kept: seq<Square>)
    ensures kept == Captures(attacks, pieces, c)
  {
    var opposing := OpponentPositions(pieces, c);
    kept := [];
    for k := 0 to |attacks|
      invariant kept == Captures(attacks[..k], pieces, c)
    {
      if attacks[k] in opposing {
        kept := kept + [attacks[k]];
      }
      assert attacks[..k + 1][..k] == attacks[..k];
    }
    assert attacks[..|attacks|] == attacks;
  }

  // ---------------------------------------------------------------- Castling

  /** The squares that must be empty on the king's row: files 5-6 and files 1-3. */
  function KingSide(y: int): seq<Square>
  {
    [Square(5, y), Square(6, y)]
  }

  function QueenSide(y: int): seq<Square>
  {
    [Square(1, y), Square(2, y), Square(3, y)]
  }

  predicate AllEmpty(pieces: seq<Piece>, squares: seq<Square>)
  {
    forall s :: s in squares ==> !Occupied(pieces, s)
  }

  /** `[piece for piece in board.board if isinstance(piece, Rook) and piece.color == self.color]` */
  function RooksOf(pieces: seq<Piece>, c: Color): (r: seq<Piece>)
    ensures forall q :: q in r <==> q in pieces && q.Rook? && q.color == c
  {
    if pieces == [] then []
    else
      var last := pieces[|pieces| - 1];
      assert pieces == pieces[..|pieces| - 1] + [last];
      RooksOf(pieces[..|pieces| - 1], c) + if last.Rook? && last.color == c then [last] else []
  }

  /** What one rook adds. Both branches test file 7; the second is reached only when
      the king side is not clear. */
  function RookCastling(q: Piece, from: Square, kingSideClear: bool, queenSideClear: bool): seq<Square>
  {
    if !(q.Rook? && q.castling) then []
    else if q.pos.x == 7 && kingSideClear then [Square(from.x + 2, from.y)]
    else if q.pos.x == 7 && queenSideClear then [Square(from.x - 2, from.y)]
    else []
  }

  function CastlingScan(rooks: seq<Piece>, from: Square, kingSideClear: bool, queenSideClear: bool): seq<Square>
  {
    if rooks == [] then []
    else
      CastlingScan(rooks[..|rooks| - 1], from, kingSideClear, queenSideClear) +
        RookCastling(rooks[|rooks| - 1], from, kingSideClear, queenSideClear)
  }

  /** `King.castling` for a king of colour `c` on `from` with flag `possibleCastle`. */
  function CastlingMoves(pieces: seq<Piece>, c: Color, from: Square, possibleCastle: bool): seq<Square>
  {
    if !possibleCastle then []
    else CastlingScan(RooksOf(pieces, c), from,
                      AllEmpty(pieces, KingSide(from.y)), AllEmpty(pieces, QueenSide(from.y)))
  }

  method Castling(pieces: seq<Piece>, c: Color, from: Square, possibleCastle: bool) returns (moves: seq<Square>)
    ensures moves == CastlingMoves(pieces, c, from, possibleCastle)
  {
    if !possibleCastle {
      return [];
    }
    moves := [];
    var kingSide, queenSide := KingSide(from.y), QueenSide(from.y);
    var rooks := RooksOf(pieces, c);
    ghost var kingSideClear, queenSideClear := AllEmpty(pieces, kingSide), AllEmpty(pieces, queenSide);
    for k := 0 to |rooks|
      invariant moves == CastlingScan(rooks[..k], from, kingSideClear, queenSideClear)
    {
      var rook := rooks[k];
      assert rooks[..k + 1][..k] == rooks[..k];
      ghost var added := RookCastling(rook, from, kingSideClear, queenSideClear);
      if !(rook.Rook? && rook.castling) {
        assert added == [];
        continue;
      }
      if rook.pos.x == 7 && AllEmpty(pieces, kingSide) {
        moves := moves + [Square(from.x + 2, from.y)];
      } else if rook.pos.x == 7 && AllEmpty(pieces, queenSide) {
        moves := moves + [Square(from.x - 2, from.y)];
      }
    }
    assert rooks[..|rooks|] == rooks;
  }

  // ---------------------------------------------------------------- dispatch

  /** `piece.legal_moves(board)` */
  function PieceMoves(pieces: seq<Piece>, p: Piece): seq<Square>
  {
    match p
    case King(_, from, _) => KingMoves(from)
    case Queen(_, from) => Rays(pieces, from, QueenDirections)
    case Rook(_, from, _) => Rays(pieces, from, RookDirections)
    case Bishop(_, from) => Rays(pieces, from, BishopDirections)
    case Knight(_, from) => KnightMoves(from)
    case Pawn(c, from, _) => PawnMoves(pieces, c, from)
  }

  /** `piece.attacking_squares(board)`: the moves, except for a pawn, which attacks its diagonals. */
  function PieceAttacks(pieces: seq<Piece>, p: Piece): seq<Square>
  {
    if p.Pawn? then PawnAttacks(p.color, p.pos) else PieceMoves(pieces, p)
  }

  method LegalMovesOf(pieces: seq<Piece>, p: Piece) returns (moves: seq<Square>)
    ensures moves == PieceMoves(pieces, p)
  {
    match p
    case King(_, from, _) => moves := KingMoves(from);
    case Queen(_, from) => moves := CastRays(pieces, from, QueenDirections);
    case Rook(_, from, _) => moves := CastRays(pieces, from, RookDirections);
    case Bishop(_, from) => moves := CastRays(pieces, from, BishopDirections);
    case Knight(_, from) => moves := KnightMoves(from);
    case Pawn(c, from, _) => moves := PawnLegalMoves(pieces, c, from);
  }

  method AttackingSquaresOf(pieces: seq<Piece>, p: Piece) returns (squares: seq<Square>)
    ensures squares == PieceAttacks(pieces, p)
  {
    if p.Pawn? {
      squares := PawnAttacks(p.color, p.pos);
    } else {
      squares := LegalMovesOf(pieces, p);
    }
  }
}
