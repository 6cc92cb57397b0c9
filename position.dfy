/**
 * The read-only side of board.py as functions of a piece list and a turn: the
 * scans of `Board` (FindKing, IsEmpty, IsSquareAttacked, IsKingInCheck), the
 * legality filter of `MoveManager.LegalMoves` and the checkmate test of
 * `Board.IsCheckmate`. The methods of module Board are proved against these.
 *
 * A trial move only overwrites the mover's square: the piece on the target
 * square, if any, stays in the list.
 */
module Position {
  import opened Wrappers
  import opened Pieces

  predicate OnBoard(s: Square)
  {
    0 <= s.x <= 7 && 0 <= s.y <= 7
  }

  /** The squares of `squares` inside [0,7]x[0,7], in order. */
  function Clip(squares: seq<Square>): (r: seq<Square>)
    ensures forall s :: s in r <==> s in squares && OnBoard(s)
  {
    if squares == [] then []
    else
      var last := squares[|squares| - 1];
      Clip(squares[..|squares| - 1]) + if OnBoard(last) then [last] else []
  }

  /** A piece of colour `c` stands on `s`. */
  predicate HeldBy(pieces: seq<Piece>, s: Square, c: Color)
  {
    exists k :: 0 <= k < |pieces| && pieces[k].pos == s && pieces[k].color == c
  }

  /** The squares of `squares` that no piece of colour `c` holds, in order. */
  function WithoutOwn(squares: seq<Square>, pieces: seq<Piece>, c: Color): (r: seq<Square>)
    ensures forall s :: s in r <==> s in squares && !HeldBy(pieces, s, c)
  {
    if squares == [] then []
    else
      var last := squares[|squares| - 1];
      WithoutOwn(squares[..|squares| - 1], pieces, c) + if HeldBy(pieces, last, c) then [] else [last]
  }

  predicate IsKingOf(q: Piece, c: Color)
  {
    q.King? && q.color == c
  }

  /** `Board.FindKing` from list index `k` on: the square of the first king of colour `c`. */
  function KingSquare(pieces: seq<Piece>, c: Color, k: nat): (r: Option<Square>)
    decreases |pieces| - k
    ensures r.None? <==> forall j :: k <= j < |pieces| ==> !IsKingOf(pieces[j], c)
    ensures r.Some? ==> exists j :: (k <= j < |pieces| && IsKingOf(pieces[j], c) && r.value == pieces[j].pos &&
      forall i :: k <= i < j ==> !IsKingOf(pieces[i], c))
  {
    if k >= |pieces| then None
    else if IsKingOf(pieces[k], c) then Some(pieces[k].pos)
    else KingSquare(pieces, c, k + 1)
  }

  /** `MoveManager.AttackedSquares`: a piece's attacked squares clipped to the board. */
  function Threats(pieces: seq<Piece>, p: Piece): seq<Square>
  {
    Clip(PieceAttacks(pieces, p))
  }

  /** The piece at `k` has `s` among its threats. */
  predicate Threatens(pieces: seq<Piece>, k: nat, s: Square)
    requires k < |pieces|
  {
    OnBoard(s) && s in PieceAttacks(pieces, pieces[k])
  }

  /** For each piece of the list, whether it is of colour `c` and threatens `s`. */
  function Hits(pieces: seq<Piece>, s: Square, c: Color): (r: seq<bool>)
    ensures |r| == |pieces|
  {
    seq(|pieces|, j requires 0 <= j < |pieces| => pieces[j].color == c && Threatens(pieces, j, s))
  }

  /** Some entry of `hits` at index `k` or later is true: the scan of
      `Board.IsSquareAttacked`, which stops at the first attacker. */
  predicate AnyFrom(hits: seq<bool>, k: nat)
    decreases |hits| - k
  {
    k < |hits| && (hits[k] || AnyFrom(hits, k + 1))
  }

  /** `Board.IsSquareAttacked`: some piece of colour `c` threatens `s`. */
  predicate Attacked(pieces: seq<Piece>, s: Square, c: Color)
  {
    exists k {:trigger Threatens(pieces, k, s)} :: 0 <= k < |pieces| && pieces[k].color == c && Threatens(pieces, k, s)
  }

  /** `Board.IsKingInCheck`: the first king of colour `c` stands on a square the other
      colour threatens, whoever is to move. No king, no check. */
  predicate InCheck(pieces: seq<Piece>, c: Color)
  {
    match KingSquare(pieces, c, 0)
    case None => false
    case Some(s) => Attacked(pieces, s, c.Opponent())
  }

  /** The piece list with the piece at `k` moved to `m` and nothing else changed. */
  function Trial(pieces: seq<Piece>, k: nat, m: Square): (r: seq<Piece>)
    requires k < |pieces|
    ensures |r| == |pieces| && r[k].pos == m && r[k].color == pieces[k].color
    ensures r[k] == pieces[k].(pos := m)
    ensures forall j :: 0 <= j < |pieces| && j != k ==> r[j] == pieces[j]
  {
    pieces[k := pieces[k].(pos := m)]
  }

  /** The squares `MoveManager.LegalMoves` tries for the piece at `k`: its moves on
      the board and not held by its own colour, then, for a king with its flag set,
      the castling squares, which skip both filters. */
  function Candidates(pieces: seq<Piece>, k: nat): seq<Square>
    requires k < |pieces|
  {
    var p := pieces[k];
    WithoutOwn(Clip(PieceMoves(pieces, p)), pieces, p.color) +
      if p.King? && p.possibleCastle then CastlingMoves(pieces, p.color, p.pos, p.possibleCastle) else []
  }

  /** The squares of `cands` whose trial leaves the mover's own king out of check, in order. */
  function Survivors(pieces: seq<Piece>, k: nat, cands: seq<Square>): (r: seq<Square>)
    requires k < |pieces|
    ensures forall m :: m in r <==> m in cands && !InCheck(Trial(pieces, k, m), pieces[k].color)
  {
    if cands == [] then []
    else
      var last := cands[|cands| - 1];
      Survivors(pieces, k, cands[..|cands| - 1]) +
        if InCheck(Trial(pieces, k, last), pieces[k].color) then [] else [last]
  }

  /** `MoveManager.LegalMoves` for the piece at `k`: nothing out of turn, else the
      candidates that survive the trial. */
  function Legal(pieces: seq<Piece>, turn: Color, k: nat): seq<Square>
    requires k < |pieces|
  {
    if pieces[k].color != turn then [] else Survivors(pieces, k, Candidates(pieces, k))
  }

  /** For each piece of the list, whether it is of colour `c` and has a legal move. */
  function Movable(pieces: seq<Piece>, turn: Color, c: Color): (r: seq<bool>)
    ensures |r| == |pieces|
  {
    seq(|pieces|, j requires 0 <= j < |pieces| => pieces[j].color == c && Legal(pieces, turn, j) != [])
  }

  /** Every square of `moves` leaves colour `c` in check once the piece at `k` is moved there. */
  predicate NoEscape(pieces: seq<Piece>, k: nat, moves: seq<Square>, c: Color)
    requires k < |pieces|
  {
    moves == [] ||
    (InCheck(Trial(pieces, k, moves[|moves| - 1]), c) && NoEscape(pieces, k, moves[..|moves| - 1], c))
  }

  /** `Board.IsCheckmate`: colour `c` is in check and none of its pieces has a legal
      move (every legal move already leaves `c` out of check). */
  predicate Mated(pieces: seq<Piece>, turn: Color, c: Color)
  {
    InCheck(pieces, c) &&
    forall k {:trigger Legal(pieces, turn, k)} :: 0 <= k < |pieces| && pieces[k].color == c ==> Legal(pieces, turn, k) == []
  }
}
