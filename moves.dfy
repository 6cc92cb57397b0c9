/**
 * The state change of `MoveManager.MovePiece` (board.py) as functions of the
 * piece list, step by step in the order the source applies them. The selected
 * piece is followed by its index in the list; a step that removes a piece in
 * front of it shifts that index down by one.
 */
module Moves {
  import opened Wrappers
  import opened Pieces

  /** A piece list and the index of the moving piece in it. */
  datatype Moving = Moving(pieces: seq<Piece>, mover: nat)
  {
    predicate Tracks()
    {
      mover < |pieces|
    }

    function Mover(): Piece
      requires Tracks()
    {
      pieces[mover]
    }
  }

  /** The list without its entry `j` (`board.board.remove(piece)`). */
  function RemoveAt(s: seq<Piece>, j: nat): (r: seq<Piece>)
    requires j < |s|
    ensures |r| == |s| - 1
    ensures forall k :: 0 <= k < j ==> r[k] == s[k]
    ensures forall k :: j <= k < |r| ==> r[k] == s[k + 1]
    ensures multiset(r) + multiset{s[j]} == multiset(s)
  {
    assert s == s[..j] + [s[j]] + s[j + 1..];
    s[..j] + s[j + 1..]
  }

  /** Where entry `i` ends up once entry `j != i` is removed. */
  function Reindex(i: nat, j: nat): nat
  {
    if j < i then i - 1 else i
  }

  /** Removing entry `j` keeps the mover and follows it to its new index. */
  function RemoveOther(m: Moving, j: nat): (r: Moving)
    requires m.Tracks() && j < |m.pieces| && j != m.mover
    ensures r.Tracks() && r.Mover() == m.Mover()
    ensures r.pieces == RemoveAt(m.pieces, j)
  {
    Moving(RemoveAt(m.pieces, j), Reindex(m.mover, j))
  }

  // ---------------------------------------------------------------- capturePiece

  predicate Capturable(q: Piece, c: Color, target: Square)
  {
    q.color != c && q.pos == target
  }

  /** The first piece from index `k` on that is not of colour `c` and stands on `target`. */
  function FirstCapturable(pieces: seq<Piece>, c: Color, target: Square, k: nat): (r: Option<nat>)
    decreases |pieces| - k
    ensures r.None? <==> forall j :: k <= j < |pieces| ==> !Capturable(pieces[j], c, target)
    ensures r.Some? ==> (k <= r.value < |pieces| && Capturable(pieces[r.value], c, target) &&
      forall j :: k <= j < r.value ==> !Capturable(pieces[j], c, target))
  {
    if k >= |pieces| then None
    else if Capturable(pieces[k], c, target) then Some(k)
    else FirstCapturable(pieces, c, target, k + 1)
  }

  /** `MoveManager.capturePiece`: removes that piece, if there is one. */
  function Capture(m: Moving, target: Square): (r: Moving)
    requires m.Tracks()
    ensures r.Tracks() && r.Mover() == m.Mover()
  {
    match FirstCapturable(m.pieces, m.Mover().color, target, 0)
    case None => m
    case Some(j) => RemoveOther(m, j)
  }

  // ---------------------------------------------------------------- En_passant_takinator

  /** An enemy pawn with its flag set on the mover's current row (any file). */
  predicate PassedPawn(q: Piece, mover: Piece)
  {
    q.Pawn? && q.color != mover.color && q.enPassantAble && q.pos.y == mover.pos.y
  }

  function FirstPassedPawn(pieces: seq<Piece>, mover: Piece, k: nat): (r: Option<nat>)
    decreases |pieces| - k
    ensures r.None? <==> forall j :: k <= j < |pieces| ==> !PassedPawn(pieces[j], mover)
    ensures r.Some? ==> (k <= r.value < |pieces| && PassedPawn(pieces[r.value], mover) &&
      forall j :: k <= j < r.value ==> !PassedPawn(pieces[j], mover))
  {
    if k >= |pieces| then None
    else if PassedPawn(pieces[k], mover) then Some(k)
    else FirstPassedPawn(pieces, mover, k + 1)
  }

  /** `MoveManager.En_passant_takinator`, run for every pawn move: the first passed
      pawn is removed when it stands in an adjacent file; the search ends there either way. */
  function TakeEnPassant(m: Moving): (r: Moving)
    requires m.Tracks()
    ensures r.Tracks() && r.Mover() == m.Mover()
  {
    var mover := m.Mover();
    if !mover.Pawn? then m
    else match FirstPassedPawn(m.pieces, mover, 0)
      case None => m
      case Some(j) => if Abs(m.pieces[j].pos.x - mover.pos.x) == 1 then RemoveOther(m, j) else m
  }

  // ---------------------------------------------------------------- castle_inator

  /** A rook of the king's colour on file `file` of the king's current row. */
  predicate RookFor(q: Piece, king: Piece, file: int)
  {
    q.pos.x == file && q.pos.y == king.pos.y && q.Rook? && q.color == king.color
  }

  function FirstRook(pieces: seq<Piece>, king: Piece, file: int, k: nat): (r: Option<nat>)
    decreases |pieces| - k
    ensures r.None? <==> forall j :: k <= j < |pieces| ==> !RookFor(pieces[j], king, file)
    ensures r.Some? ==> (k <= r.value < |pieces| && RookFor(pieces[r.value], king, file) &&
      forall j :: k <= j < r.value ==> !RookFor(pieces[j], king, file))
  {
    if k >= |pieces| then None
    else if RookFor(pieces[k], king, file) then Some(k)
    else FirstRook(pieces, king, file, k + 1)
  }

  /** Entry `j` moved `dx` files (`rook.position[0] += dx`), its flags untouched. */
  function Shift(pieces: seq<Piece>, j: nat, dx: int): (r: seq<Piece>)
    requires j < |pieces|
    ensures |r| == |pieces|
    ensures r[j] == pieces[j].(pos := Square(pieces[j].pos.x + dx, pieces[j].pos.y))
    ensures forall k :: 0 <= k < |pieces| && k != j ==> r[k] == pieces[k]
  {
    pieces[j := pieces[j].(pos := Square(pieces[j].pos.x + dx, pieces[j].pos.y))]
  }

  /** `MoveManager.castle_inator`: for a king whose destination ROW is 6 (or 2), the
      first rook on file 7 (or 0) of the king's row moves 2 files left (or 3 right).
      Without such a rook the shift lands on the king itself. */
  function MoveRook(m: Moving, target: Square): (r: Moving)
    requires m.Tracks()
    ensures r.Tracks() && r.mover == m.mover && |r.pieces| == |m.pieces|
    ensures r.Mover().color == m.Mover().color && r.Mover().pos.y == m.Mover().pos.y
    ensures r.Mover() == m.Mover() || r.Mover() == m.Mover().(pos := r.Mover().pos)
  {
    var king := m.Mover();
    if !king.King? then m
    else if target.y == 6 then
      match FirstRook(m.pieces, king, 7, 0)
      case Some(j) => m.(pieces := Shift(m.pieces, j, -2))
      case None => m.(pieces := Shift(m.pieces, m.mover, -2))
    else if target.y == 2 then
      match FirstRook(m.pieces, king, 0, 0)
      case Some(j) => m.(pieces := Shift(m.pieces, j, 3))
      case None => m.(pieces := Shift(m.pieces, m.mover, 3))
    else m
  }

  // ---------------------------------------------------------------- flags, position, promotion

  /** A pawn that moves two rows gets its en-passant flag set. */
  function MarkDoubleStep(m: Moving, target: Square): (r: Moving)
    requires m.Tracks()
    ensures r.Tracks() && r.mover == m.mover && |r.pieces| == |m.pieces|
    ensures forall k :: 0 <= k < |m.pieces| && k != m.mover ==> r.pieces[k] == m.pieces[k]
  {
    var mover := m.Mover();
    if mover.Pawn? && Abs(target.y - mover.pos.y) == 2
    then m.(pieces := m.pieces[m.mover := mover.(enPassantAble := true)])
    else m
  }

  /** A piece after the clearing loop: a pawn of a colour other than `c` loses its flag. */
  function Cleared(q: Piece, c: Color): Piece
  {
    if q.Pawn? && q.color != c then q.(enPassantAble := false) else q
  }

  /** The loop that clears the flag of every pawn of the other colour. */
  function ClearEnPassant(pieces: seq<Piece>, c: Color): (r: seq<Piece>)
    ensures |r| == |pieces|
    ensures forall k :: 0 <= k < |pieces| ==> r[k] == Cleared(pieces[k], c)
  {
    seq(|pieces|, k requires 0 <= k < |pieces| => Cleared(pieces[k], c))
  }

  /** The mover takes the target square; a king loses `possible_castle`, a rook `castling`. */
  function Settle(m: Moving, target: Square): (r: Moving)
    requires m.Tracks()
    ensures r.Tracks() && r.mover == m.mover && |r.pieces| == |m.pieces|
    ensures forall k :: 0 <= k < |m.pieces| && k != m.mover ==> r.pieces[k] == m.pieces[k]
  {
    var placed := m.Mover().(pos := target);
    var settled :=
      if placed.King? then placed.(possibleCastle := false)
      else if placed.Rook? then placed.(castling := false)
      else placed;
    m.(pieces := m.pieces[m.mover := settled])
  }

  /** A pawn now on row 0 or 7 is replaced: a Queen of its colour is appended on its
      square, and the pawn removed. */
  predicate Promotes(m: Moving)
    requires m.Tracks()
  {
    m.Mover().Pawn? && (m.Mover().pos.y == 0 || m.Mover().pos.y == 7)
  }

  function Promote(m: Moving): (r: seq<Piece>)
    requires m.Tracks()
  {
    if Promotes(m)
    then RemoveAt(m.pieces + [Queen(m.Mover().color, m.Mover().pos)], m.mover)
    else m.pieces
  }

  /** The steps of `MovePiece` up to the promotion, with the mover's index. */
  function Applied(pieces: seq<Piece>, i: nat, target: Square): (r: Moving)
    requires i < |pieces|
    ensures r.Tracks()
  {
    var captured := TakeEnPassant(Capture(Moving(pieces, i), target));
    var castled := MoveRook(captured, target);
    var flagged := MarkDoubleStep(castled, target);
    var cleared := flagged.(pieces := ClearEnPassant(flagged.pieces, flagged.Mover().color));
    Settle(cleared, target)
  }

  /** The piece list after `MovePiece` moves the piece at `i` to `target`. */
  function Moved(pieces: seq<Piece>, i: nat, target: Square): seq<Piece>
    requires i < |pieces|
  {
    Promote(Applied(pieces, i, target))
  }
}
