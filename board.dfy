/**
 * board.py: the `Board` object, whose piece list the engine changes in place, and
 * the static methods of `MoveManager`. The class field `MoveManager.turn` is the
 * board's `turn` here. A selected piece is named by its index in the piece list.
 */
module Chess {
  import opened Wrappers
  import opened Pieces
  import opened Position
  import opened Moves
  import ChessParser
  import PositionFacts

  class Board {
    /** `board.board`, in list order. */
    var pieces: seq<Piece>
    /** `MoveManager.turn`: the colour to move. */
    var turn: Color

    /** An empty board, black to move (`MoveManager.turn = 0`). */
    constructor()
      ensures pieces == [] && turn == Black
    {
      pieces := [];
      turn := Black;
    }

    /** `Board.FindKing`: the square of the first king of colour `c`, if any. */
    method FindKing(c: Color) returns (s: Option<Square>)
      ensures s == KingSquare(pieces, c, 0)
    {
      for k := 0 to |pieces|
        invariant KingSquare(pieces, c, k) == KingSquare(pieces, c, 0)
      {
        if pieces[k].King? && pieces[k].color == c {
          return Some(pieces[k].pos);
        }
      }
      return None;
    }

    /** `Board.IsSquareAttacked`: does some piece of colour `attacker` threaten `s`? */
    method IsSquareAttacked(s: Square, attacker: Color) returns (attacked: bool)
      ensures attacked == Attacked(pieces, s, attacker)
    {
      for k := 0 to |pieces|
        invariant AnyFrom(Hits(pieces, s, attacker), k) == AnyFrom(Hits(pieces, s, attacker), 0)
      {
        if pieces[k].color == attacker {
          var squares := AttackedSquares(pieces[k], this);
          if s in squares {
            PositionFacts.AttackedScan(pieces, s, attacker);
            return true;
          }
        }
      }
      PositionFacts.AttackedScan(pieces, s, attacker);
      return false;
    }

    /** `Board.IsEmpty`: no piece stands on `s`. */
    method IsEmpty(s: Square) returns (empty: bool)
      ensures empty == !Occupied(pieces, s)
    {
      for k := 0 to |pieces|
        invariant forall j :: 0 <= j < k ==> pieces[j].pos != s
      {
        if pieces[k].pos == s {
          assert Positions(pieces)[k] == s;
          return false;
        }
      }
      return true;
    }

    /** `Board.IsKingInCheck`: the first king of colour `c` is threatened by the other
        colour. Without a king the source asks about the square None, which no piece
        attacks: the answer is false. */
    method IsKingInCheck(c: Color) returns (check: bool)
      ensures check == InCheck(pieces, c)
    {
      var king := FindKing(c);
      if king.None? {
        return false;
      }
      check := IsSquareAttacked(king.value, c.Opponent());
    }

    /** `Board.IsCheckmate`: try every legal move of every piece of colour `c`; any
        that ends the check refutes mate. Positions are restored on every path. */
    method IsCheckmate(c: Color) returns (mate: bool)
      modifies this
      ensures pieces == old(pieces) && turn == old(turn)
      ensures mate == Mated(pieces, turn, c)
    {
      var check := IsKingInCheck(c);
      if !check {
        PositionFacts.MovableScan(pieces, turn, c);
        return false;
      }
      for k := 0 to |pieces|
        invariant pieces == old(pieces) && turn == old(turn)
        invariant AnyFrom(Movable(pieces, turn, c), k) == AnyFrom(Movable(pieces, turn, c), 0)
      {
        if pieces[k].color != c {
          continue;
        }
        var escape := PieceEscapes(k);
        if escape {
          assert Movable(pieces, turn, c)[k];
          PositionFacts.MovableScan(pieces, turn, c);
          return false;
        }
      }
      PositionFacts.MovableScan(pieces, turn, c);
      return true;
    }

    /** One turn of the piece loop of `Board.IsCheckmate`: the legal moves of the
        piece at `k` are tried until one ends the check on its own colour, which
        happens exactly when it has a legal move at all. */
    method PieceEscapes(k: nat) returns (escape: bool)
      requires k < |pieces|
      modifies this
      ensures pieces == old(pieces) && turn == old(turn)
      ensures escape == (Legal(pieces, turn, k) != [])
    {
      var legal := LegalMoves(Some(k), this);
      escape := TryMoves(pieces[k].color, k, legal);
      PositionFacts.TrappedPiece(pieces, turn, k);
    }

    /** The inner loop of `Board.IsCheckmate`: moves the piece at `k` to each square of
        `moves` in turn and reports whether one of them leaves colour `c` out of check,
        putting the piece back each time. */
    method TryMoves(c: Color, k: nat, moves: seq<Square>) returns (escape: bool)
      requires k < |pieces|
      modifies this
      ensures pieces == old(pieces) && turn == old(turn)
      ensures escape == !NoEscape(pieces, k, moves, c)
    {
      for t := 0 to |moves|
        invariant pieces == old(pieces) && turn == old(turn)
        invariant NoEscape(pieces, k, moves[..t], c)
      {
        assert moves[..t + 1][..t] == moves[..t];
        var stillInCheck := CheckAfter(c, k, moves[t]);
        if !stillInCheck {
          PositionFacts.NoEscapePrefix(pieces, k, moves, c, t + 1);
          return true;
        }
      }
      assert moves[..|moves|] == moves;
      return false;
    }

    /** One trial of the loops of `Board.IsCheckmate` and `MoveManager.LegalMoves`: the
        piece at `k` is put on `m`, colour `c`'s king is tested, and the piece is put
        back on its own square. */
    method CheckAfter(c: Color, k: nat, m: Square) returns (check: bool)
      requires k < |pieces|
      modifies this
      ensures pieces == old(pieces) && turn == old(turn)
      ensures check == InCheck(Trial(pieces, k, m), c)
    {
      var original := pieces[k].pos;
      PositionFacts.RestoreTrial(pieces, k, m);
      pieces := Trial(pieces, k, m);
      check := IsKingInCheck(c);
      pieces := Trial(pieces, k, original);
    }

    /** `Board.TranslateFen`: the pieces of a FEN string; a 'w' in it hands the move to white. */
    method TranslateFen(fen: string)
      modifies this
      ensures pieces == ChessParser.Scan(fen, ChessParser.Start(old(turn))).pieces
      ensures turn == ChessParser.Scan(fen, ChessParser.Start(old(turn))).turn
    {
      pieces, turn := ChessParser.TranslateFen(fen, turn);
    }
  }

  /** `MoveManager.LegalMoves`: nothing without a piece or out of turn; otherwise the
      candidates whose trial leaves the mover's king out of check. The board is put
      back as it was. */
  method LegalMoves(selected: Option<nat>, board: Board) returns (moves: seq<Square>)
    requires selected.Some? ==> selected.value < |board.pieces|
    modifies board
    ensures board.pieces == old(board.pieces) && board.turn == old(board.turn)
    ensures moves == if selected.None? then [] else Legal(board.pieces, board.turn, selected.value)
  {
    if selected.None? {
      return [];
    }
    var k := selected.value;
    var piece := board.pieces[k];
    if piece.color != board.turn {
      return [];
    }
    var candidates := CandidateMoves(board, k);
    moves := KeepSafe(board, k, candidates);
  }

  /** The squares `MoveManager.LegalMoves` goes on to try for the piece at `k`: its
      moves clipped to the board and off its own colour's squares, then, for a king
      with its flag set, the castling squares. */
  method CandidateMoves(board: Board, k: nat) returns (candidates: seq<Square>)
    requires k < |board.pieces|
    ensures candidates == Candidates(board.pieces, k)
  {
    var piece := board.pieces[k];
    candidates := LegalMovesOf(board.pieces, piece);
    candidates := WithoutOwn(Clip(candidates), board.pieces, piece.color);
    if piece.King? && piece.possibleCastle {
      var castling := Castling(board.pieces, piece.color, piece.pos, piece.possibleCastle);
      candidates := candidates + castling;
    }
  }

  /** The trial loop of `MoveManager.LegalMoves`: each candidate is tried by moving the
      piece at `k` there, kept if its own king is then out of check, and undone. */
  method KeepSafe(board: Board, k: nat, candidates: seq<Square>) returns (moves: seq<Square>)
    requires k < |board.pieces|
    modifies board
    ensures board.pieces == old(board.pieces) && board.turn == old(board.turn)
    ensures moves == Survivors(board.pieces, k, candidates)
  {
    moves := [];
    ghost var before := board.pieces;
    var color := board.pieces[k].color;
    for t := 0 to |candidates|
      invariant board.pieces == before && board.turn == old(board.turn)
      invariant moves == Survivors(before, k, candidates[..t])
    {
      assert candidates[..t + 1][..t] == candidates[..t];
      var check := board.CheckAfter(color, k, candidates[t]);
      if !check {
        moves := moves + [candidates[t]];
      }
    }
    assert candidates[..|candidates|] == candidates;
  }

  /** `MoveManager.AttackedSquares`: the piece's attacked squares on the board. */
  method AttackedSquares(p: Piece, board: Board) returns (squares: seq<Square>)
    ensures squares == Threats(board.pieces, p)
  {
    squares := AttackingSquaresOf(board.pieces, p);
    squares := Clip(squares);
  }

  /** `MoveManager.IsLegalMove` */
  method IsLegalMove(selected: Option<nat>, board: Board, move: Square) returns (legal: bool)
    requires selected.Some? ==> selected.value < |board.pieces|
    modifies board
    ensures board.pieces == old(board.pieces) && board.turn == old(board.turn)
    ensures legal <==> selected.Some? && move in Legal(board.pieces, board.turn, selected.value)
  {
    var moves := LegalMoves(selected, board);
    legal := move in moves;
  }

  /** `MoveManager.capturePiece`: removes the first piece of another colour on
      `target`; returns where the mover now sits in the list. */
  method CapturePiece(mover: nat, board: Board, target: Square) returns (moved: nat)
    requires mover < |board.pieces|
    modifies board
    ensures Moving(board.pieces, moved) == Capture(Moving(old(board.pieces), mover), target)
    ensures board.turn == old(board.turn)
  {
    var c := board.pieces[mover].color;
    moved := mover;
    for k := 0 to |board.pieces|
      invariant board.pieces == old(board.pieces) && moved == mover
      invariant FirstCapturable(board.pieces, c, target, k) == FirstCapturable(board.pieces, c, target, 0)
    {
      var piece := board.pieces[k];
      if piece.color != c && piece.pos == target {
        board.pieces := RemoveAt(board.pieces, k);
        moved := Reindex(mover, k);
        return;
      }
    }
  }

  /** `MoveManager.En_passant_takinator`: for a pawn, the first enemy pawn with its
      flag set on the mover's row is removed if it stands in an adjacent file; the
      search stops at that pawn either way. Returns the mover's new index. */
  method EnPassantTakinator(mover: nat, board: Board) returns (moved: nat)
    requires mover < |board.pieces|
    modifies board
    ensures Moving(board.pieces, moved) == TakeEnPassant(Moving(old(board.pieces), mover))
    ensures board.turn == old(board.turn)
  {
    moved := mover;
    var selected := board.pieces[mover];
    if !selected.Pawn? {
      return;
    }
    for k := 0 to |board.pieces|
      invariant board.pieces == old(board.pieces) && moved == mover
      invariant FirstPassedPawn(board.pieces, selected, k) == FirstPassedPawn(board.pieces, selected, 0)
    {
      var piece := board.pieces[k];
      if piece.Pawn? && piece.color != selected.color && piece.enPassantAble && piece.pos.y == selected.pos.y {
        if Abs(piece.pos.x - selected.pos.x) == 1 {
          board.pieces := RemoveAt(board.pieces, k);
          moved := Reindex(mover, k);
        }
        return;
      }
    }
  }

  /** `MoveManager.castle_inator`: for a king whose destination row is 6 or 2, the
      first rook of its colour on file 7 (or 0) of its row moves 2 files left (or 3
      right); with no such rook the king itself is shifted. */
  method CastleInator(mover: nat, board: Board, target: Square)
    requires mover < |board.pieces|
    modifies board
    ensures board.pieces == MoveRook(Moving(old(board.pieces), mover), target).pieces
    ensures board.turn == old(board.turn)
  {
    var king := board.pieces[mover];
    if !king.King? {
      return;
    }
    if target.y == 6 || target.y == 2 {
      var file, dx := if target.y == 6 then 7 else 0, if target.y == 6 then -2 else 3;
      var rook := mover;
      for k := 0 to |board.pieces|
        invariant board.pieces == old(board.pieces) && rook == mover
        invariant FirstRook(board.pieces, king, file, k) == FirstRook(board.pieces, king, file, 0)
      {
        var q := board.pieces[k];
        if q.pos.x == file && q.pos.y == king.pos.y && q.Rook? && q.color == king.color {
          rook := k;
          break;
        }
      }
      board.pieces := Shift(board.pieces, rook, dx);
    }
  }

  /** The loop of `MovePiece` that clears the en-passant flag of every pawn of a
      colour other than `c`. */
  method ClearEnPassantFlags(board: Board, c: Color)
    modifies board
    ensures board.pieces == ClearEnPassant(old(board.pieces), c)
    ensures board.turn == old(board.turn)
  {
    for k := 0 to |board.pieces|
      invariant |board.pieces| == |old(board.pieces)| && board.turn == old(board.turn)
      invariant forall j :: 0 <= j < k ==> board.pieces[j] == Cleared(old(board.pieces)[j], c)
      invariant forall j :: k <= j < |board.pieces| ==> board.pieces[j] == old(board.pieces)[j]
    {
      var piece := board.pieces[k];
      if piece.Pawn? && piece.color != c {
        board.pieces := board.pieces[k := piece.(enPassantAble := false)];
      }
    }
  }

  /** `MoveManager.MovePiece`, with the target square given directly. Without a
      selected piece, or with a target outside `legalMoves`, nothing changes. Else the
      move is made (capture, en passant, rook, flags, square, promotion), the turn
      flips, and the result is Some(false) when the other colour is then checkmated
      (the source compares the piece with 1, which is never true) and None otherwise. */
  method MovePiece(selected: Option<nat>, board: Board, legalMoves: seq<Square>, target: Square)
    returns (result: Option<bool>)
    requires selected.Some? ==> selected.value < |board.pieces|
    modifies board
    ensures selected.None? || target !in legalMoves ==>
      result.None? && board.pieces == old(board.pieces) && board.turn == old(board.turn)
    ensures selected.Some? && target in legalMoves ==>
      board.pieces == Moved(old(board.pieces), selected.value, target) &&
      board.turn == old(board.turn).Opponent() &&
      result == if Mated(board.pieces, board.turn, old(board.pieces)[selected.value].color.Opponent())
                then Some(false) else None
  {
    if selected.None? || target !in legalMoves {
      return None;
    }
    var color := board.pieces[selected.value].color;
    MakeMove(selected.value, board, target);
    var mate := board.IsCheckmate(color.Opponent());
    if mate {
      return Some(false);
    }
    return None;
  }

  /** `MovePiece` once the move is accepted: every step from the capture to the
      promotion, then the turn passes to the other colour. */
  method MakeMove(mover: nat, board: Board, target: Square)
    requires mover < |board.pieces|
    modifies board
    ensures board.pieces == Moved(old(board.pieces), mover, target)
    ensures board.turn == old(board.turn).Opponent()
  {
    var color := board.pieces[mover].color;
    var i := ClearAndCastle(mover, board, target);
    SettleMover(i, board, target, color);
    assert Moving(board.pieces, i) == Applied(old(board.pieces), mover, target);
    PromotePawn(i, board, target);
    board.turn := board.turn.Opponent();
  }

  /** The promotion step of `MovePiece`: a pawn that has reached row 0 or 7 gives way
      to a queen of its colour on the same square, appended to the list. */
  method PromotePawn(i: nat, board: Board, target: Square)
    requires i < |board.pieces| && board.pieces[i].pos == target
    modifies board
    ensures board.pieces == Promote(Moving(old(board.pieces), i))
    ensures board.turn == old(board.turn)
  {
    var piece := board.pieces[i];
    if piece.Pawn? && (target.y == 0 || target.y == 7) {
      board.pieces := RemoveAt(board.pieces + [Queen(piece.color, piece.pos)], i);
    }
  }

  /** The first steps of `MovePiece`: the capture, the en-passant removal and the rook
      move. Returns where the mover now sits in the list. */
  method ClearAndCastle(mover: nat, board: Board, target: Square) returns (moved: nat)
    requires mover < |board.pieces|
    modifies board
    ensures Moving(board.pieces, moved) ==
      MoveRook(TakeEnPassant(Capture(Moving(old(board.pieces), mover), target)), target)
    ensures board.turn == old(board.turn)
  {
    moved := CapturePiece(mover, board, target);
    moved := EnPassantTakinator(moved, board);
    CastleInator(moved, board, target);
  }

  /** The rest of `MovePiece` before the promotion: the two-row flag, the clearing loop
      for the pawns of colours other than `c`, and the mover placed on `target` with its
      castling flag dropped. */
  method SettleMover(i: nat, board: Board, target: Square, c: Color)
    requires i < |board.pieces| && board.pieces[i].color == c
    modifies board
    ensures board.pieces ==
      Settle(Moving(ClearEnPassant(MarkDoubleStep(Moving(old(board.pieces), i), target).pieces, c), i), target).pieces
    ensures board.turn == old(board.turn)
  {
    ghost var castled := Moving(board.pieces, i);
    var piece := board.pieces[i];
    if piece.Pawn? && Abs(target.y - piece.pos.y) == 2 {
      board.pieces := board.pieces[i := piece.(enPassantAble := true)];
    }
    assert Moving(board.pieces, i) == MarkDoubleStep(castled, target);
    ClearEnPassantFlags(board, c);
    piece := board.pieces[i].(pos := target);
    if piece.King? {
      piece := piece.(possibleCastle := false);
    } else if piece.Rook? {
      piece := piece.(castling := false);
    }
    board.pieces := board.pieces[i := piece];
  }
}
