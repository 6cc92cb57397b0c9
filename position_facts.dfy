/**
 * What the legality filter and the check tests of board.py promise.
 */
module PositionFacts {
  import opened Wrappers
  import opened Pieces
  import opened Position

  /** A square is a candidate exactly when it is one of the piece's moves on the board
      and not held by its own colour, or a castling square of a king with its flag set. */
  lemma CandidateSquares(pieces: seq<Piece>, k: nat, m: Square)
    requires k < |pieces|
    ensures m in Candidates(pieces, k) <==>
      (m in PieceMoves(pieces, pieces[k]) && OnBoard(m) && !HeldBy(pieces, m, pieces[k].color)) ||
      (pieces[k].King? && pieces[k].possibleCastle &&
        m in CastlingMoves(pieces, pieces[k].color, pieces[k].pos, pieces[k].possibleCastle))
  {
  }

  /** `LegalMoves` offers `m` exactly when the piece's colour has the turn, `m` is a
      candidate, and the trial move leaves the piece's own king out of check. */
  lemma LegalSquares(pieces: seq<Piece>, turn: Color, k: nat, m: Square)
    requires k < |pieces|
    ensures m in Legal(pieces, turn, k) <==>
      pieces[k].color == turn && m in Candidates(pieces, k) &&
      !InCheck(Trial(pieces, k, m), pieces[k].color)
  {
  }

  /** Undoing a trial move (putting the piece back on its own square) restores the list. */
  lemma RestoreTrial(pieces: seq<Piece>, k: nat, m: Square)
    requires k < |pieces|
    ensures Trial(Trial(pieces, k, m), k, pieces[k].pos) == pieces
  {
    var back := Trial(Trial(pieces, k, m), k, pieces[k].pos);
    assert back[k] == pieces[k];
  }

  /** A scan from index `k` on finds a true entry exactly when there is one. */
  lemma {:induction false} AnyFromMeans(hits: seq<bool>, k: nat)
    ensures AnyFrom(hits, k) <==> exists j :: k <= j < |hits| && hits[j]
    decreases |hits| - k
  {
    if k < |hits| {
      AnyFromMeans(hits, k + 1);
    }
  }

  /** The scan of `Board.IsSquareAttacked` finds an attacker exactly when some piece of
      colour `c` threatens `s`. */
  lemma AttackedScan(pieces: seq<Piece>, s: Square, c: Color)
    ensures AnyFrom(Hits(pieces, s, c), 0) <==> Attacked(pieces, s, c)
  {
    var hits := Hits(pieces, s, c);
    AnyFromMeans(hits, 0);
    if Attacked(pieces, s, c) {
      var k :| 0 <= k < |pieces| && pieces[k].color == c && Threatens(pieces, k, s);
      assert hits[k];
    }
    if AnyFrom(hits, 0) {
      var j :| 0 <= j < |hits| && hits[j];
      assert pieces[j].color == c && Threatens(pieces, j, s);
    }
  }

  /** A side is in check exactly when it has a king and the first of its kings in the
      list stands on a square some piece of the other colour threatens. */
  lemma InCheckKing(pieces: seq<Piece>, c: Color)
    ensures InCheck(pieces, c) <==>
      exists j :: (0 <= j < |pieces| && IsKingOf(pieces[j], c) &&
        (forall i :: 0 <= i < j ==> !IsKingOf(pieces[i], c)) &&
        Attacked(pieces, pieces[j].pos, c.Opponent()))
  {
    match KingSquare(pieces, c, 0)
    case None =>
    case Some(s) =>
      var j :| 0 <= j < |pieces| && IsKingOf(pieces[j], c) && s == pieces[j].pos &&
        forall i :: 0 <= i < j ==> !IsKingOf(pieces[i], c);
      assert forall j' :: (0 <= j' < |pieces| && IsKingOf(pieces[j'], c) &&
        (forall i :: 0 <= i < j' ==> !IsKingOf(pieces[i], c))) ==> j' == j;
  }

  /** Every square `LegalMoves` offers leaves the mover's king out of check, so the
      inner test of `IsCheckmate` succeeds on the first legal move it tries. */
  lemma LegalEscapes(pieces: seq<Piece>, turn: Color, k: nat)
    requires k < |pieces|
    ensures forall m :: m in Legal(pieces, turn, k) ==> !InCheck(Trial(pieces, k, m), pieces[k].color)
  {
  }

  /** Checkmate is check plus no legal move; for the side NOT to move it is plain
      check, because `LegalMoves` gives nothing out of turn. */
  lemma MatedMeans(pieces: seq<Piece>, turn: Color, c: Color)
    ensures Mated(pieces, turn, c) ==> InCheck(pieces, c)
    ensures c != turn ==> (Mated(pieces, turn, c) <==> InCheck(pieces, c))
    ensures c == turn ==> (Mated(pieces, turn, c) <==>
      InCheck(pieces, c) &&
      forall k, m {:trigger Trial(pieces, k, m)} :: 0 <= k < |pieces| && pieces[k].color == c && m in Candidates(pieces, k) ==>
        InCheck(Trial(pieces, k, m), c))
  {
    if c == turn {
      if Mated(pieces, turn, c) {
        forall k, m | 0 <= k < |pieces| && pieces[k].color == c && m in Candidates(pieces, k)
          ensures InCheck(Trial(pieces, k, m), c)
        {
          assert Legal(pieces, turn, k) == [];
          LegalSquares(pieces, turn, k, m);
        }
      }
      if InCheck(pieces, c) &&
        forall k, m {:trigger Trial(pieces, k, m)} :: 0 <= k < |pieces| && pieces[k].color == c && m in Candidates(pieces, k) ==>
          InCheck(Trial(pieces, k, m), c)
      {
        forall k | 0 <= k < |pieces| && pieces[k].color == c
          ensures Legal(pieces, turn, k) == []
        {
          var l := Legal(pieces, turn, k);
          if l != [] {
            LegalSquares(pieces, turn, k, l[0]);
            assert false;
          }
        }
      }
    }
  }

  /** The piece scan of `Board.IsCheckmate` finds a piece with a legal move exactly
      when the second half of `Mated` fails. */
  lemma MovableScan(pieces: seq<Piece>, turn: Color, c: Color)
    ensures Mated(pieces, turn, c) <==> InCheck(pieces, c) && !AnyFrom(Movable(pieces, turn, c), 0)
  {
    var movable := Movable(pieces, turn, c);
    AnyFromMeans(movable, 0);
    if AnyFrom(movable, 0) {
      var j :| 0 <= j < |movable| && movable[j];
      assert pieces[j].color == c && Legal(pieces, turn, j) != [];
    } else {
      forall k | 0 <= k < |pieces| && pieces[k].color == c
        ensures Legal(pieces, turn, k) == []
      {
        assert !movable[k];
      }
    }
  }

  /** A prefix of moves that all leave `c` in check: if every move does, every prefix does. */
  lemma {:induction false} NoEscapePrefix(pieces: seq<Piece>, k: nat, moves: seq<Square>, c: Color, n: nat)
    requires k < |pieces| && n <= |moves|
    ensures NoEscape(pieces, k, moves, c) ==> NoEscape(pieces, k, moves[..n], c)
    decreases |moves| - n
  {
    if n < |moves| {
      var front := moves[..|moves| - 1];
      NoEscapePrefix(pieces, k, front, c, n);
      assert front[..n] == moves[..n];
    } else {
      assert moves[..n] == moves;
    }
  }

  /** When every legal move of the piece at `k` leaves its side in check, it has none:
      the inner loop of `IsCheckmate` finds an escape exactly when a legal move exists. */
  lemma TrappedPiece(pieces: seq<Piece>, turn: Color, k: nat)
    requires k < |pieces|
    ensures NoEscape(pieces, k, Legal(pieces, turn, k), pieces[k].color) <==> Legal(pieces, turn, k) == []
  {
    var legal := Legal(pieces, turn, k);
    if legal != [] {
      LegalEscapes(pieces, turn, k);
      assert legal[|legal| - 1] in legal;
    }
  }
}
