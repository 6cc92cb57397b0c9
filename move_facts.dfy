/**
 * What `MoveManager.MovePiece` does to the piece list, and three positions that
 * show how its helper steps behave as written.
 */
module MoveFacts {
  import opened Wrappers
  import opened Pieces
  import opened Moves

  /** The piece that moved stands on the target with its colour and kind: a king has
      lost its castling right, a rook its castling flag, a pawn has its en-passant flag
      set after a two-row step (and keeps the one it had otherwise). */
  lemma MoverLands(pieces: seq<Piece>, i: nat, target: Square)
    requires i < |pieces|
    ensures var p, q := pieces[i], Applied(pieces, i, target).Mover();
      match p
      case King(c, _, _) => q == King(c, target, false)
      case Rook(c, _, _) => q == Rook(c, target, false)
      case Pawn(c, from, flag) => q == Pawn(c, target, flag || Abs(target.y - from.y) == 2)
      case Queen(c, _) => q == Queen(c, target)
      case Bishop(c, _) => q == Bishop(c, target)
      case Knight(c, _) => q == Knight(c, target)
  {
    var captured := TakeEnPassant(Capture(Moving(pieces, i), target));
    assert captured.Mover() == pieces[i];
    var castled := MoveRook(captured, target);
    assert !pieces[i].King? ==> castled == captured;
  }

  /** A pawn that reaches row 0 or 7 is replaced by a queen of its colour on the target,
      appended at the end of the list; otherwise the list is the one the steps built. */
  lemma PromotionReplaces(pieces: seq<Piece>, i: nat, target: Square)
    requires i < |pieces|
    ensures var a := Applied(pieces, i, target);
      var r := Moved(pieces, i, target);
      if pieces[i].Pawn? && (target.y == 0 || target.y == 7) then
        |r| == |a.pieces| && r[|r| - 1] == Queen(pieces[i].color, target) &&
        multiset(r) + multiset{a.Mover()} == multiset(a.pieces) + multiset{Queen(pieces[i].color, target)}
      else r == a.pieces
  {
    var a := Applied(pieces, i, target);
    MoverLands(pieces, i, target);
    if Promotes(a) {
      var queen := Queen(a.Mover().color, a.Mover().pos);
      var s := a.pieces + [queen];
      assert s[a.mover] == a.Mover();
      assert multiset(s) == multiset(a.pieces) + multiset{queen};
    }
  }

  /** After a move no pawn of the other colour can be taken en passant. */
  lemma OpponentFlagsCleared(pieces: seq<Piece>, i: nat, target: Square)
    requires i < |pieces|
    ensures forall q :: q in Moved(pieces, i, target) && q.Pawn? && q.color != pieces[i].color ==>
      !q.enPassantAble
  {
    var a := Applied(pieces, i, target);
    MoverLands(pieces, i, target);
    assert a.Mover().color == pieces[i].color;
    forall q | q in a.pieces && q.Pawn? && q.color != pieces[i].color
      ensures !q.enPassantAble
    {
      var k :| 0 <= k < |a.pieces| && a.pieces[k] == q;
    }
    if Promotes(a) {
      var s := a.pieces + [Queen(a.Mover().color, a.Mover().pos)];
      forall q | q in RemoveAt(s, a.mover)
        ensures q in a.pieces || q.Queen?
      {
        var k :| 0 <= k < |RemoveAt(s, a.mover)| && RemoveAt(s, a.mover)[k] == q;
        if k < |a.pieces| - 1 {
          assert q == s[k] || q == s[k + 1];
        }
      }
    }
  }

  /** `capturePiece` removes exactly one piece of the other colour on the target when
      there is one, and changes nothing when there is none. */
  lemma CaptureRemovesOne(m: Moving, target: Square)
    requires m.Tracks()
    ensures !HeldByOpponent(m.pieces, target, m.Mover().color) ==> Capture(m, target) == m
    ensures HeldByOpponent(m.pieces, target, m.Mover().color) ==>
      exists j :: (0 <= j < |m.pieces| && m.pieces[j].pos == target && m.pieces[j].color != m.Mover().color &&
        multiset(Capture(m, target).pieces) + multiset{m.pieces[j]} == multiset(m.pieces))
  {
    var c := m.Mover().color;
    if HeldByOpponent(m.pieces, target, c) {
      var k :| 0 <= k < |m.pieces| && m.pieces[k].pos == target && m.pieces[k].color != c;
      assert Capturable(m.pieces[k], c, target);
    } else {
      assert forall j :: 0 <= j < |m.pieces| ==> !Capturable(m.pieces[j], c, target);
    }
  }

  /** `En_passant_takinator` changes nothing for a piece that is not a pawn; for a pawn
      it removes at most one piece: the first flagged enemy pawn on the mover's row,
      and only when it stands in an adjacent file. */
  lemma EnPassantRemovesOne(m: Moving)
    requires m.Tracks()
    ensures !m.Mover().Pawn? ==> TakeEnPassant(m) == m
    ensures TakeEnPassant(m) == m ||
      exists j :: (0 <= j < |m.pieces| && j != m.mover &&
        EnPassantVictim(m.pieces[j], m.Mover().color, m.Mover().pos) &&
        m.pieces[j].pos.y == m.Mover().pos.y &&
        TakeEnPassant(m).pieces == RemoveAt(m.pieces, j))
    ensures m.Mover().Pawn? && (forall j :: 0 <= j < |m.pieces| ==> !PassedPawn(m.pieces[j], m.Mover())) ==>
      TakeEnPassant(m) == m
    ensures m.Mover().Pawn? ==> forall j {:trigger PassedPawn(m.pieces[j], m.Mover())} ::
      0 <= j < |m.pieces| && PassedPawn(m.pieces[j], m.Mover()) &&
      (forall i :: 0 <= i < j ==> !PassedPawn(m.pieces[i], m.Mover())) ==>
        if Abs(m.pieces[j].pos.x - m.Mover().pos.x) == 1
        then TakeEnPassant(m).pieces == RemoveAt(m.pieces, j)
        else TakeEnPassant(m) == m
  {
    if m.Mover().Pawn? {
      match FirstPassedPawn(m.pieces, m.Mover(), 0)
      case None =>
      case Some(j) =>
        assert PassedPawn(m.pieces[j], m.Mover());
    }
  }

  /** When a king moves to row 6 (or 2) and a rook of its colour stands on file 7 (or 0)
      of the king's row, the first such rook ends on file 5 (or 3), keeping its flag. */
  lemma RookFollowsKing(pieces: seq<Piece>, i: nat, target: Square)
    requires i < |pieces| && pieces[i].King?
    requires target.y == 6 || target.y == 2
    ensures var m := Capture(Moving(pieces, i), target);
      var file := if target.y == 6 then 7 else 0;
      var j := FirstRook(m.pieces, pieces[i], file, 0);
      j.Some? ==>
        var rook := m.pieces[j.value];
        Moved(pieces, i, target)[j.value] ==
          Rook(rook.color, Square(if target.y == 6 then 5 else 3, rook.pos.y), rook.castling)
    ensures var m := Capture(Moving(pieces, i), target);
      var j := FirstRook(m.pieces, pieces[i], if target.y == 6 then 7 else 0, 0);
      j.Some? ==> (|Moved(pieces, i, target)| == |m.pieces| &&
        forall k :: 0 <= k < |m.pieces| && k != j.value && k != m.mover ==>
          Moved(pieces, i, target)[k] == Cleared(m.pieces[k], pieces[i].color))
  {
    var m := Capture(Moving(pieces, i), target);
    assert TakeEnPassant(m) == m;
    MoverLands(pieces, i, target);
  }

  /** `castle_inator` leaves the list alone unless a king moves to row 6 or 2. */
  lemma RookStaysUnlessKingRow(m: Moving, target: Square)
    requires m.Tracks()
    ensures !(m.Mover().King? && (target.y == 6 || target.y == 2)) ==> MoveRook(m, target) == m
  {
  }

  /** A king moving to another row than 6 or 2, or finding no rook: the shift
      `castle_inator` may apply to the king is overwritten when the king is placed, so
      every other piece only has its flag cleared. */
  lemma LoneKingUnshifted(pieces: seq<Piece>, i: nat, target: Square)
    requires i < |pieces| && pieces[i].King?
    ensures var m := Capture(Moving(pieces, i), target);
      (target.y != 6 && target.y != 2) ||
      FirstRook(m.pieces, pieces[i], if target.y == 6 then 7 else 0, 0).None? ==>
      forall k :: 0 <= k < |m.pieces| && k != m.mover ==>
        Moved(pieces, i, target)[k] == Cleared(m.pieces[k], pieces[i].color)
  {
    var m := Capture(Moving(pieces, i), target);
    assert TakeEnPassant(m) == m;
    MoverLands(pieces, i, target);
  }

  /** As written, a pawn step that is not a capture still removes a flagged enemy pawn
      standing beside it: white pawn e5 pushes to e6 and black's pawn on d5 vanishes. */
  lemma PushTakesEnPassant()
    ensures Moved([Pawn(White, Square(4, 3), false), Pawn(Black, Square(3, 3), true)], 0, Square(4, 2)) ==
      [Pawn(White, Square(4, 2), false)]
  {
    var pieces := [Pawn(White, Square(4, 3), false), Pawn(Black, Square(3, 3), true)];
    PushRemovesNeighbour();
    var taken := Moving([pieces[0]], 0);
    assert MoveRook(taken, Square(4, 2)) == taken;
    assert MarkDoubleStep(taken, Square(4, 2)) == taken;
    assert ClearEnPassant(taken.pieces, White) == taken.pieces;
    assert Applied(pieces, 0, Square(4, 2)) == Moving([Pawn(White, Square(4, 2), false)], 0);
  }

  /** The first two steps of that push: nothing to capture on e6, then the passed pawn
      on d5 is taken. */
  lemma PushRemovesNeighbour()
    ensures var pieces := [Pawn(White, Square(4, 3), false), Pawn(Black, Square(3, 3), true)];
      TakeEnPassant(Capture(Moving(pieces, 0), Square(4, 2))) == Moving([pieces[0]], 0)
  {
    var pieces := [Pawn(White, Square(4, 3), false), Pawn(Black, Square(3, 3), true)];
    assert FirstCapturable(pieces, White, Square(4, 2), 2).None?;
    assert Capture(Moving(pieces, 0), Square(4, 2)) == Moving(pieces, 0);
    assert FirstPassedPawn(pieces, pieces[0], 0) == Some(1);
  }

  /** As written, the rook moves when the king's destination row is 6, whatever the
      king does: a white king stepping from e1 to e2 drags the h1 rook to f1. */
  lemma KingStepMovesRook()
    ensures Moved([King(White, Square(4, 7), true), Rook(White, Square(7, 7), true)], 0, Square(4, 6)) ==
      [King(White, Square(4, 6), false), Rook(White, Square(5, 7), true)]
  {
    var pieces := [King(White, Square(4, 7), true), Rook(White, Square(7, 7), true)];
    assert FirstCapturable(pieces, White, Square(4, 6), 2).None?;
    assert FirstRook(pieces, pieces[0], 7, 1) == Some(1);
  }

  /** As written, castling itself (king e1 to g1, destination row 7) leaves the rook on h1. */
  lemma CastlingLeavesRook()
    ensures Moved([King(White, Square(4, 7), true), Rook(White, Square(7, 7), true)], 0, Square(6, 7)) ==
      [King(White, Square(6, 7), false), Rook(White, Square(7, 7), true)]
  {
    var pieces := [King(White, Square(4, 7), true), Rook(White, Square(7, 7), true)];
    assert FirstCapturable(pieces, White, Square(6, 7), 2).None?;
  }
}
