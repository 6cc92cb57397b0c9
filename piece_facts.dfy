/**
 * What the generators of pieces.py promise: ray shape for the sliding pieces,
 * the pawn's forward and diagonal rules, and when castling squares appear.
 */
module PieceFacts {
  import opened Wrappers
  import opened Pieces

  /** A ray from step `i` lists the steps i, i+1, ... in order; every square but the
      last is empty; it stops early only at an occupied square; it has at most 8-i squares. */
  lemma {:induction false} RayShape(pieces: seq<Piece>, from: Square, d: (int, int), i: nat)
    requires i <= 8
    ensures |Ray(pieces, from, d, i)| <= 8 - i
    ensures forall k :: 0 <= k < |Ray(pieces, from, d, i)| ==> Ray(pieces, from, d, i)[k] == Along(from, d, i + k)
    ensures forall k :: 0 <= k < |Ray(pieces, from, d, i)| - 1 ==> !Occupied(pieces, Ray(pieces, from, d, i)[k])
    ensures |Ray(pieces, from, d, i)| < 8 - i ==>
      |Ray(pieces, from, d, i)| > 0 && Occupied(pieces, Ray(pieces, from, d, i)[|Ray(pieces, from, d, i)| - 1])
    decreases 8 - i
  {
    if i < 8 && !Occupied(pieces, Along(from, d, i)) {
      RayShape(pieces, from, d, i + 1);
      var r, rest := Ray(pieces, from, d, i), Ray(pieces, from, d, i + 1);
      assert r == [Along(from, d, i)] + rest;
      forall k | 0 <= k < |r|
        ensures r[k] == Along(from, d, i + k)
      {
        if k > 0 {
          assert r[k] == rest[k - 1];
        }
      }
    }
  }

  /** Every square of a ray lies 1 to 7 steps along its direction, with every
      earlier step empty. */
  lemma RaySquares(pieces: seq<Piece>, from: Square, d: (int, int))
    ensures |Ray(pieces, from, d, 1)| <= 7
    ensures forall m :: m in Ray(pieces, from, d, 1) ==>
      exists i :: (1 <= i <= 7 && m == Along(from, d, i) &&
        forall t :: 1 <= t < i ==> !Occupied(pieces, Along(from, d, t)))
  {
    RayShape(pieces, from, d, 1);
    var ray := Ray(pieces, from, d, 1);
    forall m | m in ray
      ensures exists i :: (1 <= i <= 7 && m == Along(from, d, i) &&
        forall t :: 1 <= t < i ==> !Occupied(pieces, Along(from, d, t)))
    {
      var k :| 0 <= k < |ray| && ray[k] == m;
      forall t | 1 <= t < k + 1
        ensures !Occupied(pieces, Along(from, d, t))
      {
        assert ray[t - 1] == Along(from, d, t);
      }
      assert m == Along(from, d, k + 1);
    }
  }

  /** Every square a sliding piece reaches lies 1 to 7 steps along one of its
      directions, with every square before it on that ray empty. */
  lemma {:induction false} RaysSquares(pieces: seq<Piece>, from: Square, dirs: seq<(int, int)>)
    ensures |Rays(pieces, from, dirs)| <= 7 * |dirs|
    ensures forall m :: m in Rays(pieces, from, dirs) ==>
      exists j, i :: (0 <= j < |dirs| && 1 <= i <= 7 && m == Along(from, dirs[j], i) &&
        forall t :: 1 <= t < i ==> !Occupied(pieces, Along(from, dirs[j], t)))
  {
    if dirs != [] {
      var front, d := dirs[..|dirs| - 1], dirs[|dirs| - 1];
      RaysSquares(pieces, from, front);
      RaySquares(pieces, from, d);
      forall m | m in Rays(pieces, from, dirs)
        ensures exists j, i :: (0 <= j < |dirs| && 1 <= i <= 7 && m == Along(from, dirs[j], i) &&
          forall t :: 1 <= t < i ==> !Occupied(pieces, Along(from, dirs[j], t)))
      {
        if m in Rays(pieces, from, front) {
          var j, i :| 0 <= j < |front| && 1 <= i <= 7 && m == Along(from, front[j], i) &&
            forall t :: 1 <= t < i ==> !Occupied(pieces, Along(from, front[j], t));
          assert dirs[j] == front[j];
        } else {
          assert dirs[|dirs| - 1] == d;
        }
      }
    }
  }

  /** The queen's directions are the rook's four orthogonal ones followed by the
      bishop's four diagonal ones. */
  lemma DirectionTables()
    ensures QueenDirections == RookDirections + BishopDirections
    ensures forall d :: d in RookDirections ==> (d.0 == 0) != (d.1 == 0) && Abs(d.0 + d.1) == 1
    ensures forall d :: d in BishopDirections ==> Abs(d.0) == 1 && Abs(d.1) == 1
  {
  }

  /** Where a pawn's squares come from: the forward steps, the held diagonals, the
      en-passant square. */
  lemma PawnMovesFrom(pieces: seq<Piece>, c: Color, from: Square, m: Square)
    ensures m in PawnMoves(pieces, c, from) <==>
      (!Occupied(pieces, Square(from.x, from.y + Direction(c))) &&
        (m == Square(from.x, from.y + Direction(c)) ||
         (m == Square(from.x, from.y + 2 * Direction(c)) && from.y == SpecialRank(c) && !Occupied(pieces, m)))) ||
      (m in PawnAttacks(c, from) && HeldByOpponent(pieces, m, c)) ||
      (from.y == EnPassantRank(c) && EnPassantTarget(pieces, c, from, 0) == Some(m))
  {
  }

  /** An en-passant square is one of the pawn's two diagonals. */
  lemma EnPassantOnDiagonal(pieces: seq<Piece>, c: Color, from: Square)
    ensures EnPassantTarget(pieces, c, from, 0).Some? ==>
      EnPassantTarget(pieces, c, from, 0).value in PawnAttacks(c, from)
  {
    var t := EnPassantTarget(pieces, c, from, 0);
    if t.Some? {
      var j :| 0 <= j < |pieces| && EnPassantVictim(pieces[j], c, from) &&
        t.value == Square(pieces[j].pos.x, from.y + Direction(c));
    }
  }

  /** The single step is offered exactly when its square is empty; the double step
      exactly from the home row with both squares ahead empty; nothing else stays in
      the pawn's own file. */
  lemma PawnStraight(pieces: seq<Piece>, c: Color, from: Square)
    ensures var forward := Square(from.x, from.y + Direction(c));
      forward in PawnMoves(pieces, c, from) <==> !Occupied(pieces, forward)
    ensures var forward, double := Square(from.x, from.y + Direction(c)), Square(from.x, from.y + 2 * Direction(c));
      double in PawnMoves(pieces, c, from) <==>
        from.y == SpecialRank(c) && !Occupied(pieces, forward) && !Occupied(pieces, double)
    ensures forall m :: m in PawnMoves(pieces, c, from) && m.x == from.x ==>
      m == Square(from.x, from.y + Direction(c)) || m == Square(from.x, from.y + 2 * Direction(c))
  {
    EnPassantOnDiagonal(pieces, c, from);
    var forward, double := Square(from.x, from.y + Direction(c)), Square(from.x, from.y + 2 * Direction(c));
    PawnMovesFrom(pieces, c, from, forward);
    PawnMovesFrom(pieces, c, from, double);
    forall m | m in PawnMoves(pieces, c, from) && m.x == from.x
      ensures m == forward || m == double
    {
      PawnMovesFrom(pieces, c, from, m);
    }
  }

  /** Squares off the pawn's file are diagonals: each is offered exactly when an enemy
      piece holds it or it is the en-passant square found from the en-passant row. */
  lemma PawnSides(pieces: seq<Piece>, c: Color, from: Square)
    ensures forall m :: m in PawnMoves(pieces, c, from) && m.x != from.x ==> m in PawnAttacks(c, from)
    ensures forall m :: m in PawnAttacks(c, from) ==>
      (m in PawnMoves(pieces, c, from) <==>
        HeldByOpponent(pieces, m, c) ||
        (from.y == EnPassantRank(c) && EnPassantTarget(pieces, c, from, 0) == Some(m)))
  {
    EnPassantOnDiagonal(pieces, c, from);
    forall m | m in PawnMoves(pieces, c, from) || m in PawnAttacks(c, from)
      ensures m in PawnMoves(pieces, c, from) && m.x != from.x ==> m in PawnAttacks(c, from)
      ensures m in PawnAttacks(c, from) ==>
        (m in PawnMoves(pieces, c, from) <==>
          HeldByOpponent(pieces, m, c) ||
          (from.y == EnPassantRank(c) && EnPassantTarget(pieces, c, from, 0) == Some(m)))
    {
      PawnMovesFrom(pieces, c, from, m);
    }
  }

  /** A rook that can enable castling: same colour, flag set, on file 7 (any row). */
  predicate CastlingRook(q: Piece, c: Color)
  {
    q.Rook? && q.color == c && q.castling && q.pos.x == 7
  }

  lemma {:induction false} ScanSquares(rooks: seq<Piece>, c: Color, from: Square, kingSideClear: bool, queenSideClear: bool)
    requires forall q :: q in rooks ==> q.Rook? && q.color == c
    ensures forall s :: s in CastlingScan(rooks, from, kingSideClear, queenSideClear) <==>
      (exists q :: q in rooks && CastlingRook(q, c)) &&
      (if kingSideClear then s == Square(from.x + 2, from.y) else queenSideClear && s == Square(from.x - 2, from.y))
  {
    if rooks != [] {
      var front, last := rooks[..|rooks| - 1], rooks[|rooks| - 1];
      assert rooks == front + [last];
      ScanSquares(front, c, from, kingSideClear, queenSideClear);
      assert (exists q :: q in rooks && CastlingRook(q, c)) <==>
        (exists q :: q in front && CastlingRook(q, c)) || CastlingRook(last, c);
    }
  }

  /** `King.castling` gives nothing without the king's flag or without a same-colour
      rook with its flag on file 7; otherwise it gives the king-side square [x+2, y]
      when files 5-6 are empty and else the queen-side square [x-2, y] when files 1-3
      are empty. A rook on file 0 never counts. */
  lemma CastlingSquares(pieces: seq<Piece>, c: Color, from: Square, possibleCastle: bool)
    ensures forall s :: s in CastlingMoves(pieces, c, from, possibleCastle) <==>
      possibleCastle && (exists k :: 0 <= k < |pieces| && CastlingRook(pieces[k], c)) &&
      if AllEmpty(pieces, KingSide(from.y)) then s == Square(from.x + 2, from.y)
      else AllEmpty(pieces, QueenSide(from.y)) && s == Square(from.x - 2, from.y)
  {
    var rooks := RooksOf(pieces, c);
    ScanSquares(rooks, c, from, AllEmpty(pieces, KingSide(from.y)), AllEmpty(pieces, QueenSide(from.y)));
    if exists k :: 0 <= k < |pieces| && CastlingRook(pieces[k], c) {
      var k :| 0 <= k < |pieces| && CastlingRook(pieces[k], c);
      assert pieces[k] in rooks;
    }
  }
}
