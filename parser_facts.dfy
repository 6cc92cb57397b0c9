/**
 * What the FEN cursor of `ChessParser.TranslateFen` promises: which characters set
 * the turn, one piece per piece letter in order, one rank per separator, and
 * pieces placed on strictly increasing squares.
 */
module ParserFacts {
  import opened Wrappers
  import opened Pieces
  import opened ChessParser

  /** The parser is a left fold: reading `a + b` is reading `b` from where `a` left off. */
  lemma {:induction false} ScanConcat(a: string, b: string, start: Cursor)
    ensures Scan(a + b, start) == Scan(b, Scan(a, start))
  {
    if b != [] {
      var front := b[..|b| - 1];
      ScanConcat(a, front, start);
      assert (a + b)[..|a + b| - 1] == a + front;
      assert (a + b)[|a + b| - 1] == b[|b| - 1];
    } else {
      assert a + b == a;
    }
  }

  /** The piece letters of `fen`, in order. */
  function Letters(fen: string): (r: string)
    ensures forall ch :: ch in r ==> IsPieceLetter(ch)
  {
    if fen == [] then []
    else Letters(fen[..|fen| - 1]) + if IsPieceLetter(fen[|fen| - 1]) then [fen[|fen| - 1]] else []
  }

  /** Only 'w' sets the turn (to white): 'b' is read as a black bishop first. */
  lemma {:induction false} ScanTurn(fen: string, start: Cursor)
    ensures Scan(fen, start).turn == if 'w' in fen then White else start.turn
  {
    if fen != [] {
      var front := fen[..|fen| - 1];
      assert fen == front + [fen[|fen| - 1]];
      ScanTurn(front, start);
    }
  }

  /** The rank is advanced once per '/' and never otherwise. */
  lemma {:induction false} ScanRank(fen: string, start: Cursor)
    ensures Scan(fen, start).rank == start.rank + multiset(fen)['/']
  {
    if fen != [] {
      var front := fen[..|fen| - 1];
      assert fen == front + [fen[|fen| - 1]];
      ScanRank(front, start);
    }
  }

  /** Each piece letter appends exactly one piece, of that letter's kind and case
      colour, after the pieces already there; nothing else adds or changes a piece. */
  lemma {:induction false} ScanPieces(fen: string, start: Cursor)
    ensures var r := Scan(fen, start).pieces;
      |r| == |start.pieces| + |Letters(fen)| && r[..|start.pieces|] == start.pieces &&
      forall k :: 0 <= k < |Letters(fen)| ==>
        KindLetter(r[|start.pieces| + k]) == Lower(Letters(fen)[k]) &&
        r[|start.pieces| + k].color == LetterColor(Letters(fen)[k])
  {
    if fen != [] {
      var front, ch := fen[..|fen| - 1], fen[|fen| - 1];
      ScanPieces(front, start);
      var before := Scan(front, start);
      if IsPieceLetter(ch) {
        assert Letters(fen) == Letters(front) + [ch];
        var p := CreatePiece(LetterColor(ch), Lower(ch), Square(before.file, before.rank));
        assert Scan(fen, start).pieces == before.pieces + [p.value];
      }
    }
  }

  /** A piece letter puts its piece on the square the cursor is on when it is read,
      right after the pieces placed before it. */
  lemma PieceAtCursor(a: string, ch: char, b: string, start: Cursor)
    requires IsPieceLetter(ch)
    ensures var before := Scan(a, start);
      var r := Scan(a + [ch] + b, start).pieces;
      |before.pieces| < |r| &&
      r[|before.pieces|] == CreatePiece(LetterColor(ch), Lower(ch), Square(before.file, before.rank)).value
  {
    ScanConcat(a + [ch], b, start);
    assert (a + [ch])[..|a|] == a;
    ScanPieces(b, Scan(a + [ch], start));
  }

  /** The characters after the last '/' of `fen` (all of it when there is none). */
  function Segment(fen: string): (r: string)
    ensures '/' !in r && |r| <= |fen|
  {
    if fen == [] || fen[|fen| - 1] == '/' then []
    else Segment(fen[..|fen| - 1]) + [fen[|fen| - 1]]
  }

  /** How far the characters of `fen` move the file: a digit by its value, a piece
      letter by one, anything else not at all. */
  function Advance(fen: string): int
  {
    if fen == [] then 0
    else
      var ch := fen[|fen| - 1];
      Advance(fen[..|fen| - 1]) +
        if IsPieceLetter(ch) then 1 else if '1' <= ch <= '8' then ch as int - '0' as int else 0
  }

  /** The file is reset by the last '/' and then moved by every digit and piece letter
      after it, without any bound: nothing keeps it within the eight files. */
  lemma {:induction false} ScanFile(fen: string, start: Cursor)
    ensures Scan(fen, start).file == (if '/' in fen then 0 else start.file) + Advance(Segment(fen))
  {
    if fen != [] {
      var front, ch := fen[..|fen| - 1], fen[|fen| - 1];
      assert fen == front + [ch];
      ScanFile(front, start);
      if ch != '/' {
        var seg := Segment(front);
        assert Segment(fen) == seg + [ch];
        assert (seg + [ch])[..|seg + [ch]| - 1] == seg;
      }
    }
  }

  /** Square `s` comes before square `t` in reading order (rank, then file). */
  predicate Before(s: Square, t: Square)
  {
    s.y < t.y || (s.y == t.y && s.x < t.x)
  }

  /** Every piece lies before the cursor. */
  predicate BehindCursor(cur: Cursor)
  {
    forall k :: 0 <= k < |cur.pieces| ==> Before(cur.pieces[k].pos, Square(cur.file, cur.rank))
  }

  /** The pieces of `cur` lie in strictly increasing reading order. */
  predicate Increasing(cur: Cursor)
  {
    forall a, b :: 0 <= a < b < |cur.pieces| ==> Before(cur.pieces[a].pos, cur.pieces[b].pos)
  }

  /** From an empty start, the parser places pieces in strictly increasing reading order,
      on squares with non-negative coordinates; in particular no two share a square. */
  lemma {:induction false} ScanOrdered(fen: string, turn: Color)
    ensures var r := Scan(fen, Start(turn));
      BehindCursor(r) && Increasing(r) &&
      forall k :: 0 <= k < |r.pieces| ==> r.pieces[k].pos.x >= 0 && r.pieces[k].pos.y >= 0
  {
    if fen != [] {
      var front, ch := fen[..|fen| - 1], fen[|fen| - 1];
      ScanOrdered(front, turn);
      var before := Scan(front, Start(turn));
      var after := Scan(fen, Start(turn));
      assert after == Step(before, ch);
      if ch != '/' && IsPieceLetter(ch) {
        var p := CreatePiece(LetterColor(ch), Lower(ch), Square(before.file, before.rank));
        assert after.pieces == before.pieces + [p.value];
        assert forall k :: 0 <= k < |before.pieces| ==> after.pieces[k] == before.pieces[k];
      }
    }
  }

  /** Corollary: the parser never puts two pieces on one square. */
  lemma DistinctSquares(fen: string, turn: Color)
    ensures var r := Scan(fen, Start(turn)).pieces;
      forall a, b :: 0 <= a < b < |r| ==> r[a].pos != r[b].pos
  {
    ScanOrdered(fen, turn);
  }

  /** The letters of a castling-rights field are read as pieces, placed past the
      last square the position itself filled: "k/K w Kq" adds a white king and a
      black queen beside white's king. */
  lemma CastlingFieldPlacesPieces(fen: string)
    requires fen == "k/K w Kq"
    ensures Scan(fen, Start(Black)) ==
      Cursor([King(Black, Square(0, 0), true), King(White, Square(0, 1), true),
              King(White, Square(1, 1), true), Queen(Black, Square(2, 1))], 3, 1, White)
  {
    var kings := Cursor([King(Black, Square(0, 0), true), King(White, Square(0, 1), true)], 1, 1, Black);
    TwoKings();
    TurnField(kings);
    CastlingLetters(kings.(turn := White));
    ScanConcat(" w ", "Kq", kings);
    ScanConcat("k/K", " w " + "Kq", Start(Black));
    assert fen == "k/K" + (" w " + "Kq");
  }

  lemma TwoKings()
    ensures Scan("k/K", Start(Black)) ==
      Cursor([King(Black, Square(0, 0), true), King(White, Square(0, 1), true)], 1, 1, Black)
  {
    assert "k/K"[..2] == "k/";
    assert "k/"[..1] == "k";
  }

  /** The side-to-move field " w " only sets the turn. */
  lemma TurnField(cur: Cursor)
    ensures Scan(" w ", cur) == cur.(turn := White)
  {
    assert " "[..0] == [];
    assert Scan(" ", cur) == cur;
    assert " w"[..1] == " ";
    assert Scan(" w", cur) == cur.(turn := White);
    assert " w "[..2] == " w";
  }

  /** "Kq" places a white king and a black queen at the cursor, one file apart. */
  lemma CastlingLetters(cur: Cursor)
    ensures Scan("Kq", cur) ==
      cur.(pieces := cur.pieces + [King(White, Square(cur.file, cur.rank), true), Queen(Black, Square(cur.file + 1, cur.rank))],
           file := cur.file + 2)
  {
    assert "K"[..0] == [];
    assert Scan("K", cur) == cur.(pieces := cur.pieces + [King(White, Square(cur.file, cur.rank), true)], file := cur.file + 1);
    assert "Kq"[..1] == "K";
  }
}
