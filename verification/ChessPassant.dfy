/**
 What the generator's test for check misses (src/chess.c:123-134, 330-345): it moves one
 piece on a copy of the board, and leaves the pawn that an en passant capture takes where
 it is. For every other move it judges the board that the move really leaves.
 */
module ChessPassant {
  import opened ChessRules
  import opened ChessBoards
  import opened ChessCastling

  // The move does not leave its side in check when it is played.
  ghost predicate Playable(b: Board, ep: int, color: Color, fr: int, ff: int, tr: int, tf: int) {
    PseudoLegal(b, ep, color, fr, ff, tr, tf) && !InCheck(BoardAfter(b, fr, ff, tr, tf), color)
  }

  // ----- boards on which the same squares are attacked ------------------------------------------

  // The boards differ only in what kind of own piece, no king, stands on a square.
  ghost predicate Alike(b: Board, c: Board, color: Color) {
    forall r, f :: At(b, r, f) == At(c, r, f)
                   || (Own(At(b, r, f), color) && Own(At(c, r, f), color) && At(b, r, f).kind != King && At(c, r, f).kind != King)
  }

  lemma AlikeSeen(b: Board, c: Board, color: Color, r: int, f: int, dr: int, df: int)
    requires Alike(b, c, color) && Seen(b, r, f, Other(color), dr, df)
    ensures Seen(c, r, f, Other(color), dr, df)
  {
    var k :| SeenFrom(b, r, f, Other(color), dr, df, k);
    assert Alike(b, c, color) && Vacant(Empty);
    forall j | 1 <= j < k ensures Vacant(OnLine(c, r, f, dr, df, j)) {
      assert Vacant(OnLine(b, r, f, dr, df, j));
    }
    assert SeenFrom(c, r, f, Other(color), dr, df, k);
  }

  lemma AlikeAttacks(b: Board, c: Board, color: Color, r: int, f: int)
    requires Alike(b, c, color) && Attacked(b, r, f, Other(color))
    ensures Attacked(c, r, f, Other(color))
  {
    var side := Other(color);
    if PawnAttacks(b, r, f, side) {
      assert PawnAttacks(c, r, f, side);
    } else if KnightAttacks(b, r, f, side) {
      var dr, df :| KnightStep(dr, df) && Is(At(b, r + dr, f + df), Knight, side);
      assert Is(At(c, r + dr, f + df), Knight, side);
    } else if KingAttacks(b, r, f, side) {
      var dr, df :| Unit(dr, df) && Is(At(b, r + dr, f + df), King, side);
      assert Is(At(c, r + dr, f + df), King, side);
    } else {
      var dr, df :| Unit(dr, df) && Seen(b, r, f, side, dr, df);
      AlikeSeen(b, c, color, r, f, dr, df);
    }
  }

  lemma {:induction false} AlikeKings(b: Board, c: Board, color: Color, i: nat)
    requires Alike(b, c, color) && i <= 64
    ensures FindKing(b, color, i) == FindKing(c, color, i)
    decreases 64 - i
  {
    if i < 64 {
      SquareAt(b, i);
      SquareAt(c, i);
      AlikeKings(b, c, color, i + 1);
    }
  }

  lemma SquareAt(b: Board, i: nat)
    requires i < 64
    ensures At(b, i / 8, i % 8) == b[i]
  {
  }

  lemma AlikeCheck(b: Board, c: Board, color: Color)
    requires Alike(b, c, color)
    ensures InCheck(b, color) <==> InCheck(c, color)
  {
    hide Attacked, FindKing;
    AlikeKings(b, c, color, 0);
    var k := FindKing(b, color, 0);
    if Attacked(b, k / 8, k % 8, Other(color)) { AlikeAttacks(b, c, color, k / 8, k % 8); }
    if Attacked(c, k / 8, k % 8, Other(color)) { AlikeAttacks(c, b, color, k / 8, k % 8); }
  }

  // ----- every other move is judged as it is played ---------------------------------------------

  lemma JudgedAsPlayed(b: Board, ep: int, color: Color, fr: int, ff: int, tr: int, tf: int)
    requires PseudoLegal(b, ep, color, fr, ff, tr, tf) && !Passant(b, fr, ff, tr, tf)
    ensures Safe(b, fr, ff, tr, tf) <==> Playable(b, ep, color, fr, ff, tr, tf)
  {
    hide InCheck;
    var m, a := Moved(b, fr, ff, tr, tf), BoardAfter(b, fr, ff, tr, tf);
    assert fr != tr || ff != tf;
    assert At(m, tr, tf) == At(b, fr, ff);
    assert Alike(m, a, color);
    AlikeCheck(m, a, color);
  }

  // So where no pawn may capture en passant, the verdict is right.
  lemma VerdictRight(b: Board, ep: int, color: Color)
    requires forall fr, ff, tr, tf | PseudoLegal(b, ep, color, fr, ff, tr, tf) :: !Passant(b, fr, ff, tr, tf)
    ensures HasLegalMove(b, ep, color) <==> exists fr, ff, tr, tf :: Playable(b, ep, color, fr, ff, tr, tf)
  {
    hide PseudoLegal, Safe, Passant, InCheck;
    if HasLegalMove(b, ep, color) {
      var fr, ff :| CanMoveFrom(b, ep, color, fr, ff);
      var tr, tf :| SafeMove(b, ep, color, fr, ff, tr, tf);
      JudgedAsPlayed(b, ep, color, fr, ff, tr, tf);
    }
    if exists fr, ff, tr, tf :: Playable(b, ep, color, fr, ff, tr, tf) {
      var fr, ff, tr, tf :| Playable(b, ep, color, fr, ff, tr, tf);
      JudgedAsPlayed(b, ep, color, fr, ff, tr, tf);
      assert SafeMove(b, ep, color, fr, ff, tr, tf);
      assert CanMoveFrom(b, ep, color, fr, ff);
    }
  }

  // ----- a wrong verdict --------------------------------------------------------------------------

  // White's king on e4 among its own pawns is checked by the pawn that has just come to d5,
  // guarded from e6. Only e5xd6 en passant takes it.
  function MatePiece(r: int, f: int): Piece {
    if r == 3 && f == 4 then Piece(King, White)
    else if (r == 2 && 3 <= f <= 5) || (r == 3 && (f == 3 || f == 5)) || (r == 4 && (f == 4 || f == 5)) then Piece(Pawn, White)
    else if (r == 4 && f == 3) || (r == 5 && f == 4) then Piece(Pawn, Black)
    else if r == 7 && f == 0 then Piece(King, Black)
    else Empty
  }

  const MateBoard: Board := seq(64, i requires 0 <= i < 64 => MatePiece(i / 8, i % 8))

  lemma MateAt(r: int, f: int)
    ensures At(MateBoard, r, f) == if InBounds(r, f) then MatePiece(r, f) else Empty
  {
    if InBounds(r, f) { assert (8 * r + f) / 8 == r && (8 * r + f) % 8 == f; }
  }

  // A black pawn gives check.
  lemma PawnChecks(b: Board, r: int, f: int, df: int)
    requires InBounds(r, f) && (df == 1 || df == -1) && Is(At(b, r + 1, f + df), Pawn, Black)
    ensures Attacked(b, r, f, Black)
  {
  }

  // No move of the position is judged safe.
  lemma MateUnsafe(fr: int, ff: int, tr: int, tf: int)
    requires PseudoLegal(MateBoard, 3, White, fr, ff, tr, tf)
    ensures !Safe(MateBoard, fr, ff, tr, tf)
  {
    MateAt(fr, ff);
    MateAt(tr, tf);
    hide Attacked, InCheck;
    var m := Moved(MateBoard, fr, ff, tr, tf);
    var p := MatePiece(fr, ff);
    forall r, f ensures At(m, r, f) == if r == fr && f == ff then Empty else if r == tr && f == tf then p
                                       else if InBounds(r, f) then MatePiece(r, f) else Empty
    {
      MateAt(r, f);
    }
    if p.kind == King {
      assert tr == 4 && tf == 3;
      PawnChecks(m, 4, 3, 1);
      FindsOnlyKing(m, White, 4, 3);
    } else {
      assert p.kind == Pawn;
      MateAt(tr - 1, tf);
      assert !(tr == 4 && tf == 3);
      PawnChecks(m, 3, 4, -1);
      FindsOnlyKing(m, White, 3, 4);
    }
  }

  // With the taken pawn off the board nothing gives check.
  lemma MateEscapes()
    ensures Playable(MateBoard, 3, White, 4, 4, 5, 3)
  {
    hide Attacked, InCheck;
    var a := BoardAfter(MateBoard, 4, 4, 5, 3);
    forall r, f ensures At(MateBoard, r, f) == if InBounds(r, f) then MatePiece(r, f) else Empty { MateAt(r, f); }
    forall r, f ensures At(a, r, f) == if (r == 4 && (f == 4 || f == 3)) then Empty else if r == 5 && f == 3 then Piece(Pawn, White)
                                       else if InBounds(r, f) then MatePiece(r, f) else Empty
    {
    }
    FindsOnlyKing(a, White, 3, 4);
    NothingAttacks(a, 3, 4);
  }

  lemma NothingAttacks(b: Board, r: int, f: int)
    requires forall r', f' | Own(At(b, r', f'), Black) ::
               (r' == 5 && f' == 4 && At(b, r', f').kind == Pawn) || (r' == 7 && f' == 0 && At(b, r', f').kind == King)
    requires r == 3 && f == 4
    ensures !Attacked(b, r, f, Black)
  {
  }

  // The generator declares checkmate where an en passant capture is the way out.
  lemma PassantMisjudged()
    ensures InCheck(MateBoard, White) && !HasLegalMove(MateBoard, 3, White)
    ensures Playable(MateBoard, 3, White, 4, 4, 5, 3)
  {
    hide PseudoLegal, Safe, InCheck, Playable;
    MateEscapes();
    forall r, f ensures At(MateBoard, r, f) == if InBounds(r, f) then MatePiece(r, f) else Empty { MateAt(r, f); }
    PawnChecks(MateBoard, 3, 4, -1);
    FindsOnlyKing(MateBoard, White, 3, 4);
    if HasLegalMove(MateBoard, 3, White) {
      var fr, ff :| CanMoveFrom(MateBoard, 3, White, fr, ff);
      var tr, tf :| SafeMove(MateBoard, 3, White, fr, ff, tr, tf);
      MateUnsafe(fr, ff, tr, tf);
    }
  }
}
