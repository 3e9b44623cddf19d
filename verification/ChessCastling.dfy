/**
 Why the checkmate generator may leave castling out (src/chess.c:53-134, 284-307,
 328-391): in every position that play can reach, if either castling test passes then
 the king's single step toward that rook is accepted and safe, so the generator finds a
 move anyway.
 */
module ChessCastling {
  import opened ChessRules
  import opened ChessBoards

  // The only king of the colour stands on (r, f).
  ghost predicate OnlyKing(b: Board, color: Color, r: int, f: int) {
    Is(At(b, r, f), King, color) && forall r', f' | Is(At(b, r', f'), King, color) :: r' == r && f' == f
  }

  // ----- the step toward the rook ---------------------------------------------------------

  // A line that attacks the square next to the king after the king's step already
  // attacked that square, or the square the king left.
  lemma VacatingOpensNothing(b: Board, r: int, t: int, color: Color, dr: int, df: int, k: int)
    requires InBounds(r, 4) && (t == 3 || t == 5) && Unit(dr, df)
    requires Is(At(b, r, 4), King, color) && Vacant(At(b, r, t))
    requires SeenFrom(Moved(b, r, 4, r, t), r, t, Other(color), dr, df, k)
    ensures Seen(b, r, t, Other(color), dr, df) || Seen(b, r, 4, Other(color), dr, df)
  {
    var m := Moved(b, r, 4, r, t);
    assert OnLine(m, r, t, dr, df, k) == OnLine(b, r, t, dr, df, k);
    if dr == 0 && df == 4 - t {
      forall j | 1 <= j < k - 1 ensures Vacant(OnLine(b, r, 4, dr, df, j)) {
        assert Vacant(OnLine(m, r, t, dr, df, j + 1));
      }
      assert Vacant(OnLine(m, r, t, dr, df, 1));
      if k > 1 {
        assert SeenFrom(b, r, 4, Other(color), dr, df, k - 1);
      }
    } else {
      forall j | 1 <= j < k ensures Vacant(OnLine(b, r, t, dr, df, j)) {
        assert Vacant(OnLine(m, r, t, dr, df, j));
      }
      assert SeenFrom(b, r, t, Other(color), dr, df, k);
    }
  }

  lemma StepNotAttacked(b: Board, r: int, t: int, color: Color)
    requires InBounds(r, 4) && (t == 3 || t == 5)
    requires Is(At(b, r, 4), King, color) && Vacant(At(b, r, t))
    requires !Attacked(b, r, 4, Other(color)) && !Attacked(b, r, t, Other(color))
    ensures !Attacked(Moved(b, r, 4, r, t), r, t, Other(color))
  {
    var m, side := Moved(b, r, 4, r, t), Other(color);
    forall r', f' ensures At(m, r', f').color == side && !Vacant(At(m, r', f')) ==> At(m, r', f') == At(b, r', f') {}
    forall dr, df | Unit(dr, df) ensures !Seen(m, r, t, side, dr, df) {
      if Seen(m, r, t, side, dr, df) {
        var k :| SeenFrom(m, r, t, side, dr, df, k);
        VacatingOpensNothing(b, r, t, color, dr, df, k);
      }
    }
  }

  lemma {:induction false} FindsOnlyKing(b: Board, color: Color, r: int, f: int)
    requires InBounds(r, f) && OnlyKing(b, color, r, f)
    ensures InCheck(b, color) == Attacked(b, r, f, Other(color))
  {
    forall j | 0 <= j < 8 * r + f ensures !Is(b[j], King, color) {
      assert b[j] == At(b, j / 8, j % 8);
    }
    KingFound(b, color, r, f);
  }

  // If a castling test passes for a king on file e that is the only one of its colour,
  // its step toward the rook is accepted and safe.
  lemma CastlingStepIsSafe(v: Game, r: int, color: Color, kingside: bool)
    requires InBounds(r, 4) && OnlyKing(v.board, color, r, 4) && CastlingOk(v, r, color, kingside)
    ensures SafeMove(v.board, v.ep, color, r, 4, r, if kingside then 5 else 3)
  {
    hide Attacked, InCheck;
    var b, t := v.board, if kingside then 5 else 3;
    assert t in Between(kingside) && t in KingsWay(kingside) && 4 in KingsWay(kingside);
    StepNotAttacked(b, r, t, color);
    var m := Moved(b, r, 4, r, t);
    assert Unit(0, t - 4);
    assert OnlyKing(m, color, r, t);
    FindsOnlyKing(m, color, r, t);
  }

  // ----- reachable positions ----------------------------------------------------------------

  datatype Turn = Turn(fr: int, ff: int, tr: int, tf: int)

  // One call of tt_chess_move: a rejected move changes nothing.
  ghost function Try(v: Game, m: Turn): Game {
    if Accepted(v, m.fr, m.ff, m.tr, m.tf) then
      AcceptedMeans(v, m.fr, m.ff, m.tr, m.tf);
      Played(v, m.fr, m.ff, m.tr, m.tf)
    else v
  }

  ghost function Play(v: Game, turns: seq<Turn>): Game {
    if turns == [] then v else Try(Play(v, turns[..|turns| - 1]), turns[|turns| - 1])
  }

  // No colour has two kings, and a king that may still castle stands at home.
  ghost predicate AtHome(v: Game, color: Color) {
    && (forall r, f, r', f' | Is(At(v.board, r, f), King, color) && Is(At(v.board, r', f'), King, color) :: r == r' && f == f')
    && (Right(v, color, true) || Right(v, color, false) ==>
          forall r, f | Is(At(v.board, r, f), King, color) :: r == HomeRank(color) && f == 4)
  }

  // A king on the board after a move was there before, or has just moved.
  lemma KingsAfter(v: Game, m: Turn, color: Color, r: int, f: int)
    requires Accepted(v, m.fr, m.ff, m.tr, m.tf)
    requires InBounds(m.fr, m.ff) && InBounds(m.tr, m.tf)
    requires Is(At(BoardAfter(v.board, m.fr, m.ff, m.tr, m.tf), r, f), King, color)
    ensures (Is(At(v.board, r, f), King, color) && !(r == m.fr && f == m.ff) && !(r == m.tr && f == m.tf))
            || (r == m.tr && f == m.tf && Is(At(v.board, m.fr, m.ff), King, color))
  {
    hide Attacked;
    var p := At(v.board, m.fr, m.ff);
    if p.kind == King && (m.tf == m.ff + 2 || m.tf == m.ff - 2) {
      assert Castles(v, m.fr, m.ff, m.tr, m.tf);
    }
  }

  lemma TryKeeps(v: Game, m: Turn, color: Color)
    requires AtHome(v, color)
    ensures AtHome(Try(v, m), color)
  {
    hide Accepted, BoardAfter, HasLegalMove, InCheck;
    if Accepted(v, m.fr, m.ff, m.tr, m.tf) {
      AcceptedMeans(v, m.fr, m.ff, m.tr, m.tf);
      var b := BoardAfter(v.board, m.fr, m.ff, m.tr, m.tf);
      forall r, f | Is(At(b, r, f), King, color)
        ensures (Is(At(v.board, r, f), King, color) && !(r == m.fr && f == m.ff) && !(r == m.tr && f == m.tf))
                || (r == m.tr && f == m.tf && Is(At(v.board, m.fr, m.ff), King, color))
      {
        KingsAfter(v, m, color, r, f);
      }
      var u := Try(v, m);
      assert u.board == b;
    }
  }

  lemma {:induction false} PlayKeeps(turns: seq<Turn>, color: Color)
    ensures AtHome(Play(Start, turns), color)
  {
    if turns == [] {
      StartAtHome(color);
    } else {
      PlayKeeps(turns[..|turns| - 1], color);
      TryKeeps(Play(Start, turns[..|turns| - 1]), turns[|turns| - 1], color);
    }
  }

  lemma StartAtHome(color: Color)
    ensures AtHome(Start, color)
  {
    forall r, f | Is(At(StartBoard, r, f), King, color) ensures r == HomeRank(color) && f == 4 {
      assert (8 * r + f) / 8 == r && (8 * r + f) % 8 == f;
      assert At(StartBoard, r, f) == StartPiece(r, f);
    }
  }

  // ----- the verdict --------------------------------------------------------------------------

  // In every reachable position the generator finds a move exactly if the side to move
  // has one, castling included; so its verdicts are not changed by leaving castling out.
  lemma OmittingCastlingIsHarmless(turns: seq<Turn>)
    ensures var v := Play(Start, turns);
            HasLegalMove(v.board, v.ep, v.toMove)
            <==> exists fr, ff, tr, tf :: SafeMove(v.board, v.ep, v.toMove, fr, ff, tr, tf) || Castles(v, fr, ff, tr, tf)
  {
    hide SafeMove, CastlingOk;
    var v := Play(Start, turns);
    if exists fr, ff, tr, tf :: SafeMove(v.board, v.ep, v.toMove, fr, ff, tr, tf) || Castles(v, fr, ff, tr, tf) {
      var fr, ff, tr, tf :| SafeMove(v.board, v.ep, v.toMove, fr, ff, tr, tf) || Castles(v, fr, ff, tr, tf);
      if Castles(v, fr, ff, tr, tf) {
        PlayKeeps(turns, v.toMove);
        assert Right(v, v.toMove, tf == ff + 2) by { CastlingNeedsRight(v, fr, v.toMove, tf == ff + 2); }
        assert OnlyKing(v.board, v.toMove, fr, 4);
        CastlingStepIsSafe(v, fr, v.toMove, tf == ff + 2);
        assert CanMoveFrom(v.board, v.ep, v.toMove, fr, 4);
      } else {
        assert CanMoveFrom(v.board, v.ep, v.toMove, fr, ff);
      }
    }
    if HasLegalMove(v.board, v.ep, v.toMove) {
      var fr, ff :| CanMoveFrom(v.board, v.ep, v.toMove, fr, ff);
      var tr, tf :| SafeMove(v.board, v.ep, v.toMove, fr, ff, tr, tf);
    }
  }

  lemma CastlingNeedsRight(v: Game, r: int, color: Color, kingside: bool)
    requires CastlingOk(v, r, color, kingside)
    ensures Right(v, color, kingside)
  {
  }
}
