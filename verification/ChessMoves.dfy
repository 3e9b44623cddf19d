/**
 What play keeps (src/chess.c:244-394): from the starting position on, castling is done by
 the king on file e with his own rook in the corner, an en passant capture takes the pawn
 that has just made its double step, and a castling right is there exactly as long as
 neither its king nor its rook has been touched.
 */
module ChessMoves {
  import opened ChessRules
  import opened ChessBoards
  import opened ChessCastling

  // ----- castling ---------------------------------------------------------------------------

  // In play, castling moves the two pieces from their home squares and nothing else, over
  // empty squares, with the king never attacked on his way.
  lemma CastlingIsFromHome(turns: seq<Turn>, m: Turn)
    requires var v := Play(Start, turns);
             Accepted(v, m.fr, m.ff, m.tr, m.tf) && Castling(v.board, m.fr, m.ff, m.tf)
    ensures var v, u := Play(Start, turns), Play(Start, turns + [m]);
            var home, kingside := HomeRank(v.toMove), m.tf > m.ff;
            && m == Turn(home, 4, home, if kingside then 6 else 2)
            && Is(At(v.board, home, 4), King, v.toMove)
            && Is(At(v.board, home, if kingside then 7 else 0), Rook, v.toMove)
            && (forall f | (if kingside then 4 else 0) < f < (if kingside then 7 else 4) :: Vacant(At(v.board, home, f)))
            && (forall f | (if kingside then 4 else 2) <= f <= (if kingside then 6 else 4) :: !Attacked(v.board, home, f, Other(v.toMove)))
            && forall r, f | InBounds(r, f) ::
                 At(u.board, r, f) == if r != home then At(v.board, r, f)
                                      else if f == (if kingside then 6 else 2) then Piece(King, v.toMove)
                                      else if f == (if kingside then 5 else 3) then Piece(Rook, v.toMove)
                                      else if f == 4 || f == (if kingside then 7 else 0) then Empty
                                      else At(v.board, r, f)
  {
    var v := Play(Start, turns);
    PlayKeeps(turns, v.toMove);
    PlayNext(turns, m);
    hide Play, At, Attacked, Played;
    CastlesFromHome(v, m);
    AcceptedMeans(v, m.fr, m.ff, m.tr, m.tf);
    PlayedLeaves(v, m.fr, m.ff, m.tr, m.tf);
  }

  lemma PlayNext(turns: seq<Turn>, m: Turn)
    ensures Play(Start, turns + [m]) == Try(Play(Start, turns), m)
  {
    assert (turns + [m])[..|turns|] == turns;
  }

  lemma CastlesFromHome(v: Game, m: Turn)
    requires AtHome(v, v.toMove) && Accepted(v, m.fr, m.ff, m.tr, m.tf) && Castling(v.board, m.fr, m.ff, m.tf)
    ensures var home, kingside := HomeRank(v.toMove), m.tf > m.ff;
            && m == Turn(home, 4, home, if kingside then 6 else 2)
            && Is(At(v.board, home, 4), King, v.toMove)
            && Is(At(v.board, home, if kingside then 7 else 0), Rook, v.toMove)
            && (forall f | (if kingside then 4 else 0) < f < (if kingside then 7 else 4) :: Vacant(At(v.board, home, f)))
            && (forall f | (if kingside then 4 else 2) <= f <= (if kingside then 6 else 4) :: !Attacked(v.board, home, f, Other(v.toMove)))
  {
    hide Attacked, Open;
    assert Castles(v, m.fr, m.ff, m.tr, m.tf);
    assert Right(v, v.toMove, m.tf == m.ff + 2);
    forall f | (if m.tf > m.ff then 4 else 0) < f < (if m.tf > m.ff then 7 else 4) ensures Vacant(At(v.board, m.fr, f)) {
      assert f in Between(m.tf == m.ff + 2);
    }
    forall f | (if m.tf > m.ff then 4 else 2) <= f <= (if m.tf > m.ff then 6 else 4)
      ensures !Attacked(v.board, m.fr, f, Other(v.toMove))
    {
      assert f in KingsWay(m.tf == m.ff + 2);
    }
  }

  // ----- en passant --------------------------------------------------------------------------

  // The file is that of a pawn of the side that has just moved, which came two ranks.
  ghost predicate FreshStep(v: Game) {
    v.ep == -1
    || (0 <= v.ep < 8
        && var r := PassantRank(v.toMove);
           Is(At(v.board, r - Forward(v.toMove), v.ep), Pawn, Other(v.toMove))
           && Vacant(At(v.board, r, v.ep)) && Vacant(At(v.board, r + Forward(v.toMove), v.ep)))
  }

  lemma TryFresh(v: Game, m: Turn)
    requires FreshStep(v)
    ensures FreshStep(Try(v, m))
  {
    if Accepted(v, m.fr, m.ff, m.tr, m.tf) {
      AcceptedMeans(v, m.fr, m.ff, m.tr, m.tf);
      PlayedLeaves(v, m.fr, m.ff, m.tr, m.tf);
      if At(v.board, m.fr, m.ff).kind == Pawn && (m.tr == m.fr + 2 || m.tr == m.fr - 2) { DoubleStep(v, m); }
      hide Accepted, Played;
    }
  }

  lemma DoubleStep(v: Game, m: Turn)
    requires Accepted(v, m.fr, m.ff, m.tr, m.tf)
    requires At(v.board, m.fr, m.ff).kind == Pawn && (m.tr == m.fr + 2 || m.tr == m.fr - 2)
    ensures m.fr == PawnRank(v.toMove) && m.tr == m.fr + 2 * Forward(v.toMove) && m.tf == m.ff
    ensures Vacant(At(v.board, m.fr + Forward(v.toMove), m.ff)) && Own(At(v.board, m.fr, m.ff), v.toMove)
  {
    hide CastlingOk, Open;
  }

  lemma {:induction false} PlayFresh(turns: seq<Turn>)
    ensures FreshStep(Play(Start, turns))
  {
    hide FreshStep, Try;
    if turns == [] {
      StartFresh();
    } else {
      PlayFresh(turns[..|turns| - 1]);
      TryFresh(Play(Start, turns[..|turns| - 1]), turns[|turns| - 1]);
    }
  }

  lemma StartFresh()
    ensures FreshStep(Start)
  {
  }

  // In play, an en passant capture changes three squares, and the pawn that it takes is the
  // one that has just come two ranks.
  lemma PassantTakesPawn(turns: seq<Turn>, m: Turn)
    requires var v := Play(Start, turns);
             Accepted(v, m.fr, m.ff, m.tr, m.tf) && Passant(v.board, m.fr, m.ff, m.tr, m.tf)
    ensures var v, u := Play(Start, turns), Play(Start, turns + [m]);
            && m.tf == v.ep && m.tr == PassantRank(v.toMove) && m.fr == m.tr - Forward(v.toMove)
            && Is(At(v.board, m.fr, m.tf), Pawn, Other(v.toMove))
            && forall r, f | InBounds(r, f) ::
                 At(u.board, r, f) == if r == m.tr && f == m.tf then Piece(Pawn, v.toMove)
                                      else if r == m.fr && (f == m.ff || f == m.tf) then Empty
                                      else At(v.board, r, f)
  {
    var v := Play(Start, turns);
    PlayFresh(turns);
    PlayNext(turns, m);
    hide Play, At, Attacked, Played;
    PassantStep(v, m);
    AcceptedMeans(v, m.fr, m.ff, m.tr, m.tf);
    PlayedLeaves(v, m.fr, m.ff, m.tr, m.tf);
  }

  lemma PassantStep(v: Game, m: Turn)
    requires FreshStep(v) && Accepted(v, m.fr, m.ff, m.tr, m.tf) && Passant(v.board, m.fr, m.ff, m.tr, m.tf)
    ensures At(v.board, m.fr, m.ff) == Piece(Pawn, v.toMove)
    ensures m.tf == v.ep && m.tr == PassantRank(v.toMove) && m.fr == m.tr - Forward(v.toMove)
    ensures Is(At(v.board, m.fr, m.tf), Pawn, Other(v.toMove))
  {
    hide CastlingOk, Open;
  }

  // ----- castling rights -----------------------------------------------------------------------

  function Corner(kingside: bool): int { if kingside then 7 else 0 }

  ghost predicate RooksAtHome(v: Game) {
    forall color, kingside | Right(v, color, kingside) ::
      Is(At(v.board, HomeRank(color), Corner(kingside)), Rook, color)
  }

  // The move is made, and touches the king or the corner.
  ghost predicate Touches(v: Game, color: Color, kingside: bool, m: Turn) {
    && Accepted(v, m.fr, m.ff, m.tr, m.tf)
    && (|| Is(At(v.board, m.fr, m.ff), King, color)
        || (m.fr == HomeRank(color) && m.ff == Corner(kingside))
        || (m.tr == HomeRank(color) && m.tf == Corner(kingside)))
  }

  lemma TryRights(v: Game, m: Turn, color: Color, kingside: bool)
    requires RooksAtHome(v)
    ensures Right(Try(v, m), color, kingside) <==> Right(v, color, kingside) && !Touches(v, color, kingside, m)
  {
    hide Accepted, Played, LeavesSquares;
    if Accepted(v, m.fr, m.ff, m.tr, m.tf) {
      AcceptedMeans(v, m.fr, m.ff, m.tr, m.tf);
      PlayedLeaves(v, m.fr, m.ff, m.tr, m.tf);
    }
  }

  // A corner that no move touches keeps its rook.
  lemma CornerStays(v: Game, m: Turn, color: Color, kingside: bool)
    requires AtHome(v, v.toMove) && Accepted(v, m.fr, m.ff, m.tr, m.tf) && !Touches(v, color, kingside, m)
    ensures At(Try(v, m).board, HomeRank(color), Corner(kingside)) == At(v.board, HomeRank(color), Corner(kingside))
  {
    AcceptedMeans(v, m.fr, m.ff, m.tr, m.tf);
    PlayedLeaves(v, m.fr, m.ff, m.tr, m.tf);
    hide AtHome, Played, At;
    if Castling(v.board, m.fr, m.ff, m.tf) {
      CastlesFromHome(v, m);
    } else if Passant(v.board, m.fr, m.ff, m.tr, m.tf) {
      PassantRanks(v, m);
    }
    hide Accepted;
  }

  lemma PassantRanks(v: Game, m: Turn)
    requires Accepted(v, m.fr, m.ff, m.tr, m.tf) && Passant(v.board, m.fr, m.ff, m.tr, m.tf)
    ensures m.fr == 3 || m.fr == 4
  {
    hide CastlingOk, Open;
  }

  lemma TryRooks(v: Game, m: Turn)
    requires AtHome(v, v.toMove) && RooksAtHome(v)
    ensures RooksAtHome(Try(v, m))
  {
    hide Accepted, Played, Right;
    if Accepted(v, m.fr, m.ff, m.tr, m.tf) {
      forall color, kingside | Right(Try(v, m), color, kingside)
        ensures Is(At(Try(v, m).board, HomeRank(color), Corner(kingside)), Rook, color)
      {
        TryRights(v, m, color, kingside);
        CornerStays(v, m, color, kingside);
      }
    }
  }

  lemma {:induction false} PlayRooks(turns: seq<Turn>)
    ensures RooksAtHome(Play(Start, turns))
  {
    hide RooksAtHome, Try, AtHome;
    if turns == [] {
      StartRooks();
    } else {
      var v := Play(Start, turns[..|turns| - 1]);
      PlayRooks(turns[..|turns| - 1]);
      PlayKeeps(turns[..|turns| - 1], v.toMove);
      TryRooks(v, turns[|turns| - 1]);
    }
  }

  lemma StartRooks()
    ensures RooksAtHome(Start)
  {
    forall color, kingside ensures Is(At(Start.board, HomeRank(color), Corner(kingside)), Rook, color) {
      var r, f := HomeRank(color), Corner(kingside);
      assert (8 * r + f) / 8 == r && (8 * r + f) % 8 == f;
      assert At(StartBoard, r, f) == StartPiece(r, f);
    }
  }

  // A side holds the castling right of a wing exactly as long as its king has not moved and
  // no move has left or entered the corner of that wing.
  lemma {:induction false} RightsAreHistory(turns: seq<Turn>, color: Color, kingside: bool)
    ensures Right(Play(Start, turns), color, kingside)
            <==> forall i | 0 <= i < |turns| :: !Touches(Play(Start, turns[..i]), color, kingside, turns[i])
  {
    hide Try, Touches, RooksAtHome, Right;
    if turns == [] {
      StartRights(color, kingside);
    } else {
      var n := |turns| - 1;
      RightsAreHistory(turns[..n], color, kingside);
      PlayRooks(turns[..n]);
      TryRights(Play(Start, turns[..n]), turns[n], color, kingside);
      assert forall i | 0 <= i < n :: turns[..n][..i] == turns[..i] && turns[..n][i] == turns[i];
    }
  }

  lemma StartRights(color: Color, kingside: bool)
    ensures Right(Start, color, kingside)
  {
  }
}
