/**
 struct TTChess (src/chess.c, src/chess.h:34-53): the engine's own loops, proved
 against the rules. The checkmate generator (HasAnyLegalMove) and the move validator
 (IsPseudoLegal) encode piece movement independently; both meet the same predicate.
 */
module ChessBoards {
  import opened ChessRules

  datatype Status = Playing | Checkmate | Stalemate | Resigned

  datatype Game = Game(
    board: Board, toMove: Color, whiteKs: bool, whiteQs: bool, blackKs: bool, blackQs: bool,
    ep: int, status: Status, winner: Color)

  const KnightJumps: seq<(int, int)> := [(-2, -1), (-2, 1), (2, -1), (2, 1), (-1, -2), (-1, 2), (1, -2), (1, 2)]
  const StraightDirs: seq<(int, int)> := [(1, 0), (-1, 0), (0, 1), (0, -1)]
  const DiagonalDirs: seq<(int, int)> := [(1, 1), (1, -1), (-1, 1), (-1, -1)]

  lemma KnightJumpsAre(dr: int, df: int)
    ensures KnightStep(dr, df) <==> exists i :: 0 <= i < 8 && KnightJumps[i] == (dr, df)
  {
    if KnightStep(dr, df) {
      var i := if dr == -2 then (if df == -1 then 0 else 1) else if dr == 2 then (if df == -1 then 2 else 3)
               else if dr == -1 then (if df == -2 then 4 else 5) else (if df == -2 then 6 else 7);
      assert KnightJumps[i] == (dr, df);
    }
  }

  lemma DirsAre(dr: int, df: int)
    ensures Straight(dr, df) <==> exists i :: 0 <= i < 4 && StraightDirs[i] == (dr, df)
    ensures Diagonal(dr, df) <==> exists i :: 0 <= i < 4 && DiagonalDirs[i] == (dr, df)
  {
    if Straight(dr, df) {
      assert StraightDirs[if dr == 1 then 0 else if dr == -1 then 1 else if df == 1 then 2 else 3] == (dr, df);
    }
    if Diagonal(dr, df) {
      assert DiagonalDirs[if dr == 1 then (if df == 1 then 0 else 1) else (if df == 1 then 2 else 3)] == (dr, df);
    }
  }

  // A line that has left the board does not come back.
  lemma OffBoardStays(r: int, f: int, dr: int, df: int, k: int, j: int)
    requires InBounds(r, f) && Unit(dr, df) && 1 <= k <= j
    requires !InBounds(Along(r, dr, k), Along(f, df, k))
    ensures !InBounds(Along(r, dr, j), Along(f, df, j))
  {
  }

  // The first piece on a line decides whether the line attacks.
  lemma FirstDecides(b: Board, r: int, f: int, side: Color, dr: int, df: int, k: int)
    requires InBounds(r, f) && Unit(dr, df) && k >= 1 && Open(b, r, f, dr, df, k)
    requires !InBounds(Along(r, dr, k), Along(f, df, k)) || !Vacant(OnLine(b, r, f, dr, df, k))
    ensures Seen(b, r, f, side, dr, df) <==> SeenFrom(b, r, f, side, dr, df, k)
  {
    forall j | SeenFrom(b, r, f, side, dr, df, j) ensures j == k {
      if j > k && !InBounds(Along(r, dr, k), Along(f, df, k)) { OffBoardStays(r, f, dr, df, k, j); }
    }
  }

  lemma KingFound(b: Board, color: Color, r: int, f: int)
    requires InBounds(r, f) && Is(At(b, r, f), King, color)
    requires forall j | 0 <= j < 8 * r + f :: !Is(b[j], King, color)
    ensures InCheck(b, color) == Attacked(b, r, f, Other(color))
  {
    var k := FindKing(b, color, 0);
    hide Attacked, FindKing;
    assert k == 8 * r + f;
    assert k / 8 == r && k % 8 == f;
  }

  lemma NoKing(b: Board, color: Color)
    requires forall j | 0 <= j < 64 :: !Is(b[j], King, color)
    ensures !InCheck(b, color)
  {
    hide Attacked;
  }

  const BackRank: seq<Kind> := [Rook, Knight, Bishop, Queen, King, Bishop, Knight, Rook]

  function StartPiece(r: nat, f: nat): Piece
    requires f < 8
  {
    if r == 0 then Piece(BackRank[f], White) else if r == 1 then Piece(Pawn, White)
    else if r == 6 then Piece(Pawn, Black) else if r == 7 then Piece(BackRank[f], Black)
    else Empty
  }

  const StartBoard: Board := seq(64, i requires 0 <= i < 64 => StartPiece(i / 8, i % 8))

  const Start := Game(StartBoard, White, true, true, true, true, -1, Playing, White)

  class TTChess {
    const board: array<Piece>
    var toMove: Color
    var whiteKs: bool
    var whiteQs: bool
    var blackKs: bool
    var blackQs: bool
    var epFile: int
    var status: Status
    var winner: Color

    ghost predicate Valid() { board.Length == 64 }

    ghost function View(): Game
      requires Valid()
      reads this, board
    {
      Game(board[..], toMove, whiteKs, whiteQs, blackKs, blackQs, epFile, status, winner)
    }

    function Get(r: int, f: int): (p: Piece)
      requires Valid() && InBounds(r, f)
      reads board
      ensures p == At(board[..], r, f)
    {
      board[8 * r + f]
    }

    method Set(r: int, f: int, p: Piece)
      requires Valid() && InBounds(r, f)
      modifies board
      ensures board[..] == Put(old(board[..]), r, f, p)
    {
      board[8 * r + f] := p;
    }

    // tt_chess_init
    constructor ()
      ensures Valid() && fresh(board) && View() == Start
    {
      toMove, epFile, status, winner := White, -1, Playing, White;
      whiteKs, whiteQs, blackKs, blackQs := true, true, true, true;
      board := new Piece[64](i => Empty);
      new;
      for f := 0 to 8
        invariant Valid() && fresh(board) && View() == Start.(board := board[..])
        invariant forall i | 0 <= i < 64 :: board[i] == if i % 8 < f then StartPiece(i / 8, i % 8) else Empty
      {
        Set(0, f, Piece(BackRank[f], White));
        Set(1, f, Piece(Pawn, White));
        Set(6, f, Piece(Pawn, Black));
        Set(7, f, Piece(BackRank[f], Black));
      }
      assert board[..] == StartBoard;
    }

    // The struct assignment `tmp = *g`.
    constructor Copy(g: TTChess)
      requires g.Valid()
      ensures Valid() && View() == g.View() && fresh(board)
    {
      toMove, whiteKs, whiteQs, blackKs, blackQs := g.toMove, g.whiteKs, g.whiteQs, g.blackKs, g.blackQs;
      epFile, status, winner := g.epFile, g.status, g.winner;
      board := new Piece[64](i requires 0 <= i < 64 && g.Valid() reads g.board => g.board[i]);
      new;
      assert board[..] == g.board[..];
    }

    // ----- attacks ------------------------------------------------------------------------

    // One line of tt_chess_square_attacked: the first piece on it decides.
    method LineAttacked(r: int, f: int, side: Color, dr: int, df: int) returns (hit: bool)
      requires Valid() && InBounds(r, f) && Unit(dr, df)
      ensures hit == Seen(board[..], r, f, side, dr, df)
    {
      ghost var b := board[..];
      var r', f' := r + dr, f + df;
      ghost var k := 1;
      while InBounds(r', f')
        invariant k >= 1 && r' == Along(r, dr, k) && f' == Along(f, df, k)
        invariant Open(b, r, f, dr, df, k)
        decreases 8 - k
      {
        var p := Get(r', f');
        if p.kind != NoPiece {
          FirstDecides(b, r, f, side, dr, df, k);
          return p.color == side
              && (p.kind == Queen || p.kind == (if dr == 0 || df == 0 then Rook else Bishop));
        }
        r', f', k := r' + dr, f' + df, k + 1;
      }
      FirstDecides(b, r, f, side, dr, df, k);
      return false;
    }

    method SquareAttacked(r: int, f: int, side: Color) returns (hit: bool)
      requires Valid() && InBounds(r, f)
      ensures hit == Attacked(board[..], r, f, side)
    {
      ghost var b := board[..];
      var pr := if side == White then r - 1 else r + 1;
      if InBounds(pr, f - 1) && Get(pr, f - 1).kind == Pawn && Get(pr, f - 1).color == side { return true; }
      if InBounds(pr, f + 1) && Get(pr, f + 1).kind == Pawn && Get(pr, f + 1).color == side { return true; }
      assert !PawnAttacks(b, r, f, side);

      hit := KnightAttacked(r, f, side);
      if hit { return true; }
      hit := KingAttacked(r, f, side);
      if hit { return true; }
      hit := AnyLineAttacked(r, f, side);
    }

    method KnightAttacked(r: int, f: int, side: Color) returns (hit: bool)
      requires Valid()
      ensures hit == KnightAttacks(board[..], r, f, side)
    {
      ghost var b := board[..];
      for i := 0 to 8
        invariant forall j | 0 <= j < i :: !Is(At(b, r + KnightJumps[j].0, f + KnightJumps[j].1), Knight, side)
      {
        var r', f' := r + KnightJumps[i].0, f + KnightJumps[i].1;
        if InBounds(r', f') && Get(r', f').kind == Knight && Get(r', f').color == side {
          KnightJumpsAre(KnightJumps[i].0, KnightJumps[i].1);
          return true;
        }
      }
      forall dr, df | KnightStep(dr, df) ensures !Is(At(b, r + dr, f + df), Knight, side) {
        KnightJumpsAre(dr, df);
      }
      return false;
    }

    method KingAttacked(r: int, f: int, side: Color) returns (hit: bool)
      requires Valid()
      ensures hit == KingAttacks(board[..], r, f, side)
    {
      ghost var b := board[..];
      for dr := -1 to 2
        invariant forall d, e | Unit(d, e) && d < dr :: !Is(At(b, r + d, f + e), King, side)
      {
        for df := -1 to 2
          invariant forall d, e | Unit(d, e) && (d < dr || (d == dr && e < df)) :: !Is(At(b, r + d, f + e), King, side)
        {
          if dr == 0 && df == 0 { continue; }
          var r', f' := r + dr, f + df;
          if InBounds(r', f') && Get(r', f').kind == King && Get(r', f').color == side {
            assert Unit(dr, df) && Is(At(b, r + dr, f + df), King, side);
            return true;
          }
        }
      }
      return false;
    }

    method AnyLineAttacked(r: int, f: int, side: Color) returns (hit: bool)
      requires Valid() && InBounds(r, f)
      ensures hit == LineAttacks(board[..], r, f, side)
    {
      ghost var b := board[..];
      for i := 0 to 4
        invariant forall j | 0 <= j < i :: !Seen(b, r, f, side, StraightDirs[j].0, StraightDirs[j].1)
      {
        hit := LineAttacked(r, f, side, StraightDirs[i].0, StraightDirs[i].1);
        if hit { return true; }
      }
      for i := 0 to 4
        invariant forall j | 0 <= j < i :: !Seen(b, r, f, side, DiagonalDirs[j].0, DiagonalDirs[j].1)
      {
        hit := LineAttacked(r, f, side, DiagonalDirs[i].0, DiagonalDirs[i].1);
        if hit { return true; }
      }
      forall dr, df | Unit(dr, df) ensures !Seen(b, r, f, side, dr, df) {
        DirsAre(dr, df);
      }
      return false;
    }

    // ----- check --------------------------------------------------------------------------

    method IsInCheck(color: Color) returns (check: bool)
      requires Valid()
      ensures check == InCheck(board[..], color)
    {
      hide Attacked, InCheck, FindKing;
      ghost var b := board[..];
      for r := 0 to 8
        invariant forall j | 0 <= j < 8 * r :: !Is(b[j], King, color)
      {
        for f := 0 to 8
          invariant forall j | 0 <= j < 8 * r + f :: !Is(b[j], King, color)
        {
          if Get(r, f).kind == King && Get(r, f).color == color {
            KingFound(b, color, r, f);
            check := SquareAttacked(r, f, Other(color));
            return;
          }
        }
      }
      NoKing(b, color);
      return false;
    }

    // move_leaves_self_in_check
    method LeavesSelfInCheck(fr: int, ff: int, tr: int, tf: int) returns (check: bool)
      requires Valid() && InBounds(fr, ff) && InBounds(tr, tf)
      ensures check == !Safe(board[..], fr, ff, tr, tf)
    {
      hide InCheck;
      var tmp := new TTChess.Copy(this);
      tmp.Set(tr, tf, tmp.Get(fr, ff));
      tmp.Set(fr, ff, Empty);
      assert tmp.board[..] == Moved(board[..], fr, ff, tr, tf);
      check := tmp.IsInCheck(tmp.Get(tr, tf).color);
    }

    // ----- the generator --------------------------------------------------------------------

    // has_any_legal_move: does any piece of the colour have a safe move?
    method HasAnyLegalMove(color: Color) returns (found: bool)
      requires Valid()
      ensures found == HasLegalMove(board[..], epFile, color)
    {
      hide SafeMove;
      ghost var b := board[..];
      for fr := 0 to 8
        invariant forall r, f | InBounds(r, f) && r < fr :: !CanMoveFrom(b, epFile, color, r, f)
      {
        for ff := 0 to 8
          invariant forall r, f | InBounds(r, f) && (r < fr || (r == fr && f < ff)) :: !CanMoveFrom(b, epFile, color, r, f)
        {
          found := MoveFrom(fr, ff, color);
          if found { return; }
        }
      }
      forall r, f ensures !CanMoveFrom(b, epFile, color, r, f) {
        OnlyFromBoard(b, epFile, color, r, f);
      }
      return false;
    }

    // The body of its loop.
    method MoveFrom(fr: int, ff: int, color: Color) returns (found: bool)
      requires Valid() && InBounds(fr, ff)
      ensures found == CanMoveFrom(board[..], epFile, color, fr, ff)
    {
      var p := Get(fr, ff);
      if p.kind == NoPiece || p.color != color { return false; }
      hide PseudoLegal, Safe;
      if p.kind == Pawn {
        found := PawnHasMove(fr, ff, color);
      } else if p.kind == Knight {
        found := KnightHasMove(fr, ff, color);
      } else if p.kind == King {
        found := KingHasMove(fr, ff, color);
      } else {
        found := SliderHasMove(fr, ff, color);
      }
    }

    method PawnHasMove(fr: int, ff: int, color: Color) returns (found: bool)
      requires Valid() && InBounds(fr, ff) && Is(At(board[..], fr, ff), Pawn, color)
      ensures found == CanMoveFrom(board[..], epFile, color, fr, ff)
    {
      hide Safe;
      ghost var b := board[..];
      var dir := if color == White then 1 else -1;
      var start := if color == White then 1 else 6;
      var tr := fr + dir;
      if InBounds(tr, ff) && Get(tr, ff).kind == NoPiece {
        var check := LeavesSelfInCheck(fr, ff, tr, ff);
        if !check {
          assert SafeMove(b, epFile, color, fr, ff, tr, ff);
          return true;
        }
        if fr == start {
          var tr2 := fr + 2 * dir;
          if Get(tr2, ff).kind == NoPiece {
            check := LeavesSelfInCheck(fr, ff, tr2, ff);
            if !check {
              assert SafeMove(b, epFile, color, fr, ff, tr2, ff);
              return true;
            }
          }
        }
      }
      assert forall r :: !SafeMove(b, epFile, color, fr, ff, r, ff);
      var df := -1;
      while df <= 1
        invariant df == -1 || df == 1 || df == 3
        invariant df >= 1 ==> !SafeMove(b, epFile, color, fr, ff, tr, ff - 1)
        invariant df >= 3 ==> !SafeMove(b, epFile, color, fr, ff, tr, ff + 1)
        decreases 3 - df
      {
        found := PawnTakes(fr, ff, color, tr, ff + df);
        if found { return; }
        df := df + 2;
      }
      PawnMovesAre(b, epFile, color, fr, ff);
      return false;
    }

    // A pawn's step to a neighbouring file: a capture or en passant.
    method PawnTakes(fr: int, ff: int, color: Color, tr: int, tf: int) returns (found: bool)
      requires Valid() && InBounds(fr, ff) && Is(At(board[..], fr, ff), Pawn, color)
      requires tr == fr + Forward(color) && (tf == ff - 1 || tf == ff + 1)
      ensures found == SafeMove(board[..], epFile, color, fr, ff, tr, tf)
    {
      hide Safe;
      if !InBounds(tr, tf) { return false; }
      var t := Get(tr, tf);
      if t.kind != NoPiece && t.color != color {
        var check := LeavesSelfInCheck(fr, ff, tr, tf);
        return !check;
      } else if t.kind == NoPiece && tf == epFile && tr == (if color == White then 5 else 2) {
        var check := LeavesSelfInCheck(fr, ff, tr, tf);
        return !check;
      }
      return false;
    }

    // One step of a knight or a king.
    method StepIsSafe(fr: int, ff: int, color: Color, tr: int, tf: int) returns (safe: bool)
      requires Valid() && InBounds(fr, ff) && Own(At(board[..], fr, ff), color)
      requires Reaches(board[..], epFile, fr, ff, tr, tf)
      ensures safe == SafeMove(board[..], epFile, color, fr, ff, tr, tf)
    {
      hide Safe, Reaches;
      if !InBounds(tr, tf) { return false; }
      var t := Get(tr, tf);
      if t.kind != NoPiece && t.color == color { return false; }
      var check := LeavesSelfInCheck(fr, ff, tr, tf);
      return !check;
    }

    method KnightHasMove(fr: int, ff: int, color: Color) returns (found: bool)
      requires Valid() && InBounds(fr, ff) && Is(At(board[..], fr, ff), Knight, color)
      ensures found == CanMoveFrom(board[..], epFile, color, fr, ff)
    {
      hide Safe;
      ghost var b := board[..];
      for i := 0 to 8
        invariant forall j | 0 <= j < i :: !SafeMove(b, epFile, color, fr, ff, fr + KnightJumps[j].0, ff + KnightJumps[j].1)
      {
        KnightJumpsAre(KnightJumps[i].0, KnightJumps[i].1);
        found := StepIsSafe(fr, ff, color, fr + KnightJumps[i].0, ff + KnightJumps[i].1);
        if found { return; }
      }
      forall tr, tf ensures !SafeMove(b, epFile, color, fr, ff, tr, tf) {
        KnightJumpsAre(tr - fr, tf - ff);
      }
      return false;
    }

    method KingHasMove(fr: int, ff: int, color: Color) returns (found: bool)
      requires Valid() && InBounds(fr, ff) && Is(At(board[..], fr, ff), King, color)
      ensures found == CanMoveFrom(board[..], epFile, color, fr, ff)
    {
      hide Safe;
      ghost var b := board[..];
      for dr := -1 to 2
        invariant forall tr, tf | tr - fr < dr :: !SafeMove(b, epFile, color, fr, ff, tr, tf)
      {
        for df := -1 to 2
          invariant forall tr, tf | tr - fr < dr || (tr - fr == dr && tf - ff < df) :: !SafeMove(b, epFile, color, fr, ff, tr, tf)
        {
          if dr == 0 && df == 0 { continue; }
          found := StepIsSafe(fr, ff, color, fr + dr, ff + df);
          if found { return; }
        }
      }
      return false;
    }

    // One line of a sliding piece: up to and including the first piece that is not ours.
    method LineHasMove(fr: int, ff: int, color: Color, dr: int, df: int) returns (found: bool)
      requires Valid() && InBounds(fr, ff) && Unit(dr, df)
      ensures found == LineSafe(board[..], fr, ff, color, dr, df)
    {
      hide Safe;
      ghost var b := board[..];
      var tr, tf := fr + dr, ff + df;
      ghost var k := 1;
      while InBounds(tr, tf)
        invariant k >= 1 && tr == Along(fr, dr, k) && tf == Along(ff, df, k)
        invariant Open(b, fr, ff, dr, df, k)
        invariant forall j | 1 <= j < k :: !SafeAt(b, fr, ff, color, dr, df, j)
        decreases 8 - k
      {
        var t := Get(tr, tf);
        if t.kind != NoPiece && t.color == color { break; }
        var check := LeavesSelfInCheck(fr, ff, tr, tf);
        if !check {
          assert SafeAt(b, fr, ff, color, dr, df, k);
          return true;
        }
        if t.kind != NoPiece { break; }
        tr, tf, k := tr + dr, tf + df, k + 1;
      }
      NothingBeyond(b, fr, ff, color, dr, df, k);
      return false;
    }

    method SliderHasMove(fr: int, ff: int, color: Color) returns (found: bool)
      requires Valid() && InBounds(fr, ff) && Own(At(board[..], fr, ff), color)
      requires At(board[..], fr, ff).kind in {Rook, Bishop, Queen}
      ensures found == CanMoveFrom(board[..], epFile, color, fr, ff)
    {
      hide CanMoveFrom, LineSafe;
      ghost var b := board[..];
      var kind := Get(fr, ff).kind;
      if kind == Queen {
        found := LinesHaveMove(fr, ff, color, DiagonalDirs);
        if found {
          SomeLine(b, epFile, color, fr, ff);
          return;
        }
      }
      found := LinesHaveMove(fr, ff, color, if kind == Bishop then DiagonalDirs else StraightDirs);
      SomeLine(b, epFile, color, fr, ff);
    }

    method LinesHaveMove(fr: int, ff: int, color: Color, dirs: seq<(int, int)>) returns (found: bool)
      requires Valid() && InBounds(fr, ff) && (dirs == StraightDirs || dirs == DiagonalDirs)
      ensures found == exists dr, df | (if dirs == StraightDirs then Straight(dr, df) else Diagonal(dr, df)) ::
                         LineSafe(board[..], fr, ff, color, dr, df)
    {
      hide LineSafe;
      ghost var b := board[..];
      for i := 0 to 4
        invariant forall j | 0 <= j < i :: !LineSafe(b, fr, ff, color, dirs[j].0, dirs[j].1)
      {
        DirsAre(dirs[i].0, dirs[i].1);
        found := LineHasMove(fr, ff, color, dirs[i].0, dirs[i].1);
        if found { return; }
      }
      forall dr, df | (if dirs == StraightDirs then Straight(dr, df) else Diagonal(dr, df))
        ensures !LineSafe(b, fr, ff, color, dr, df)
      {
        DirsAre(dr, df);
      }
      return false;
    }

    // ----- the validator --------------------------------------------------------------------

    // The legality half of tt_chess_move, castling aside.
    method IsPseudoLegal(fr: int, ff: int, tr: int, tf: int) returns (legal: bool)
      requires Valid() && InBounds(fr, ff) && InBounds(tr, tf)
      requires Own(Get(fr, ff), toMove) && !Own(Get(tr, tf), toMove)
      ensures legal == PseudoLegal(board[..], epFile, toMove, fr, ff, tr, tf)
    {
      hide LineReaches;
      var p, t := Get(fr, ff), Get(tr, tf);
      var dr, df := tr - fr, tf - ff;
      legal := false;
      if p.kind == Pawn {
        var dir := if p.color == White then 1 else -1;
        var start := if p.color == White then 1 else 6;
        if df == 0 && t.kind == NoPiece {
          if dr == dir {
            legal := true;
          } else if dr == 2 * dir && fr == start && Get(fr + dir, ff).kind == NoPiece {
            legal := true;
          }
        } else if df == 1 || df == -1 {
          if dr == dir {
            if t.kind != NoPiece {
              legal := true;
            } else if tr == (if p.color == White then 5 else 2) && tf == epFile {
              legal := true;
            }
          }
        }
      } else if p.kind == Knight {
        legal := (dr == 2 && df == 1) || (dr == 2 && df == -1) || (dr == -2 && df == 1) || (dr == -2 && df == -1)
              || (dr == 1 && df == 2) || (dr == 1 && df == -2) || (dr == -1 && df == 2) || (dr == -1 && df == -2);
      } else if p.kind == King {
        legal := dr >= -1 && dr <= 1 && df >= -1 && df <= 1 && (dr != 0 || df != 0);
      } else {
        legal := LineIsOpen(p.kind, fr, ff, tr, tf);
      }
    }

    // The path scan of a rook, bishop or queen.
    method LineIsOpen(kind: Kind, fr: int, ff: int, tr: int, tf: int) returns (legal: bool)
      requires Valid() && InBounds(fr, ff) && InBounds(tr, tf) && kind in {Rook, Bishop, Queen}
      ensures legal == LineReaches(board[..], kind, fr, ff, tr, tf)
    {
      ghost var b := board[..];
      var dr, df := tr - fr, tf - ff;
      var stepR, stepF := Sign(dr), Sign(df);
      var straight := (dr == 0) != (df == 0);
      var diag := dr != 0 && df != 0 && (dr == df || dr == -df);
      if !((kind == Rook && straight) || (kind == Bishop && diag) || (kind == Queen && (straight || diag))) {
        NotOnLine(b, kind, fr, ff, tr, tf);
        return false;
      }
      ghost var n := if dr != 0 then dr * stepR else df * stepF;
      var r, f := fr + stepR, ff + stepF;
      ghost var k := 1;
      while r != tr || f != tf
        invariant 1 <= k <= n && r == Along(fr, stepR, k) && f == Along(ff, stepF, k)
        invariant Open(b, fr, ff, stepR, stepF, k)
        decreases n - k
      {
        if Get(r, f).kind != NoPiece {
          OnlyWay(b, kind, fr, ff, tr, tf, stepR, stepF, n);
          assert !Vacant(OnLine(b, fr, ff, stepR, stepF, k));
          return false;
        }
        r, f, k := r + stepR, f + stepF, k + 1;
      }
      OnlyWay(b, kind, fr, ff, tr, tf, stepR, stepF, n);
      return true;
    }

    // One of the two castling tests: every square between king and rook is empty, the rook
    // is ours, and the king's way is not attacked.
    method CastlingTest(r: int, color: Color, kingside: bool) returns (legal: bool)
      requires Valid() && 0 <= r < 8
      ensures legal == CastlingOk(View(), r, color, kingside)
    {
      hide Attacked;
      var right := if kingside then (if color == White then whiteKs else blackKs)
                               else (if color == White then whiteQs else blackQs);
      if !right { return false; }
      if kingside {
        if Get(r, 5).kind != NoPiece || Get(r, 6).kind != NoPiece { return false; }
      } else {
        if Get(r, 1).kind != NoPiece || Get(r, 2).kind != NoPiece || Get(r, 3).kind != NoPiece { return false; }
      }
      var rook := Get(r, if kingside then 7 else 0);
      if rook.kind != Rook || rook.color != color { return false; }
      var hit := SquareAttacked(r, 4, Other(color));
      if hit { return false; }
      hit := SquareAttacked(r, if kingside then 5 else 3, Other(color));
      if hit { return false; }
      hit := SquareAttacked(r, if kingside then 6 else 2, Other(color));
      return !hit;
    }

    // ----- making a move --------------------------------------------------------------------

    method IsLegal(fr: int, ff: int, tr: int, tf: int) returns (legal: bool)
      requires Valid()
      ensures legal == Accepted(View(), fr, ff, tr, tf)
    {
      hide Reaches, CastlingOk;
      if !InBounds(fr, ff) || !InBounds(tr, tf) { return false; }
      var p := Get(fr, ff);
      if p.kind == NoPiece || p.color != toMove { return false; }
      var t := Get(tr, tf);
      if t.kind != NoPiece && t.color == p.color { return false; }
      legal := IsPseudoLegal(fr, ff, tr, tf);
      if !legal && p.kind == King && tr == fr && (tf == ff + 2 || tf == ff - 2) {
        legal := CastlingTest(fr, p.color, tf == ff + 2);
      }
    }

    // tt_chess_move
    method Move(fr: int, ff: int, tr: int, tf: int) returns (ok: bool)
      requires Valid()
      modifies this, board
      ensures Valid()
      ensures ok == Accepted(old(View()), fr, ff, tr, tf)
      ensures View() == if ok then Played(old(View()), fr, ff, tr, tf) else old(View())
      ensures ok ==> Leaves(old(View()), View(), fr, ff, tr, tf) && Verdict(old(View()), View())
    {
      hide Accepted, Judged, Turned, Leaves, Verdict;
      ghost var v := View();
      ok := IsLegal(fr, ff, tr, tf);
      if !ok { return; }
      AcceptedMeans(View(), fr, ff, tr, tf);
      var mover := Get(fr, ff).color;
      MakeMove(fr, ff, tr, tf);
      Judge(mover);
      PlayedLeaves(v, fr, ff, tr, tf);
      PlayedJudged(v, fr, ff, tr, tf);
    }

    method MakeMove(fr: int, ff: int, tr: int, tf: int)
      requires Valid() && InBounds(fr, ff) && InBounds(tr, tf)
      modifies this, board
      ensures View() == Turned(old(View()), fr, ff, tr, tf)
    {
      hide BoardAfter, RightsAfter;
      var p, t := Get(fr, ff), Get(tr, tf);
      ghost var v := View();
      MovePieces(fr, ff, tr, tf);
      epFile := if p.kind == Pawn && tr - fr == 2 * Forward(p.color) then ff else -1;
      assert View() == v.(board := board[..], ep := epFile);
      RightsOnly(v, board[..], epFile, p, t, fr, ff, tr, tf);
      UpdateRights(p, t, fr, ff, tr, tf);
      toMove := Other(toMove);
    }

    method Judge(mover: Color)
      requires Valid()
      modifies this`status, this`winner
      ensures View() == Judged(old(View()), mover)
    {
      hide InCheck, HasLegalMove;
      var other := Other(mover);
      var check := IsInCheck(other);
      var any := HasAnyLegalMove(other);
      if check {
        if !any { status, winner := Checkmate, mover; }
      } else if !any {
        status := Stalemate;
      }
    }

    method MovePieces(fr: int, ff: int, tr: int, tf: int)
      requires Valid() && InBounds(fr, ff) && InBounds(tr, tf)
      modifies board
      ensures board[..] == BoardAfter(old(board[..]), fr, ff, tr, tf)
    {
      var p, t, df := Get(fr, ff), Get(tr, tf), tf - ff;
      if p.kind == King && df == 2 {
        Set(fr, 5, Get(fr, 7));
        Set(fr, 7, Empty);
      } else if p.kind == King && df == -2 {
        Set(fr, 3, Get(fr, 0));
        Set(fr, 0, Empty);
      }
      if p.kind == Pawn && df != 0 && t.kind == NoPiece {
        Set(fr, tf, Empty);
      }
      Set(tr, tf, if p.kind == Pawn && (tr == 0 || tr == 7) then Piece(Queen, p.color) else p);
      Set(fr, ff, Empty);
    }

    method UpdateRights(p: Piece, t: Piece, fr: int, ff: int, tr: int, tf: int)
      requires Valid()
      modifies this`whiteKs, this`whiteQs, this`blackKs, this`blackQs
      ensures View() == RightsAfter(old(View()), p, t, fr, ff, tr, tf)
    {
      if p.kind == King {
        if p.color == White { whiteKs, whiteQs := false, false; } else { blackKs, blackQs := false, false; }
      }
      if p.kind == Rook { LeaveCorner(fr, ff); }
      if t.kind == Rook { LeaveCorner(tr, tf); }
    }

    // A rook has moved from, or was taken on, (r, f).
    method LeaveCorner(r: int, f: int)
      requires Valid()
      modifies this`whiteKs, this`whiteQs, this`blackKs, this`blackQs
      ensures View() == CornerLeft(old(View()), r, f)
    {
      if r == 0 && f == 0 { whiteQs := false; }
      if r == 0 && f == 7 { whiteKs := false; }
      if r == 7 && f == 0 { blackQs := false; }
      if r == 7 && f == 7 { blackKs := false; }
    }
  }

  // ----- what a move does ---------------------------------------------------------------------

  predicate Right(v: Game, color: Color, kingside: bool) {
    if kingside then (if color == White then v.whiteKs else v.blackKs) else (if color == White then v.whiteQs else v.blackQs)
  }

  // The squares that a castling test wants empty, and those it wants not attacked.
  function Between(kingside: bool): set<int> { if kingside then {5, 6} else {1, 2, 3} }

  function KingsWay(kingside: bool): set<int> { if kingside then {4, 5, 6} else {4, 3, 2} }

  ghost predicate CastlingOk(v: Game, r: int, color: Color, kingside: bool) {
    && Right(v, color, kingside)
    && (forall f | f in Between(kingside) :: Vacant(At(v.board, r, f)))
    && Is(At(v.board, r, if kingside then 7 else 0), Rook, color)
    && (forall f | f in KingsWay(kingside) :: !Attacked(v.board, r, f, Other(color)))
  }

  ghost predicate Castles(v: Game, fr: int, ff: int, tr: int, tf: int) {
    && InBounds(fr, ff) && InBounds(tr, tf)
    && Is(At(v.board, fr, ff), King, v.toMove) && !Own(At(v.board, tr, tf), v.toMove)
    && tr == fr && (tf == ff + 2 || tf == ff - 2) && CastlingOk(v, fr, v.toMove, tf == ff + 2)
  }

  ghost predicate Accepted(v: Game, fr: int, ff: int, tr: int, tf: int) {
    PseudoLegal(v.board, v.ep, v.toMove, fr, ff, tr, tf) || Castles(v, fr, ff, tr, tf)
  }

  lemma AcceptedMeans(v: Game, fr: int, ff: int, tr: int, tf: int)
    requires Accepted(v, fr, ff, tr, tf)
    ensures InBounds(fr, ff) && InBounds(tr, tf) && Own(At(v.board, fr, ff), v.toMove)
  {
  }

  function BoardAfter(b: Board, fr: int, ff: int, tr: int, tf: int): Board
    requires InBounds(fr, ff) && InBounds(tr, tf)
  {
    var p, t, df := At(b, fr, ff), At(b, tr, tf), tf - ff;
    var b1 := if p.kind == King && df == 2 then Put(Put(b, fr, 5, At(b, fr, 7)), fr, 7, Empty)
              else if p.kind == King && df == -2 then Put(Put(b, fr, 3, At(b, fr, 0)), fr, 0, Empty)
              else b;
    var b2 := if p.kind == Pawn && df != 0 && Vacant(t) then Put(b1, fr, tf, Empty) else b1;
    var moved := if p.kind == Pawn && (tr == 0 || tr == 7) then Piece(Queen, p.color) else p;
    Put(Put(b2, tr, tf, moved), fr, ff, Empty)
  }

  // A castling right is lost when its king moves, or its rook leaves home or is taken there.
  predicate Loses(color: Color, rook: int, p: Piece, t: Piece, fr: int, ff: int, tr: int, tf: int) {
    || Is(p, King, color)
    || (p.kind == Rook && fr == HomeRank(color) && ff == rook)
    || (t.kind == Rook && tr == HomeRank(color) && tf == rook)
  }

  function CornerLeft(v: Game, r: int, f: int): Game {
    v.(whiteKs := v.whiteKs && !(r == 0 && f == 7), whiteQs := v.whiteQs && !(r == 0 && f == 0),
       blackKs := v.blackKs && !(r == 7 && f == 7), blackQs := v.blackQs && !(r == 7 && f == 0))
  }

  function RightsAfter(v: Game, p: Piece, t: Piece, fr: int, ff: int, tr: int, tf: int): Game {
    v.(whiteKs := v.whiteKs && !Loses(White, 7, p, t, fr, ff, tr, tf),
       whiteQs := v.whiteQs && !Loses(White, 0, p, t, fr, ff, tr, tf),
       blackKs := v.blackKs && !Loses(Black, 7, p, t, fr, ff, tr, tf),
       blackQs := v.blackQs && !Loses(Black, 0, p, t, fr, ff, tr, tf))
  }

  lemma RightsOnly(v: Game, b: Board, ep: int, p: Piece, t: Piece, fr: int, ff: int, tr: int, tf: int)
    ensures RightsAfter(v.(board := b, ep := ep), p, t, fr, ff, tr, tf) == RightsAfter(v, p, t, fr, ff, tr, tf).(board := b, ep := ep)
    ensures RightsAfter(v, p, t, fr, ff, tr, tf).toMove == v.toMove
  {
  }

  function HomeRank(color: Color): int { if color == White then 0 else 7 }

  function Turned(v: Game, fr: int, ff: int, tr: int, tf: int): Game
    requires InBounds(fr, ff) && InBounds(tr, tf)
  {
    var p, t := At(v.board, fr, ff), At(v.board, tr, tf);
    var ep := if p.kind == Pawn && tr - fr == 2 * Forward(p.color) then ff else -1;
    RightsAfter(v, p, t, fr, ff, tr, tf).(board := BoardAfter(v.board, fr, ff, tr, tf), ep := ep, toMove := Other(v.toMove))
  }

  ghost function Played(v: Game, fr: int, ff: int, tr: int, tf: int): Game
    requires InBounds(fr, ff) && InBounds(tr, tf)
  {
    Judged(Turned(v, fr, ff, tr, tf), At(v.board, fr, ff).color)
  }

  // The verdict on the side to move.
  ghost function Judged(u: Game, mover: Color): Game {
    if HasLegalMove(u.board, u.ep, Other(mover)) then u
    else if InCheck(u.board, Other(mover)) then u.(status := Checkmate, winner := mover)
    else u.(status := Stalemate)
  }

  // ----- what a move leaves, by its kind ------------------------------------------------------

  // The king goes two files, and the rook of that corner to the square that he skips.
  predicate Castling(b: Board, fr: int, ff: int, tf: int) {
    At(b, fr, ff).kind == King && (tf == ff + 2 || tf == ff - 2)
  }

  // A pawn goes askew to an empty square.
  predicate Passant(b: Board, fr: int, ff: int, tr: int, tf: int) {
    At(b, fr, ff).kind == Pawn && tf != ff && Vacant(At(b, tr, tf))
  }

  predicate Promotion(b: Board, fr: int, ff: int, tr: int) {
    At(b, fr, ff).kind == Pawn && (tr == 0 || tr == 7)
  }

  // All 64 squares of the board c that the move leaves on b. (In play the king castles from
  // file e only: ChessMoves.CastlingIsFromHome.)
  ghost predicate LeavesSquares(b: Board, c: Board, fr: int, ff: int, tr: int, tf: int) {
    if Castling(b, fr, ff, tf) then
      var corner := if tf > ff then 7 else 0;
      ff == 4 ==> forall r, f | InBounds(r, f) ::
        At(c, r, f) == if r != fr then At(b, r, f)
                       else if f == tf then At(b, fr, 4)
                       else if f == (4 + tf) / 2 then At(b, fr, corner)
                       else if f == 4 || f == corner then Empty
                       else At(b, r, f)
    else
      forall r, f | InBounds(r, f) ::
        At(c, r, f) == if r == tr && f == tf then
                         (if Promotion(b, fr, ff, tr) then Piece(Queen, At(b, fr, ff).color) else At(b, fr, ff))
                       else if r == fr && f == ff then Empty
                       else if Passant(b, fr, ff, tr, tf) && r == fr && f == tf then Empty
                       else At(b, r, f)
  }

  // The king of the colour has moved, or a rook has left the corner or was taken there.
  predicate Spoils(b: Board, color: Color, kingside: bool, fr: int, ff: int, tr: int, tf: int) {
    var r, f := HomeRank(color), if kingside then 7 else 0;
    || Is(At(b, fr, ff), King, color)
    || (At(b, r, f).kind == Rook && ((fr == r && ff == f) || (tr == r && tf == f)))
  }

  ghost predicate Leaves(v: Game, u: Game, fr: int, ff: int, tr: int, tf: int) {
    && LeavesSquares(v.board, u.board, fr, ff, tr, tf)
    && u.toMove == Other(v.toMove)
    && u.ep == (if At(v.board, fr, ff).kind == Pawn && (tr == fr + 2 || tr == fr - 2) then ff else -1)
    && (forall color, kingside ::
          Right(u, color, kingside) <==> Right(v, color, kingside) && !Spoils(v.board, color, kingside, fr, ff, tr, tf))
  }

  lemma PlayedLeaves(v: Game, fr: int, ff: int, tr: int, tf: int)
    requires Accepted(v, fr, ff, tr, tf) && InBounds(fr, ff) && InBounds(tr, tf)
    ensures Leaves(v, Played(v, fr, ff, tr, tf), fr, ff, tr, tf)
  {
    hide Accepted, HasLegalMove, InCheck, BoardAfter, LeavesSquares, Right, Spoils, RightsAfter;
    AcceptedDistance(v, fr, ff, tr, tf);
    BoardLeaves(v.board, fr, ff, tr, tf);
    var u := Played(v, fr, ff, tr, tf);
    forall color, kingside
      ensures Right(u, color, kingside) <==> Right(v, color, kingside) && !Spoils(v.board, color, kingside, fr, ff, tr, tf)
    {
      RightsLeave(v, color, kingside, fr, ff, tr, tf);
      SameRights(RightsAfter(v, At(v.board, fr, ff), At(v.board, tr, tf), fr, ff, tr, tf), u, color, kingside);
    }
  }

  // The game goes on if the side to move has a move; without one it has lost if it is in
  // check, and nobody has if not.
  ghost predicate Verdict(v: Game, u: Game) {
    var any, check := HasLegalMove(u.board, u.ep, u.toMove), InCheck(u.board, u.toMove);
    && u.status == (if any then v.status else if check then Checkmate else Stalemate)
    && u.winner == (if !any && check then v.toMove else v.winner)
  }

  lemma PlayedJudged(v: Game, fr: int, ff: int, tr: int, tf: int)
    requires Accepted(v, fr, ff, tr, tf) && InBounds(fr, ff) && InBounds(tr, tf)
    ensures Verdict(v, Played(v, fr, ff, tr, tf))
  {
    hide Accepted, Turned, Judged, Verdict, BoardAfter;
    AcceptedMeans(v, fr, ff, tr, tf);
    TurnedKeeps(v, fr, ff, tr, tf);
    JudgedMeans(v, Turned(v, fr, ff, tr, tf));
  }

  lemma TurnedKeeps(v: Game, fr: int, ff: int, tr: int, tf: int)
    requires InBounds(fr, ff) && InBounds(tr, tf)
    ensures var u := Turned(v, fr, ff, tr, tf); u.status == v.status && u.winner == v.winner && u.toMove == Other(v.toMove)
  {
    hide BoardAfter, At, Loses;
  }

  lemma JudgedMeans(v: Game, u: Game)
    requires u.status == v.status && u.winner == v.winner && u.toMove == Other(v.toMove)
    ensures Verdict(v, Judged(u, v.toMove))
  {
    hide HasLegalMove, InCheck;
  }

  lemma SameRights(v: Game, u: Game, color: Color, kingside: bool)
    requires v.whiteKs == u.whiteKs && v.whiteQs == u.whiteQs && v.blackKs == u.blackKs && v.blackQs == u.blackQs
    ensures Right(v, color, kingside) <==> Right(u, color, kingside)
  {
  }

  lemma RightsLeave(v: Game, color: Color, kingside: bool, fr: int, ff: int, tr: int, tf: int)
    requires InBounds(fr, ff) && InBounds(tr, tf)
    ensures Right(RightsAfter(v, At(v.board, fr, ff), At(v.board, tr, tf), fr, ff, tr, tf), color, kingside)
            <==> Right(v, color, kingside) && !Spoils(v.board, color, kingside, fr, ff, tr, tf)
  {
    hide At;
  }

  lemma BoardLeaves(b: Board, fr: int, ff: int, tr: int, tf: int)
    requires InBounds(fr, ff) && InBounds(tr, tf) && (fr != tr || ff != tf)
    requires Castling(b, fr, ff, tf) ==> tr == fr
    ensures LeavesSquares(b, BoardAfter(b, fr, ff, tr, tf), fr, ff, tr, tf)
  {
    hide At;
  }

  // An accepted move goes somewhere, sideways when it castles, and two ranks as a pawn only
  // forward.
  lemma AcceptedDistance(v: Game, fr: int, ff: int, tr: int, tf: int)
    requires Accepted(v, fr, ff, tr, tf)
    ensures fr != tr || ff != tf
    ensures Castling(v.board, fr, ff, tf) ==> tr == fr
    ensures var p := At(v.board, fr, ff);
            p.kind == Pawn && (tr == fr + 2 || tr == fr - 2) ==> tr - fr == 2 * Forward(p.color)
  {
    hide CastlingOk, Open;
  }

  // ----- what the validator relies on ---------------------------------------------------------

  function Sign(x: int): int { if x > 0 then 1 else if x < 0 then -1 else 0 }

  lemma NotOnLine(b: Board, kind: Kind, fr: int, ff: int, tr: int, tf: int)
    requires var dr, df := tr - fr, tf - ff;
             var straight, diag := (dr == 0) != (df == 0), dr != 0 && df != 0 && (dr == df || dr == -df);
             !((kind == Rook && straight) || (kind == Bishop && diag) || (kind == Queen && (straight || diag)))
    ensures !LineReaches(b, kind, fr, ff, tr, tf)
  {
    hide Open;
  }

  // There is only one direction and one distance from a square to another.
  lemma OnlyWay(b: Board, kind: Kind, fr: int, ff: int, tr: int, tf: int, dr: int, df: int, n: int)
    requires Lines(kind, dr, df) && n >= 1 && tr == Along(fr, dr, n) && tf == Along(ff, df, n)
    ensures LineReaches(b, kind, fr, ff, tr, tf) <==> Open(b, fr, ff, dr, df, n)
  {
    hide Open;
    if LineReaches(b, kind, fr, ff, tr, tf) {
      var d, e, k :| Lines(kind, d, e) && SlidesTo(b, fr, ff, tr, tf, d, e, k);
      assert d == dr && e == df && k == n;
    }
    if Open(b, fr, ff, dr, df, n) {
      assert SlidesTo(b, fr, ff, tr, tf, dr, df, n);
    }
  }

  // ----- what the generator relies on ---------------------------------------------------------

  lemma OnlyFromBoard(b: Board, ep: int, color: Color, r: int, f: int)
    ensures CanMoveFrom(b, ep, color, r, f) ==> InBounds(r, f) && Own(At(b, r, f), color)
  {
  }

  lemma PawnMovesAre(b: Board, ep: int, color: Color, fr: int, ff: int)
    requires Is(At(b, fr, ff), Pawn, color)
    requires forall r :: !SafeMove(b, ep, color, fr, ff, r, ff)
    requires !SafeMove(b, ep, color, fr, ff, fr + Forward(color), ff - 1)
    requires !SafeMove(b, ep, color, fr, ff, fr + Forward(color), ff + 1)
    ensures !CanMoveFrom(b, ep, color, fr, ff)
  {
    hide Safe;
  }

  // A slider may safely go k squares in a direction.
  ghost predicate SafeAt(b: Board, fr: int, ff: int, color: Color, dr: int, df: int, k: int) {
    var tr, tf := Along(fr, dr, k), Along(ff, df, k);
    k >= 1 && InBounds(tr, tf) && Open(b, fr, ff, dr, df, k) && !Own(At(b, tr, tf), color) && Safe(b, fr, ff, tr, tf)
  }

  ghost predicate LineSafe(b: Board, fr: int, ff: int, color: Color, dr: int, df: int) {
    exists k :: SafeAt(b, fr, ff, color, dr, df, k)
  }

  lemma NothingBeyond(b: Board, fr: int, ff: int, color: Color, dr: int, df: int, k: int)
    requires InBounds(fr, ff) && Unit(dr, df) && k >= 1
    requires forall j | 1 <= j < k :: !SafeAt(b, fr, ff, color, dr, df, j)
    requires !InBounds(Along(fr, dr, k), Along(ff, df, k))
             || (!Vacant(OnLine(b, fr, ff, dr, df, k)) && !SafeAt(b, fr, ff, color, dr, df, k))
    ensures !LineSafe(b, fr, ff, color, dr, df)
  {
    hide Safe;
    forall j ensures !SafeAt(b, fr, ff, color, dr, df, j) {
      if j >= k && !InBounds(Along(fr, dr, k), Along(ff, df, k)) { OffBoardStays(fr, ff, dr, df, k, j); }
    }
  }

  lemma SomeLine(b: Board, ep: int, color: Color, fr: int, ff: int)
    requires InBounds(fr, ff) && Own(At(b, fr, ff), color) && At(b, fr, ff).kind in {Rook, Bishop, Queen}
    ensures CanMoveFrom(b, ep, color, fr, ff)
            <==> exists dr, df | Lines(At(b, fr, ff).kind, dr, df) :: LineSafe(b, fr, ff, color, dr, df)
  {
    hide Safe;
    var kind := At(b, fr, ff).kind;
    if CanMoveFrom(b, ep, color, fr, ff) {
      var tr, tf :| SafeMove(b, ep, color, fr, ff, tr, tf);
      var dr, df, k :| Lines(kind, dr, df) && SlidesTo(b, fr, ff, tr, tf, dr, df, k);
      assert SafeAt(b, fr, ff, color, dr, df, k);
    }
    if exists dr, df | Lines(kind, dr, df) :: LineSafe(b, fr, ff, color, dr, df) {
      var dr, df :| Lines(kind, dr, df) && LineSafe(b, fr, ff, color, dr, df);
      var k :| SafeAt(b, fr, ff, color, dr, df, k);
      var tr, tf := Along(fr, dr, k), Along(ff, df, k);
      assert SlidesTo(b, fr, ff, tr, tf, dr, df, k);
      assert SafeMove(b, ep, color, fr, ff, tr, tf);
    }
  }
}
