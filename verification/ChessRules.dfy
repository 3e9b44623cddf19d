/**
 The rules that the chess engine encodes (src/chess.c), stated once and without loops:
 which squares are attacked, when a side is in check, and which moves a piece may make.
 Boards are 64 squares, rank by rank; a square off the board reads as empty.
 */
module ChessRules {

  datatype Kind = NoPiece | Pawn | Rook | Knight | Bishop | Queen | King
  datatype Color = White | Black
  datatype Piece = Piece(kind: Kind, color: Color)

  const Empty := Piece(NoPiece, White)

  type Board = b: seq<Piece> | |b| == 64 witness seq(64, _ => Empty)

  predicate InBounds(r: int, f: int) { 0 <= r < 8 && 0 <= f < 8 }

  function At(b: Board, r: int, f: int): Piece {
    if InBounds(r, f) then b[8 * r + f] else Empty
  }

  function Put(b: Board, r: int, f: int, p: Piece): (c: Board)
    requires InBounds(r, f)
    ensures forall r', f' :: At(c, r', f') == if r' == r && f' == f then p else At(b, r', f')
  {
    b[8 * r + f := p]
  }

  function Other(c: Color): Color { if c == White then Black else White }

  predicate Is(p: Piece, kind: Kind, color: Color) { p.kind == kind && p.color == color }

  predicate Own(p: Piece, color: Color) { p.kind != NoPiece && p.color == color }

  predicate Vacant(p: Piece) { p.kind == NoPiece }

  // ----- lines --------------------------------------------------------------------------------

  // The coordinate k steps from x in direction d.
  function Along(x: int, d: int, k: int): int {
    if d == 0 then x else if d > 0 then x + k else x - k
  }

  predicate Unit(dr: int, df: int) { -1 <= dr <= 1 && -1 <= df <= 1 && (dr != 0 || df != 0) }

  predicate Straight(dr: int, df: int) { Unit(dr, df) && (dr == 0 || df == 0) }

  predicate Diagonal(dr: int, df: int) { Unit(dr, df) && dr != 0 && df != 0 }

  // What stands on the k-th square from (r, f) in direction (dr, df).
  function OnLine(b: Board, r: int, f: int, dr: int, df: int, k: int): Piece {
    At(b, Along(r, dr, k), Along(f, df, k))
  }

  // The squares strictly between (r, f) and the k-th square in direction (dr, df) are empty.
  ghost predicate Open(b: Board, r: int, f: int, dr: int, df: int, k: int) {
    forall j | 1 <= j < k :: Vacant(OnLine(b, r, f, dr, df, j))
  }

  predicate Lines(kind: Kind, dr: int, df: int) {
    match kind
    case Rook => Straight(dr, df)
    case Bishop => Diagonal(dr, df)
    case Queen => Unit(dr, df)
    case _ => false
  }

  predicate KnightStep(dr: int, df: int) {
    ((dr == 2 || dr == -2) && (df == 1 || df == -1)) || ((dr == 1 || dr == -1) && (df == 2 || df == -2))
  }

  function Forward(c: Color): int { if c == White then 1 else -1 }

  function PawnRank(c: Color): int { if c == White then 1 else 6 }

  function PassantRank(c: Color): int { if c == White then 5 else 2 }

  // ----- attacks ------------------------------------------------------------------------------

  // A rook, bishop or queen of colour `side` sees (r, f) along the line that leaves it in
  // direction (dr, df), from k squares away.
  ghost predicate SeenFrom(b: Board, r: int, f: int, side: Color, dr: int, df: int, k: int) {
    && k >= 1 && Open(b, r, f, dr, df, k)
    && var p := OnLine(b, r, f, dr, df, k); p.color == side && Lines(p.kind, dr, df)
  }

  ghost predicate Seen(b: Board, r: int, f: int, side: Color, dr: int, df: int) {
    exists k :: SeenFrom(b, r, f, side, dr, df, k)
  }

  ghost predicate PawnAttacks(b: Board, r: int, f: int, side: Color) {
    Is(At(b, r - Forward(side), f - 1), Pawn, side) || Is(At(b, r - Forward(side), f + 1), Pawn, side)
  }

  ghost predicate KnightAttacks(b: Board, r: int, f: int, side: Color) {
    exists dr, df | KnightStep(dr, df) :: Is(At(b, r + dr, f + df), Knight, side)
  }

  ghost predicate KingAttacks(b: Board, r: int, f: int, side: Color) {
    exists dr, df | Unit(dr, df) :: Is(At(b, r + dr, f + df), King, side)
  }

  ghost predicate LineAttacks(b: Board, r: int, f: int, side: Color) {
    exists dr, df | Unit(dr, df) :: Seen(b, r, f, side, dr, df)
  }

  ghost predicate Attacked(b: Board, r: int, f: int, side: Color) {
    PawnAttacks(b, r, f, side) || KnightAttacks(b, r, f, side) || KingAttacks(b, r, f, side) || LineAttacks(b, r, f, side)
  }

  // ----- check --------------------------------------------------------------------------------

  // The first king of the colour from square i on, or 64.
  function FindKing(b: Board, color: Color, i: nat): (k: nat)
    requires i <= 64
    ensures i <= k <= 64
    ensures k < 64 ==> Is(b[k], King, color)
    ensures forall j | i <= j < k :: !Is(b[j], King, color)
    decreases 64 - i
  {
    if i == 64 || Is(b[i], King, color) then i else FindKing(b, color, i + 1)
  }

  ghost predicate InCheck(b: Board, color: Color) {
    var k := FindKing(b, color, 0);
    k < 64 && Attacked(b, k / 8, k % 8, Other(color))
  }

  // The board after the piece on (fr, ff) moved to (tr, tf).
  function Moved(b: Board, fr: int, ff: int, tr: int, tf: int): Board
    requires InBounds(fr, ff) && InBounds(tr, tf)
  {
    Put(Put(b, tr, tf, At(b, fr, ff)), fr, ff, Empty)
  }

  // The move, on a board where it moves that piece only, does not leave its own king in check.
  ghost predicate Safe(b: Board, fr: int, ff: int, tr: int, tf: int) {
    InBounds(fr, ff) && InBounds(tr, tf) ==>
      var m := Moved(b, fr, ff, tr, tf); !InCheck(m, At(m, tr, tf).color)
  }

  // ----- moves --------------------------------------------------------------------------------

  predicate PawnReaches(b: Board, ep: int, color: Color, fr: int, ff: int, tr: int, tf: int) {
    var up := Forward(color);
    if tf == ff then
      && Vacant(At(b, tr, tf))
      && (tr == fr + up || (tr == fr + 2 * up && fr == PawnRank(color) && Vacant(At(b, fr + up, ff))))
    else
      && (tf == ff + 1 || tf == ff - 1) && tr == fr + up
      && (!Vacant(At(b, tr, tf)) || (tr == PassantRank(color) && tf == ep))
  }

  ghost predicate SlidesTo(b: Board, fr: int, ff: int, tr: int, tf: int, dr: int, df: int, k: int) {
    k >= 1 && tr == Along(fr, dr, k) && tf == Along(ff, df, k) && Open(b, fr, ff, dr, df, k)
  }

  ghost predicate LineReaches(b: Board, kind: Kind, fr: int, ff: int, tr: int, tf: int) {
    exists dr, df, k | Lines(kind, dr, df) :: SlidesTo(b, fr, ff, tr, tf, dr, df, k)
  }

  // What the piece on (fr, ff) may do, castling and check aside.
  ghost predicate Reaches(b: Board, ep: int, fr: int, ff: int, tr: int, tf: int) {
    var p := At(b, fr, ff);
    match p.kind
    case NoPiece => false
    case Pawn => PawnReaches(b, ep, p.color, fr, ff, tr, tf)
    case Knight => KnightStep(tr - fr, tf - ff)
    case King => Unit(tr - fr, tf - ff)
    case _ => LineReaches(b, p.kind, fr, ff, tr, tf)
  }

  ghost predicate PseudoLegal(b: Board, ep: int, color: Color, fr: int, ff: int, tr: int, tf: int) {
    && InBounds(fr, ff) && InBounds(tr, tf)
    && Own(At(b, fr, ff), color) && !Own(At(b, tr, tf), color)
    && Reaches(b, ep, fr, ff, tr, tf)
  }

  ghost predicate SafeMove(b: Board, ep: int, color: Color, fr: int, ff: int, tr: int, tf: int) {
    PseudoLegal(b, ep, color, fr, ff, tr, tf) && Safe(b, fr, ff, tr, tf)
  }

  ghost predicate CanMoveFrom(b: Board, ep: int, color: Color, fr: int, ff: int) {
    exists tr, tf :: SafeMove(b, ep, color, fr, ff, tr, tf)
  }

  ghost predicate HasLegalMove(b: Board, ep: int, color: Color) {
    exists fr, ff :: CanMoveFrom(b, ep, color, fr, ff)
  }

  // ----- attack and capture -----------------------------------------------------------------

  lemma AlongBack(x: int, d: int, k: int, j: int)
    requires -1 <= d <= 1
    ensures Along(Along(x, d, k), -d, j) == Along(x, d, k - j)
  {
  }

  // A line is as open seen from either end.
  lemma OpenReversed(b: Board, r: int, f: int, dr: int, df: int, k: int)
    requires Unit(dr, df) && Open(b, r, f, dr, df, k)
    ensures Open(b, Along(r, dr, k), Along(f, df, k), -dr, -df, k)
  {
    var tr, tf, er, ef := Along(r, dr, k), Along(f, df, k), -dr, -df;
    forall j | 1 <= j < k ensures Vacant(OnLine(b, tr, tf, er, ef, j)) {
      AlongBack(r, dr, k, j);
      AlongBack(f, df, k, j);
      assert Vacant(OnLine(b, r, f, dr, df, k - j));
    }
  }

  // A square held by the other side is attacked exactly if some piece of colour `side` may
  // capture what stands there: the two encodings of movement agree.
  lemma AttackedIffCapturable(b: Board, ep: int, r: int, f: int, side: Color)
    requires InBounds(r, f) && Own(At(b, r, f), Other(side))
    ensures Attacked(b, r, f, side) <==> exists fr, ff :: PseudoLegal(b, ep, side, fr, ff, r, f)
  {
    if Attacked(b, r, f, side) {
      var fr, ff := AttackerCaptures(b, ep, r, f, side);
    }
    if exists fr, ff :: PseudoLegal(b, ep, side, fr, ff, r, f) {
      var fr, ff :| PseudoLegal(b, ep, side, fr, ff, r, f);
      CapturerAttacks(b, ep, r, f, side, fr, ff);
    }
  }

  lemma AttackerCaptures(b: Board, ep: int, r: int, f: int, side: Color) returns (fr: int, ff: int)
    requires InBounds(r, f) && Own(At(b, r, f), Other(side)) && Attacked(b, r, f, side)
    ensures PseudoLegal(b, ep, side, fr, ff, r, f)
  {
    if PawnAttacks(b, r, f, side) {
      fr := r - Forward(side);
      ff := if Is(At(b, fr, f - 1), Pawn, side) then f - 1 else f + 1;
    } else if KnightAttacks(b, r, f, side) {
      var dr, df :| KnightStep(dr, df) && Is(At(b, r + dr, f + df), Knight, side);
      fr, ff := r + dr, f + df;
    } else if KingAttacks(b, r, f, side) {
      var dr, df :| Unit(dr, df) && Is(At(b, r + dr, f + df), King, side);
      fr, ff := r + dr, f + df;
    } else {
      var dr, df :| Unit(dr, df) && Seen(b, r, f, side, dr, df);
      var k :| SeenFrom(b, r, f, side, dr, df, k);
      fr, ff := Along(r, dr, k), Along(f, df, k);
      OpenReversed(b, r, f, dr, df, k);
      AlongBack(r, dr, k, k);
      AlongBack(f, df, k, k);
      var p := At(b, fr, ff);
      assert Lines(p.kind, -dr, -df) && SlidesTo(b, fr, ff, r, f, -dr, -df, k);
    }
  }

  lemma CapturerAttacks(b: Board, ep: int, r: int, f: int, side: Color, fr: int, ff: int)
    requires InBounds(r, f) && Own(At(b, r, f), Other(side)) && PseudoLegal(b, ep, side, fr, ff, r, f)
    ensures Attacked(b, r, f, side)
  {
    var p := At(b, fr, ff);
    if p.kind == Pawn {
      assert fr == r - Forward(side) && (ff == f - 1 || ff == f + 1);
    } else if p.kind == Knight {
      assert KnightStep(fr - r, ff - f) && Is(At(b, r + (fr - r), f + (ff - f)), Knight, side);
    } else if p.kind == King {
      assert Unit(fr - r, ff - f) && Is(At(b, r + (fr - r), f + (ff - f)), King, side);
    } else {
      var dr, df, k :| Lines(p.kind, dr, df) && SlidesTo(b, fr, ff, r, f, dr, df, k);
      OpenReversed(b, fr, ff, dr, df, k);
      AlongBack(fr, dr, k, k);
      AlongBack(ff, df, k, k);
      assert SeenFrom(b, r, f, side, -dr, -df, k);
      assert Unit(-dr, -df) && Seen(b, r, f, side, -dr, -df);
    }
  }
}
