/**
 * The move rules of services/chessLogic.ts as functions: per-piece pseudo-legal
 * move generation, square-attack and check detection, and castling.
 *
 * Move generation, check detection and attack detection call each other: castling
 * generation asks whether the king is in check and whether the squares it crosses
 * are attacked, and both of those generate moves again with castling switched off.
 * The `includeCastling` flag breaks the cycle, which the `decreases` clauses below
 * make explicit.
 */
module MoveRules {
  import opened Wrappers
  import opened ChessTypes
  import opened Constants

  datatype Offset = Offset(dr: int, dc: int)

  function Shift(p: Pos, d: Offset): Pos
  {
    Pos(p.row + d.dr, p.col + d.dc)
  }

  const RookDirections: seq<Offset> := [Offset(0, 1), Offset(0, -1), Offset(1, 0), Offset(-1, 0)]
  const BishopDirections: seq<Offset> := [Offset(1, 1), Offset(1, -1), Offset(-1, 1), Offset(-1, -1)]
  const QueenDirections: seq<Offset> := RookDirections + BishopDirections
  const KnightOffsets: seq<Offset> :=
    [Offset(-2, -1), Offset(-2, 1), Offset(-1, -2), Offset(-1, 2),
     Offset(1, -2), Offset(1, 2), Offset(2, -1), Offset(2, 1)]
  const KingOffsets: seq<Offset> :=
    [Offset(-1, -1), Offset(-1, 0), Offset(-1, 1),
     Offset(0, -1), Offset(0, 1),
     Offset(1, -1), Offset(1, 0), Offset(1, 1)]
  /** The two diagonal columns a pawn captures on. */
  const CaptureOffsets: seq<int> := [-1, 1]

  /** A one-square step in one of the eight directions. */
  predicate IsUnit(d: Offset)
  {
    -1 <= d.dr <= 1 && -1 <= d.dc <= 1 && (d.dr != 0 || d.dc != 0)
  }

  predicate AllUnit(ds: seq<Offset>)
  {
    forall i :: 0 <= i < |ds| ==> IsUnit(ds[i])
  }

  /** Pawns of white move towards row 0, pawns of black towards row 7. */
  function Forward(c: Color): int
  {
    if c == White then -1 else 1
  }

  function StartRow(c: Color): int
  {
    if c == White then 6 else 1
  }

  function PromotionRow(c: Color): int
  {
    if c == White then 0 else 7
  }

  function Plain(from: Pos, to: Pos): Move
  {
    Move(from, to, None, false, false, None)
  }

  function Promote(from: Pos, to: Pos, k: Kind): Move
  {
    Move(from, to, Some(k), false, false, None)
  }

  function Castle(from: Pos, to: Pos): Move
  {
    Move(from, to, None, true, false, None)
  }

  function EnPassantCapture(from: Pos, to: Pos): Move
  {
    Move(from, to, None, false, true, None)
  }

  predicate UnmovedRookAt(b: Board, p: Pos)
  {
    PieceAt(b, p).Some? && PieceAt(b, p).value.kind == Rook && !PieceAt(b, p).value.hasMoved
  }

  predicate IsPawnOf(b: Board, p: Pos, c: Color)
  {
    PieceAt(b, p).Some? && PieceAt(b, p).value.kind == Pawn && PieceAt(b, p).value.color == c
  }

  predicate IsKingOf(b: Board, p: Pos, c: Color)
  {
    PieceAt(b, p).Some? && PieceAt(b, p).value.kind == King && PieceAt(b, p).value.color == c
  }

  // ---------------------------------------------------------------------------
  // What every generated move looks like
  // ---------------------------------------------------------------------------

  /**
   * A move from the piece on `pos` to an on-board square that does not hold a
   * piece of the mover's colour; a candidate move records no capture.
   */
  predicate Lands(b: Board, pos: Pos, m: Move)
  {
    PieceAt(b, pos).Some? && m.from == pos && OnBoard(m.to) && m.captured.None? &&
    !Owns(b, m.to, PieceAt(b, pos).value.color)
  }

  /** A castling move of an unmoved king towards an unmoved rook across empty squares. */
  predicate CastleShape(b: Board, pos: Pos, m: Move)
    requires PieceAt(b, pos).Some?
  {
    var k := PieceAt(b, pos).value;
    var row := pos.row;
    k.kind == King && !k.hasMoved && m.promotion.None? && m.to.row == row &&
    ((m.to.col == 6 && UnmovedRookAt(b, Pos(row, 7)) && IsEmpty(b, Pos(row, 5)) && IsEmpty(b, Pos(row, 6))) ||
     (m.to.col == 2 && UnmovedRookAt(b, Pos(row, 0)) && IsEmpty(b, Pos(row, 1)) &&
      IsEmpty(b, Pos(row, 2)) && IsEmpty(b, Pos(row, 3))))
  }

  /**
   * An en-passant capture: a pawn steps diagonally forward onto an empty square
   * whose column is that of the pawn that made the previous move, a two-row
   * advance that left it standing beside this pawn.
   */
  predicate EnPassantShape(b: Board, pos: Pos, last: Option<Move>, m: Move)
    requires PieceAt(b, pos).Some?
  {
    var p := PieceAt(b, pos).value;
    p.kind == Pawn && m.promotion.None? && !m.isCastling &&
    m.to.row == pos.row + Forward(p.color) && (m.to.col == pos.col - 1 || m.to.col == pos.col + 1) &&
    IsEmpty(b, m.to) && last.Some? && last.value.to == Pos(pos.row, m.to.col) &&
    Abs(last.value.from.row - last.value.to.row) == 2 &&
    PieceAt(b, last.value.to).Some? && PieceAt(b, last.value.to).value.kind == Pawn
  }

  /**
   * The shape of every pseudo-legal move: it lands legally; only a pawn promotes,
   * only to Q, R, B or N and only on its promotion row, and a pawn that reaches that
   * row by a push or a capture always promotes; castling and en passant have their shapes.
   */
  predicate Shaped(b: Board, pos: Pos, last: Option<Move>, m: Move)
  {
    Lands(b, pos, m) &&
    var p := PieceAt(b, pos).value;
    (m.promotion.Some? ==>
       p.kind == Pawn && m.promotion.value in PromotionPieces && !m.isEnPassant && !m.isCastling &&
       m.to.row == PromotionRow(p.color)) &&
    (p.kind == Pawn && !m.isEnPassant && m.to.row == PromotionRow(p.color) ==> m.promotion.Some?) &&
    (m.isCastling ==> !m.isEnPassant && CastleShape(b, pos, m)) &&
    (m.isEnPassant ==> EnPassantShape(b, pos, last, m))
  }

  /** A shaped move that is neither castling nor en passant; it does not depend on the previous move. */
  predicate QuietShaped(b: Board, pos: Pos, m: Move)
  {
    Lands(b, pos, m) && !m.isCastling && !m.isEnPassant &&
    var p := PieceAt(b, pos).value;
    (m.promotion.Some? ==> p.kind == Pawn && m.promotion.value in PromotionPieces && m.to.row == PromotionRow(p.color)) &&
    (p.kind == Pawn && m.to.row == PromotionRow(p.color) ==> m.promotion.Some?)
  }

  predicate AllShaped(b: Board, pos: Pos, last: Option<Move>, ms: seq<Move>)
  {
    forall i :: 0 <= i < |ms| ==> Shaped(b, pos, last, ms[i])
  }

  // ---------------------------------------------------------------------------
  // addMoveIfValid and the per-piece generators
  // ---------------------------------------------------------------------------

  /** The four promotion moves onto `to`, in PROMOTION_PIECES order. */
  function Promotions(from: Pos, to: Pos): (r: seq<Move>)
    ensures |r| == |PromotionPieces|
    ensures forall i :: 0 <= i < |r| ==> r[i] == Promote(from, to, PromotionPieces[i])
  {
    seq(|PromotionPieces|, i requires 0 <= i < |PromotionPieces| => Promote(from, to, PromotionPieces[i]))
  }

  /** A move onto `to`, expanded into the four promotions when `to` is on `promotionRank`. */
  function Expand(from: Pos, to: Pos, promotionRank: Option<int>): seq<Move>
  {
    if promotionRank == Some(to.row) then Promotions(from, to) else [Plain(from, to)]
  }

  /** The moves addMoveIfValid appends for one destination square. */
  function TargetMoves(b: Board, from: Pos, to: Pos, color: Color,
                       captureOk: bool, nonCaptureOk: bool, promotionRank: Option<int>): (r: seq<Move>)
    ensures r != [] <==> OnBoard(to) && (if IsEmpty(b, to) then nonCaptureOk else captureOk && !Owns(b, to, color))
    ensures forall i :: 0 <= i < |r| ==>
              r[i].from == from && r[i].to == to && OnBoard(to) && !Owns(b, to, color) &&
              r[i].captured.None? && !r[i].isCastling && !r[i].isEnPassant &&
              (r[i].promotion.Some? <==> promotionRank == Some(to.row)) &&
              (r[i].promotion.Some? ==> r[i].promotion.value in PromotionPieces)
  {
    if !OnBoard(to) then []
    else match PieceAt(b, to)
      case Some(target) => if captureOk && target.color != color then Expand(from, to, promotionRank) else []
      case None => if nonCaptureOk then Expand(from, to, promotionRank) else []
  }

  /** The forward pushes of a pawn: one step onto an empty square, two from its start row. */
  function PawnPushes(b: Board, pos: Pos, color: Color): (r: seq<Move>)
    requires IsPawnOf(b, pos, color)
    ensures forall i :: 0 <= i < |r| ==> QuietShaped(b, pos, r[i])
  {
    var one := Pos(pos.row + Forward(color), pos.col);
    if OnBoard(one) && IsEmpty(b, one) then
      TargetMoves(b, pos, one, color, false, true, Some(PromotionRow(color))) +
      (var two := Pos(pos.row + 2 * Forward(color), pos.col);
       if pos.row == StartRow(color) && OnBoard(two) && IsEmpty(b, two)
       then TargetMoves(b, pos, two, color, false, true, None)
       else [])
    else []
  }

  /** The capture of a pawn onto the forward diagonal at column offset `offset`. */
  function PawnCapture(b: Board, pos: Pos, color: Color, offset: int): (r: seq<Move>)
    requires IsPawnOf(b, pos, color)
    ensures forall i :: 0 <= i < |r| ==> QuietShaped(b, pos, r[i])
  {
    var t := Pos(pos.row + Forward(color), pos.col + offset);
    if OnBoard(t) && PieceAt(b, t).Some? && PieceAt(b, t).value.color != color
    then TargetMoves(b, pos, t, color, true, false, Some(PromotionRow(color)))
    else []
  }

  function PawnCaptures(b: Board, pos: Pos, color: Color, offsets: seq<int>): (r: seq<Move>)
    requires IsPawnOf(b, pos, color)
    ensures forall i :: 0 <= i < |r| ==> QuietShaped(b, pos, r[i])
  {
    if offsets == [] then []
    else PawnCaptures(b, pos, color, offsets[..|offsets| - 1]) + PawnCapture(b, pos, color, offsets[|offsets| - 1])
  }

  function Abs(x: int): nat
  {
    if x < 0 then -x else x
  }

  /**
   * The en-passant capture: the previous move advanced a pawn two rows and left it
   * beside this pawn; the capture lands on the empty square behind it.
   */
  function EnPassant(b: Board, pos: Pos, color: Color, last: Option<Move>): (r: seq<Move>)
    requires LastOk(last) && IsPawnOf(b, pos, color)
    ensures AllShaped(b, pos, last, r)
  {
    if last.None? then []
    else
      var lm := last.value;
      var victim := PieceAt(b, lm.to);
      if victim.Some? && victim.value.kind == Pawn && Abs(lm.from.row - lm.to.row) == 2 &&
         pos.row == lm.to.row && Abs(pos.col - lm.to.col) == 1
      then
        var t := Pos(pos.row + Forward(color), lm.to.col);
        if OnBoard(t) && IsEmpty(b, t) then [EnPassantCapture(pos, t)] else []
      else []
  }

  /** getPawnMoves: pushes, then the two diagonal captures, then en passant. */
  function PawnMoves(b: Board, pos: Pos, piece: Piece, last: Option<Move>): (r: seq<Move>)
    requires LastOk(last) && PieceAt(b, pos) == Some(piece) && piece.kind == Pawn
    ensures AllShaped(b, pos, last, r)
  {
    PawnPushes(b, pos, piece.color) + PawnCaptures(b, pos, piece.color, CaptureOffsets) +
    EnPassant(b, pos, piece.color, last)
  }

  /** How many more steps fit on the board from `p` in direction `d`. */
  function Room(p: Pos, d: Offset): nat
    requires OnBoard(p) && IsUnit(d)
  {
    if d.dr == 1 then 7 - p.row
    else if d.dr == -1 then p.row
    else if d.dc == 1 then 7 - p.col
    else p.col
  }

  /** The ray from `cur` (exclusive) in direction `d`, up to the edge or the first piece. */
  function Ray(b: Board, from: Pos, color: Color, d: Offset, cur: Pos): (r: seq<Move>)
    requires OnBoard(cur) && IsUnit(d)
    ensures forall i :: 0 <= i < |r| ==> r[i] == Plain(from, r[i].to) && OnBoard(r[i].to) && !Owns(b, r[i].to, color)
    decreases Room(cur, d)
  {
    var next := Shift(cur, d);
    if !OnBoard(next) then []
    else match PieceAt(b, next)
      case Some(target) => if target.color != color then [Plain(from, next)] else []
      case None => [Plain(from, next)] + Ray(b, from, color, d, next)
  }

  /** getSlidingMoves: the rays from `pos` in each direction, in order. */
  function SlidingMoves(b: Board, pos: Pos, color: Color, dirs: seq<Offset>): (r: seq<Move>)
    requires OnBoard(pos) && AllUnit(dirs)
    ensures forall i :: 0 <= i < |r| ==> r[i] == Plain(pos, r[i].to) && OnBoard(r[i].to) && !Owns(b, r[i].to, color)
  {
    if dirs == [] then []
    else SlidingMoves(b, pos, color, dirs[..|dirs| - 1]) + Ray(b, pos, color, dirs[|dirs| - 1], pos)
  }

  /** The one-step moves of a knight or king: addMoveIfValid for each offset, in order. */
  function OffsetMoves(b: Board, pos: Pos, color: Color, offsets: seq<Offset>): (r: seq<Move>)
    ensures forall i :: 0 <= i < |r| ==> r[i] == Plain(pos, r[i].to) && OnBoard(r[i].to) && !Owns(b, r[i].to, color)
  {
    if offsets == [] then []
    else OffsetMoves(b, pos, color, offsets[..|offsets| - 1]) +
         TargetMoves(b, pos, Shift(pos, offsets[|offsets| - 1]), color, true, true, None)
  }

  // ---------------------------------------------------------------------------
  // The recursive core: getPseudoLegalMovesForPiece, getKingMoves,
  // isKingInCheck and isSquareAttacked
  // ---------------------------------------------------------------------------

  /** getPseudoLegalMovesForPiece: dispatch on the kind of the piece on `pos`. */
  function PseudoLegalMoves(b: Board, pos: Pos, last: Option<Move>, rights: CastlingRights,
                            includeCastling: bool): (r: seq<Move>)
    requires LastOk(last)
    ensures PieceAt(b, pos).None? ==> r == []
    ensures AllShaped(b, pos, last, r)
    decreases (if includeCastling then 1 else 0), 3
  {
    match PieceAt(b, pos)
    case None => []
    case Some(piece) =>
      match piece.kind
      case Pawn => PawnMoves(b, pos, piece, last)
      case Rook => SlidingMoves(b, pos, piece.color, RookDirections)
      case Knight => OffsetMoves(b, pos, piece.color, KnightOffsets)
      case Bishop => SlidingMoves(b, pos, piece.color, BishopDirections)
      case Queen => SlidingMoves(b, pos, piece.color, QueenDirections)
      case King => KingMoves(b, pos, piece, last, rights, includeCastling)
  }

  /** getKingMoves: the eight steps, then castling when asked for, the king is unmoved and not in check. */
  function KingMoves(b: Board, pos: Pos, king: Piece, last: Option<Move>, rights: CastlingRights,
                     includeCastling: bool): (r: seq<Move>)
    requires LastOk(last) && PieceAt(b, pos) == Some(king) && king.kind == King
    ensures AllShaped(b, pos, last, r)
    decreases (if includeCastling then 1 else 0), 2
  {
    OffsetMoves(b, pos, king.color, KingOffsets) +
    (if includeCastling && !king.hasMoved && !KingInCheck(b, king.color, last, rights)
     then CastlingMoves(b, pos, king, last, rights)
     else [])
  }

  /** The castling block of getKingMoves: kingside first, then queenside. */
  function CastlingMoves(b: Board, pos: Pos, king: Piece, last: Option<Move>, rights: CastlingRights): (r: seq<Move>)
    requires LastOk(last) && PieceAt(b, pos) == Some(king) && king.kind == King && !king.hasMoved
    ensures AllShaped(b, pos, last, r)
    ensures forall i :: 0 <= i < |r| ==> r[i].isCastling
    decreases 1, 1
  {
    var side := if king.color == White then rights.white else rights.black;
    var row := pos.row;
    var opp := Opponent(king.color);
    (if side.kingSide && UnmovedRookAt(b, Pos(row, 7)) && IsEmpty(b, Pos(row, 5)) && IsEmpty(b, Pos(row, 6)) &&
        !SquareAttacked(b, Pos(row, 5), opp, last, rights) && !SquareAttacked(b, Pos(row, 6), opp, last, rights)
     then [Castle(pos, Pos(row, 6))]
     else []) +
    (if side.queenSide && UnmovedRookAt(b, Pos(row, 0)) && IsEmpty(b, Pos(row, 1)) &&
        IsEmpty(b, Pos(row, 2)) && IsEmpty(b, Pos(row, 3)) &&
        !SquareAttacked(b, Pos(row, 2), opp, last, rights) && !SquareAttacked(b, Pos(row, 3), opp, last, rights)
     then [Castle(pos, Pos(row, 2))]
     else [])
  }

  /** Some move in the list ends on `target` (the source's `moves.some(...)`). */
  predicate Hits(moves: seq<Move>, target: Pos)
  {
    exists i :: 0 <= i < |moves| && moves[i].to == target
  }

  /**
   * The piece on `sq` belongs to `attacker` and attacks `target`: a pawn attacks
   * its two forward diagonals (occupied or not), any other piece attacks the
   * destinations of its pseudo-legal moves without castling.
   */
  predicate AttacksFrom(b: Board, sq: Pos, target: Pos, attacker: Color, last: Option<Move>, rights: CastlingRights)
    requires LastOk(last)
    decreases 0, 4
  {
    match PieceAt(b, sq)
    case None => false
    case Some(p) =>
      p.color == attacker &&
      if p.kind == Pawn then
        target.row == sq.row + Forward(p.color) && (target.col == sq.col - 1 || target.col == sq.col + 1)
      else Hits(PseudoLegalMoves(b, sq, last, rights, false), target)
  }

  /** isSquareAttacked */
  predicate SquareAttacked(b: Board, target: Pos, attacker: Color, last: Option<Move>, rights: CastlingRights)
    requires LastOk(last)
    decreases 0, 6
  {
    exists r, c | 0 <= r < 8 && 0 <= c < 8 :: AttacksFrom(b, Pos(r, c), target, attacker, last, rights)
  }

  /** A piece of `attacker` on `sq` has a pseudo-legal move (castling excluded) to `target`. */
  predicate Threatens(b: Board, sq: Pos, target: Pos, attacker: Color, last: Option<Move>, rights: CastlingRights)
    requires LastOk(last)
    decreases 0, 4
  {
    Owns(b, sq, attacker) && Hits(PseudoLegalMoves(b, sq, last, rights, false), target)
  }

  /** Some piece of `attacker` has a pseudo-legal move (castling excluded) to `target`. */
  predicate Threatened(b: Board, target: Pos, attacker: Color, last: Option<Move>, rights: CastlingRights)
    requires LastOk(last)
    decreases 0, 5
  {
    exists r, c | 0 <= r < 8 && 0 <= c < 8 :: Threatens(b, Pos(r, c), target, attacker, last, rights)
  }

  /** isKingInCheck: the first king of `color` found is threatened by some opposing piece. */
  predicate KingInCheck(b: Board, color: Color, last: Option<Move>, rights: CastlingRights)
    requires LastOk(last)
    decreases 0, 6
  {
    match KingSquare(b, color)
    case None => false
    case Some(k) => Threatened(b, k, Opponent(color), last, rights)
  }

  // ---------------------------------------------------------------------------
  // findKing
  // ---------------------------------------------------------------------------

  /** Row-major order on squares. */
  predicate Before(p: Pos, q: Pos)
  {
    p.row < q.row || (p.row == q.row && p.col < q.col)
  }

  /** The first king of `color` at or after (r, c) in row-major order. */
  function KingSquareFrom(b: Board, color: Color, r: int, c: int): Option<Pos>
    requires 0 <= r <= 8 && 0 <= c <= 8
    decreases 8 - r, 8 - c
  {
    if r == 8 then None
    else if c == 8 then KingSquareFrom(b, color, r + 1, 0)
    else if IsKingOf(b, Pos(r, c), color) then Some(Pos(r, c))
    else KingSquareFrom(b, color, r, c + 1)
  }

  /** The scan from (r, c) finds a king at or after (r, c) with none between, or reports that there is none. */
  lemma {:induction false} KingSquareFromFirst(b: Board, color: Color, r: int, c: int)
    requires 0 <= r <= 8 && 0 <= c <= 8
    ensures var k := KingSquareFrom(b, color, r, c);
            (k.Some? ==> OnBoard(k.value) && IsKingOf(b, k.value, color) && !Before(k.value, Pos(r, c))) &&
            (k.Some? ==> forall q :: OnBoard(q) && !Before(q, Pos(r, c)) && Before(q, k.value) ==> !IsKingOf(b, q, color)) &&
            (k.None? ==> forall q :: OnBoard(q) && !Before(q, Pos(r, c)) ==> !IsKingOf(b, q, color))
    decreases 8 - r, 8 - c
  {
    if r == 8 {
    } else if c == 8 {
      KingSquareFromFirst(b, color, r + 1, 0);
    } else if !IsKingOf(b, Pos(r, c), color) {
      KingSquareFromFirst(b, color, r, c + 1);
    }
  }

  /** findKing: the first king of `color` in row-major order, if any. */
  function KingSquare(b: Board, color: Color): Option<Pos>
  {
    KingSquareFrom(b, color, 0, 0)
  }

  /** findKing finds a king of `color`, none comes before it, and it finds nothing only when there is no such king. */
  lemma KingSquareIsFirstKing(b: Board, color: Color)
    ensures var k := KingSquare(b, color);
            (k.None? <==> forall q :: OnBoard(q) ==> !IsKingOf(b, q, color)) &&
            (k.Some? ==> OnBoard(k.value) && IsKingOf(b, k.value, color) &&
                         forall q :: OnBoard(q) && Before(q, k.value) ==> !IsKingOf(b, q, color))
  {
    KingSquareFromFirst(b, color, 0, 0);
  }

  /** A king of `color` with no king of `color` before it in row-major order is the one findKing returns. */
  lemma FirstKingIsKingSquare(b: Board, color: Color, p: Pos)
    requires OnBoard(p) && IsKingOf(b, p, color)
    requires forall q :: OnBoard(q) && Before(q, p) ==> !IsKingOf(b, q, color)
    ensures KingSquare(b, color) == Some(p)
  {
    KingSquareIsFirstKing(b, color);
    var k := KingSquare(b, color).value;
    assert !Before(k, p) && !Before(p, k);
  }

  /** isKingInCheck is false for a colour that has no king on the board. */
  lemma NoKingNoCheck(b: Board, color: Color, last: Option<Move>, rights: CastlingRights)
    requires LastOk(last)
    requires forall q :: OnBoard(q) ==> !IsKingOf(b, q, color)
    ensures !KingInCheck(b, color, last, rights)
  {
    KingSquareIsFirstKing(b, color);
  }
}
