/**
 * Move application and reversal (applyMove, revertMove and
 * updateCastlingRightsForMove in services/chessLogic.ts), stated square by
 * square. The methods of module ChessLogic perform the same writes one after
 * another on a copy of the board and are proved to produce these boards.
 */
module Transition {
  import opened Wrappers
  import opened ChessTypes

  /** What applyMove returns: the new board, the recomputed rights and the executed move. */
  datatype Outcome = Outcome(board: Board, rights: CastlingRights, executed: Move)

  // ---------------------------------------------------------------------------
  // Castling rights
  // ---------------------------------------------------------------------------

  /** The home corner of the rook of `side` on the given wing. */
  function Corner(side: Color, kingSide: bool): Pos
  {
    Pos(if side == White then 7 else 0, if kingSide then 7 else 0)
  }

  /** The moved piece spares the flag: it is not that side's king, nor that side's rook leaving the flag's corner. */
  predicate MoverSpares(side: Color, kingSide: bool, m: Move, moved: Piece)
  {
    !(moved.kind == King && moved.color == side) &&
    !(moved.kind == Rook && moved.color == side && m.from == Corner(side, kingSide))
  }

  /** The capture spares the flag: no rook is taken on the flag's corner. */
  predicate CaptureSpares(side: Color, kingSide: bool, m: Move, rookTaken: bool)
  {
    !(rookTaken && m.to == Corner(side, kingSide))
  }

  function Flag(r: CastlingRights, side: Color, kingSide: bool): bool
  {
    var s := if side == White then r.white else r.black;
    if kingSide then s.kingSide else s.queenSide
  }

  /** Rights are determined by their four flags. */
  lemma SameRights(a: CastlingRights, b: CastlingRights)
    requires forall side, ks :: Flag(a, side, ks) == Flag(b, side, ks)
    ensures a == b
  {
    assert Flag(a, White, true) == Flag(b, White, true) && Flag(a, White, false) == Flag(b, White, false);
    assert Flag(a, Black, true) == Flag(b, Black, true) && Flag(a, Black, false) == Flag(b, Black, false);
  }

  /**
   * The rights updateCastlingRightsForMove computes from `current`: a flag stays
   * set unless that side's king moved, that side's rook left the flag's corner,
   * or a rook was captured on that corner.
   */
  function RightsAfter(current: CastlingRights, m: Move, moved: Piece, before: Board): (r: CastlingRights)
    requires OnBoard(m.to)
    ensures forall side, ks :: Flag(r, side, ks) ==
              (Flag(current, side, ks) && MoverSpares(side, ks, m, moved) &&
               CaptureSpares(side, ks, m, PieceAt(before, m.to).Some? && PieceAt(before, m.to).value.kind == Rook))
  {
    var rookTaken := PieceAt(before, m.to).Some? && PieceAt(before, m.to).value.kind == Rook;
    CastlingRights(
      SideRights(Flag(current, White, true) && MoverSpares(White, true, m, moved) && CaptureSpares(White, true, m, rookTaken),
                 Flag(current, White, false) && MoverSpares(White, false, m, moved) && CaptureSpares(White, false, m, rookTaken)),
      SideRights(Flag(current, Black, true) && MoverSpares(Black, true, m, moved) && CaptureSpares(Black, true, m, rookTaken),
                 Flag(current, Black, false) && MoverSpares(Black, false, m, moved) && CaptureSpares(Black, false, m, rookTaken)))
  }

  /**
   * The rights only ever lose flags; a king move clears both of its side's flags;
   * a rook leaving a home corner, or any rook captured on one, clears exactly that
   * corner's flag.
   */
  lemma RightsOnlyCleared(current: CastlingRights, m: Move, moved: Piece, before: Board)
    requires OnBoard(m.to)
    ensures forall side, ks :: Flag(RightsAfter(current, m, moved, before), side, ks) ==> Flag(current, side, ks)
    ensures moved.kind == King ==>
              !Flag(RightsAfter(current, m, moved, before), moved.color, true) &&
              !Flag(RightsAfter(current, m, moved, before), moved.color, false)
    ensures forall side, ks :: moved.kind == Rook && moved.color == side && m.from == Corner(side, ks) ==>
              !Flag(RightsAfter(current, m, moved, before), side, ks)
    ensures forall side, ks ::
              (PieceAt(before, m.to).Some? && PieceAt(before, m.to).value.kind == Rook && m.to == Corner(side, ks)) ==>
              !Flag(RightsAfter(current, m, moved, before), side, ks)
    ensures forall side, ks ::
              moved.kind != King && m.from != Corner(side, ks) && m.to != Corner(side, ks) ==>
              Flag(RightsAfter(current, m, moved, before), side, ks) == Flag(current, side, ks)
  {
  }

  // ---------------------------------------------------------------------------
  // applyMove
  // ---------------------------------------------------------------------------

  /** The square the en-passant victim stands on: the mover's row, the destination's column. */
  function EnPassantSquare(m: Move): Pos
  {
    Pos(m.from.row, m.to.col)
  }

  /** The rook's home column and destination column for a castling move. */
  function RookHome(m: Move): int
  {
    if m.to.col == 6 then 7 else 0
  }

  function RookDest(m: Move): int
  {
    if m.to.col == 6 then 5 else 3
  }

  /**
   * The board after the mover has left `from` and landed on `to` (promoted when a
   * pawn carries a promotion; the promoted piece takes the colour argument).
   */
  function Landed(b: Board, m: Move, color: Color, q: Pos): Square
    requires PieceAt(b, m.from).Some?
  {
    var p := PieceAt(b, m.from).value;
    if q == m.to && m.promotion.Some? && p.kind == Pawn then Some(Piece(m.promotion.value, color, true))
    else if q == m.from then None
    else if q == m.to then Some(p.(hasMoved := true))
    else PieceAt(b, q)
  }

  /** Then, for castling, whatever stands on the rook's home square moves to its destination. */
  function Castled(b: Board, m: Move, color: Color, q: Pos): Square
    requires PieceAt(b, m.from).Some?
  {
    if !m.isCastling then Landed(b, m, color, q)
    else
      var home := Pos(m.from.row, RookHome(m));
      var rook := Landed(b, m, color, home);
      if rook.Some? && q == home then None
      else if rook.Some? && q == Pos(m.from.row, RookDest(m)) then Some(rook.value.(hasMoved := true))
      else Landed(b, m, color, q)
  }

  /** Then, for en passant, the victim's square is emptied. */
  function AppliedCell(b: Board, m: Move, color: Color, q: Pos): Square
    requires PieceAt(b, m.from).Some?
  {
    if m.isEnPassant && q == EnPassantSquare(m) then None else Castled(b, m, color, q)
  }

  predicate Opposes(sq: Square, p: Piece)
  {
    sq.Some? && sq.value.color != p.color
  }

  /** The captured piece: the en-passant victim if it is an opposing piece, else an opposing piece on `to`. */
  function CapturedBy(b: Board, m: Move): Option<Piece>
    requires PieceAt(b, m.from).Some?
  {
    var p := PieceAt(b, m.from).value;
    if m.isEnPassant && Opposes(PieceAt(b, EnPassantSquare(m)), p) then PieceAt(b, EnPassantSquare(m))
    else if Opposes(PieceAt(b, m.to), p) then PieceAt(b, m.to)
    else None
  }

  /**
   * applyMove. Without a piece on `from` it returns the input board and the
   * initial rights. The rights are recomputed from the initial rights, not from
   * the caller's.
   */
  function AfterMove(b: Board, m: Move, color: Color): Outcome
    requires MoveOnBoard(m)
  {
    if PieceAt(b, m.from).None? then Outcome(b, InitialRights(), m)
    else
      Outcome(seq(8, r => seq(8, c => AppliedCell(b, m, color, Pos(r, c)))),
              RightsAfter(InitialRights(), m, PieceAt(b, m.from).value, b),
              m.(captured := CapturedBy(b, m)))
  }

  /** Without a mover the board comes back as it was; otherwise every square holds its applied cell. */
  lemma AfterMoveCells(b: Board, m: Move, color: Color)
    requires MoveOnBoard(m)
    ensures PieceAt(b, m.from).None? ==> AfterMove(b, m, color) == Outcome(b, InitialRights(), m)
    ensures PieceAt(b, m.from).Some? ==>
              forall q :: OnBoard(q) ==> PieceAt(AfterMove(b, m, color).board, q) == AppliedCell(b, m, color, q)
  {
  }

  // ---------------------------------------------------------------------------
  // revertMove
  // ---------------------------------------------------------------------------

  /** Step 1: the piece on `to` goes back to `from` (as a pawn if the move promoted) and `to` is cleared. */
  function Unmoved(a: Board, m: Move, q: Pos): Square
  {
    var moving := PieceAt(a, m.to);
    if moving.None? then PieceAt(a, q)
    else if q == m.to then None
    else if q == m.from then Some(if m.promotion.Some? then moving.value.(kind := Pawn) else moving.value)
    else PieceAt(a, q)
  }

  /** Step 2: a recorded capture is put back, on the en-passant square or on `to`. */
  function Restored(a: Board, m: Move, q: Pos): Square
  {
    if m.captured.None? then Unmoved(a, m, q)
    else if m.isEnPassant then
      if q == m.to then None
      else if q == EnPassantSquare(m) then m.captured
      else Unmoved(a, m, q)
    else if q == m.to then m.captured
    else Unmoved(a, m, q)
  }

  /**
   * Step 3, castling only: the king back on `from` is marked unmoved, the rook
   * found on its destination square in `a` goes home unmoved, and `to` is cleared.
   */
  function Uncastled(a: Board, m: Move, q: Pos): Square
  {
    if !m.isCastling then Restored(a, m, q)
    else
      var king := Restored(a, m, m.from);
      var s := if q == m.from && king.Some? && king.value.kind == King
               then Some(king.value.(hasMoved := false))
               else Restored(a, m, q);
      if m.to.col == 6 || m.to.col == 2 then
        var row := m.from.row;
        var rook := PieceAt(a, Pos(row, RookDest(m)));
        if q == m.to then None
        else if rook.Some? && rook.value.kind == Rook && q == Pos(row, RookDest(m)) then None
        else if rook.Some? && rook.value.kind == Rook && q == Pos(row, RookHome(m))
        then Some(rook.value.(hasMoved := false))
        else s
      else s
  }

  /** revertMove: the board before `m`, computed from the board after it. */
  function Reverted(a: Board, m: Move): (r: Board)
    ensures forall q :: OnBoard(q) ==> PieceAt(r, q) == Uncastled(a, m, q)
  {
    seq(8, r => seq(8, c => Uncastled(a, m, Pos(r, c))))
  }
}
