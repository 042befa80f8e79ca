/**
 * What applying a generated move does to the board, and that reverting the
 * executed move restores the board it was applied to.
 */
module TransitionProps {
  import opened Wrappers
  import opened ChessTypes
  import opened MoveRules
  import opened Transition

  /** The squares a move writes: its two ends, the castling rook's two squares, the en-passant victim's square. */
  predicate Touched(m: Move, q: Pos)
  {
    q == m.from || q == m.to ||
    (m.isCastling && q.row == m.from.row && (q.col == RookHome(m) || q.col == RookDest(m))) ||
    (m.isEnPassant && q == EnPassantSquare(m))
  }

  /**
   * Applying a shaped move for the mover's own colour empties `from`, puts the
   * mover (or the promoted piece) on `to`, carries the castling rook to its
   * square, removes the en-passant victim and leaves every other square alone.
   * The executed move records as captured what stood on `to` (for en passant,
   * the victim when it is an opposing piece), and the rights are the initial
   * rights updated for this move.
   */
  lemma ApplyEffects(b: Board, pos: Pos, last: Option<Move>, m: Move)
    requires Shaped(b, pos, last, m)
    ensures MoveOnBoard(m)
    ensures var p := PieceAt(b, pos).value;
            var o := AfterMove(b, m, p.color);
            PieceAt(o.board, pos) == None &&
            PieceAt(o.board, m.to) ==
              Some(if m.promotion.Some? then Piece(m.promotion.value, p.color, true) else p.(hasMoved := true)) &&
            (m.isCastling ==>
               PieceAt(o.board, Pos(pos.row, RookHome(m))) == None &&
               PieceAt(o.board, Pos(pos.row, RookDest(m))) ==
                 Some(PieceAt(b, Pos(pos.row, RookHome(m))).value.(hasMoved := true))) &&
            (m.isEnPassant ==> PieceAt(o.board, EnPassantSquare(m)) == None) &&
            (forall q :: OnBoard(q) && !Touched(m, q) ==> PieceAt(o.board, q) == PieceAt(b, q)) &&
            o.executed == m.(captured :=
              if m.isEnPassant then
                (if Opposes(PieceAt(b, EnPassantSquare(m)), p) then PieceAt(b, EnPassantSquare(m)) else None)
              else PieceAt(b, m.to)) &&
            o.rights == RightsAfter(InitialRights(), m, p, b)
  {
    var p := PieceAt(b, pos).value;
    assert OnBoard(pos);
    AfterMoveCells(b, m, p.color);
    var o := AfterMove(b, m, p.color);
    if m.isCastling {
      assert CastleShape(b, pos, m);
      var home := Pos(pos.row, RookHome(m));
      assert home != pos && home != m.to;
      assert Landed(b, m, p.color, home) == PieceAt(b, home);
    }
  }

  /**
   * revertMove undoes applyMove: for a shaped move, applied for the mover's
   * colour, reverting the executed move gives back every square but `from`,
   * and `from` holds the mover again, still marked as moved unless the move
   * castled (castling is reverted to the exact board). The previous move must
   * not have left a piece of the mover's colour on its destination, which in
   * a game it never does.
   */
  lemma RevertUndoesApply(b: Board, pos: Pos, last: Option<Move>, m: Move)
    requires Shaped(b, pos, last, m)
    requires last.Some? ==> !Owns(b, last.value.to, PieceAt(b, pos).value.color)
    ensures MoveOnBoard(m)
    ensures var p := PieceAt(b, pos).value;
            var o := AfterMove(b, m, p.color);
            var back := Reverted(o.board, o.executed);
            (forall q :: OnBoard(q) && q != pos ==> PieceAt(back, q) == PieceAt(b, q)) &&
            PieceAt(back, pos) == Some(if m.isCastling then p else p.(hasMoved := true))
    ensures m.isCastling ==> Reverted(AfterMove(b, m, PieceAt(b, pos).value.color).board,
                                      AfterMove(b, m, PieceAt(b, pos).value.color).executed) == b
  {
    var p := PieceAt(b, pos).value;
    assert OnBoard(pos);
    ApplyEffects(b, pos, last, m);
    var o := AfterMove(b, m, p.color);
    var a := o.board;
    var e := o.executed;
    var back := Reverted(a, e);
    forall q | OnBoard(q)
      ensures PieceAt(back, q) == if q == pos then Some(if m.isCastling then p else p.(hasMoved := true)) else PieceAt(b, q)
    {
      if m.isCastling {
        assert CastleShape(b, pos, m);
        var row := pos.row;
        var dest := Pos(row, RookDest(m));
        var home := Pos(row, RookHome(m));
        assert dest != pos && home != pos && dest != m.to && home != m.to && dest != home;
        assert PieceAt(a, dest) == Some(PieceAt(b, home).value.(hasMoved := true));
        assert Restored(a, e, pos) == Some(p.(hasMoved := true));
        if q == pos {
        } else if q == m.to || q == dest || q == home {
        } else {
          assert !Touched(m, q);
        }
      } else if m.isEnPassant {
        assert EnPassantShape(b, pos, last, m);
        var ep := EnPassantSquare(m);
        assert ep == last.value.to && ep != pos && ep != m.to;
        assert e.captured == PieceAt(b, ep);
        if q == pos || q == m.to || q == ep {
        } else {
          assert !Touched(m, q);
        }
      } else {
        if q == pos || q == m.to {
        } else {
          assert !Touched(m, q);
        }
      }
    }
    if m.isCastling {
      SameBoard(back, b);
    }
  }

  /** The same for every move the generator produces. */
  lemma RevertUndoesGeneratedMove(b: Board, pos: Pos, last: Option<Move>, rights: CastlingRights,
                                  includeCastling: bool, m: Move)
    requires LastOk(last)
    requires m in PseudoLegalMoves(b, pos, last, rights, includeCastling)
    requires last.Some? ==> !Owns(b, last.value.to, PieceAt(b, pos).value.color)
    ensures var p := PieceAt(b, pos).value;
            var o := AfterMove(b, m, p.color);
            var back := Reverted(o.board, o.executed);
            (forall q :: OnBoard(q) && q != pos ==> PieceAt(back, q) == PieceAt(b, q)) &&
            PieceAt(back, pos) == Some(if m.isCastling then p else p.(hasMoved := true))
  {
    var ms := PseudoLegalMoves(b, pos, last, rights, includeCastling);
    var i :| 0 <= i < |ms| && ms[i] == m;
    assert Shaped(b, pos, last, m);
    RevertUndoesApply(b, pos, last, m);
  }
}
