/**
 * Legal moves (getValidMoves), all moves of a player
 * (getAllPossibleMovesForPlayer), checkmate and stalemate, as functions of the
 * board, the previous move and the castling rights.
 */
module Legality {
  import opened Wrappers
  import opened ChessTypes
  import opened MoveRules
  import opened Transition

  /**
   * After applying `m` for `color`, the king of `color` is not in check. The check
   * test uses the previous move and rights the caller passed in, not the ones
   * the move produces.
   */
  predicate LeavesKingSafe(b: Board, color: Color, last: Option<Move>, rights: CastlingRights, m: Move)
    requires LastOk(last) && MoveOnBoard(m)
  {
    !KingInCheck(AfterMove(b, m, color).board, color, last, rights)
  }

  predicate AllOnBoard(ms: seq<Move>)
  {
    forall i :: 0 <= i < |ms| ==> MoveOnBoard(ms[i])
  }

  /** Array.prototype.filter on moves: the moves of `ms` that `keep` accepts, in order. */
  function Filter(ms: seq<Move>, keep: Move -> bool): seq<Move>
  {
    if ms == [] then []
    else Filter(ms[..|ms| - 1], keep) + (if keep(ms[|ms| - 1]) then [ms[|ms| - 1]] else [])
  }

  /** The filter keeps exactly the accepted moves, and never more moves than it was given. */
  lemma {:induction false} FilterExactly(ms: seq<Move>, keep: Move -> bool)
    ensures forall m :: m in Filter(ms, keep) <==> m in ms && keep(m)
    ensures |Filter(ms, keep)| <= |ms|
  {
    if ms != [] {
      var init := ms[..|ms| - 1];
      FilterExactly(init, keep);
      assert ms == init + [ms[|ms| - 1]];
    }
  }

  /** The callback of getValidMoves: the move leaves the king of `color` safe. */
  function KingSafeAfter(b: Board, color: Color, last: Option<Move>, rights: CastlingRights): Move -> bool
  {
    m => LastOk(last) && MoveOnBoard(m) && LeavesKingSafe(b, color, last, rights, m)
  }

  /** Every pseudo-legal move has both ends on the board. */
  lemma PseudoLegalOnBoard(b: Board, pos: Pos, last: Option<Move>, rights: CastlingRights, includeCastling: bool)
    requires LastOk(last)
    ensures AllOnBoard(PseudoLegalMoves(b, pos, last, rights, includeCastling))
    ensures forall i :: 0 <= i < |PseudoLegalMoves(b, pos, last, rights, includeCastling)| ==>
              PseudoLegalMoves(b, pos, last, rights, includeCastling)[i].from == pos
  {
    var ms := PseudoLegalMoves(b, pos, last, rights, includeCastling);
    forall i | 0 <= i < |ms|
      ensures MoveOnBoard(ms[i]) && ms[i].from == pos
    {
      assert Shaped(b, pos, last, ms[i]);
      assert OnBoard(pos);
    }
  }

  /**
   * getValidMoves: nothing for an empty square or a piece of the other colour;
   * otherwise the pseudo-legal moves (castling included) after which the mover's
   * king is not in check, in generation order.
   */
  function LegalMoves(b: Board, pos: Pos, color: Color, last: Option<Move>, rights: CastlingRights): (r: seq<Move>)
    requires LastOk(last)
    ensures !Owns(b, pos, color) ==> r == []
  {
    if !Owns(b, pos, color) then []
    else Filter(PseudoLegalMoves(b, pos, last, rights, true), KingSafeAfter(b, color, last, rights))
  }

  /**
   * A move is legal from `pos` exactly when `pos` holds a piece of `color`, the
   * move is pseudo-legal from there and it leaves the king safe; it then starts
   * on `pos` and stays on the board.
   */
  lemma LegalMovesExactly(b: Board, pos: Pos, color: Color, last: Option<Move>, rights: CastlingRights)
    requires LastOk(last)
    ensures forall m :: m in LegalMoves(b, pos, color, last, rights) <==>
              Owns(b, pos, color) && m in PseudoLegalMoves(b, pos, last, rights, true) &&
              MoveOnBoard(m) && LeavesKingSafe(b, color, last, rights, m)
    ensures forall m :: m in LegalMoves(b, pos, color, last, rights) ==> m.from == pos && MoveOnBoard(m)
  {
    PseudoLegalOnBoard(b, pos, last, rights, true);
    if Owns(b, pos, color) {
      FilterExactly(PseudoLegalMoves(b, pos, last, rights, true), KingSafeAfter(b, color, last, rights));
    }
  }

  /** What getAllPossibleMovesForPlayer collects from a square: the legal moves of a piece of `color`, nothing otherwise. */
  function MovesOf(b: Board, color: Color, last: Option<Move>, rights: CastlingRights): Pos -> seq<Move>
    requires LastOk(last)
  {
    p => if Owns(b, p, color) then LegalMoves(b, p, color, last, rights) else []
  }

  /** The moves collected from row `row`, columns 0 to n - 1, in column order. */
  function RowMoves(movesAt: Pos -> seq<Move>, row: int, n: int): seq<Move>
    requires 0 <= n <= 8
  {
    if n == 0 then [] else RowMoves(movesAt, row, n - 1) + movesAt(Pos(row, n - 1))
  }

  /** One more column of the row scan. */
  lemma RowMovesStep(movesAt: Pos -> seq<Move>, row: int, c: int, before: seq<Move>, sofar: seq<Move>, found: seq<Move>)
    requires 0 <= c < 8
    requires sofar == before + RowMoves(movesAt, row, c) && found == movesAt(Pos(row, c))
    ensures sofar + found == before + RowMoves(movesAt, row, c + 1)
  {
  }

  /** A move is collected from the row exactly when it is collected from one of its first n squares. */
  lemma {:induction false} RowMovesExactly(movesAt: Pos -> seq<Move>, row: int, n: int)
    requires 0 <= n <= 8
    ensures forall m :: m in RowMoves(movesAt, row, n) <==> exists c :: 0 <= c < n && m in movesAt(Pos(row, c))
  {
    if n > 0 {
      RowMovesExactly(movesAt, row, n - 1);
    }
  }

  /** The moves collected from rows 0 to n - 1, in row-major order. */
  function MovesBeforeRow(movesAt: Pos -> seq<Move>, n: int): seq<Move>
    requires 0 <= n <= 8
  {
    if n == 0 then [] else MovesBeforeRow(movesAt, n - 1) + RowMoves(movesAt, n - 1, 8)
  }

  /** A move is collected from the first n rows exactly when it is collected from one of their squares. */
  lemma {:induction false} MovesBeforeRowExactly(movesAt: Pos -> seq<Move>, n: int)
    requires 0 <= n <= 8
    ensures forall m :: m in MovesBeforeRow(movesAt, n) <==>
              exists p: Pos :: 0 <= p.row < n && 0 <= p.col < 8 && m in movesAt(p)
  {
    if n > 0 {
      MovesBeforeRowExactly(movesAt, n - 1);
      RowMovesExactly(movesAt, n - 1, 8);
      forall m
        ensures m in MovesBeforeRow(movesAt, n) <==> exists p: Pos :: 0 <= p.row < n && 0 <= p.col < 8 && m in movesAt(p)
      {
        if m in RowMoves(movesAt, n - 1, 8) {
          var c :| 0 <= c < 8 && m in movesAt(Pos(n - 1, c));
          assert Pos(n - 1, c).row == n - 1;
        }
        if exists p: Pos :: 0 <= p.row < n && 0 <= p.col < 8 && m in movesAt(p) {
          var p: Pos :| 0 <= p.row < n && 0 <= p.col < 8 && m in movesAt(p);
          if p.row == n - 1 {
            assert p == Pos(n - 1, p.col);
          }
        }
      }
    }
  }

  /** getAllPossibleMovesForPlayer */
  function AllLegalMoves(b: Board, color: Color, last: Option<Move>, rights: CastlingRights): seq<Move>
    requires LastOk(last)
  {
    MovesBeforeRow(MovesOf(b, color, last, rights), 8)
  }

  /**
   * A move belongs to the player's list exactly when it is a legal move of the
   * player's piece on its `from` square.
   */
  lemma AllLegalMovesExactly(b: Board, color: Color, last: Option<Move>, rights: CastlingRights, m: Move)
    requires LastOk(last)
    ensures m in AllLegalMoves(b, color, last, rights) <==>
            OnBoard(m.from) && Owns(b, m.from, color) && m in PseudoLegalMoves(b, m.from, last, rights, true) &&
            MoveOnBoard(m) && LeavesKingSafe(b, color, last, rights, m)
  {
    var movesAt := MovesOf(b, color, last, rights);
    MovesBeforeRowExactly(movesAt, 8);
    if m in AllLegalMoves(b, color, last, rights) {
      var p: Pos :| 0 <= p.row < 8 && 0 <= p.col < 8 && m in movesAt(p);
      LegalMovesExactly(b, p, color, last, rights);
    }
    if OnBoard(m.from) && Owns(b, m.from, color) && m in PseudoLegalMoves(b, m.from, last, rights, true) &&
       MoveOnBoard(m) && LeavesKingSafe(b, color, last, rights, m) {
      LegalMovesExactly(b, m.from, color, last, rights);
      assert m in movesAt(m.from);
    }
  }

  /** isCheckmate */
  predicate Checkmate(b: Board, color: Color, last: Option<Move>, rights: CastlingRights)
    requires LastOk(last)
  {
    KingInCheck(b, color, last, rights) && |AllLegalMoves(b, color, last, rights)| == 0
  }

  /** isStalemate */
  predicate Stalemate(b: Board, color: Color, last: Option<Move>, rights: CastlingRights)
    requires LastOk(last)
  {
    !KingInCheck(b, color, last, rights) && |AllLegalMoves(b, color, last, rights)| == 0
  }

  /** No piece of `color` has a pseudo-legal move that leaves its king safe. */
  ghost predicate NoSafeMove(b: Board, color: Color, last: Option<Move>, rights: CastlingRights)
    requires LastOk(last)
  {
    forall p: Pos, m :: OnBoard(p) && Owns(b, p, color) &&
                        m in PseudoLegalMoves(b, p, last, rights, true) && MoveOnBoard(m) ==>
                        !LeavesKingSafe(b, color, last, rights, m)
  }

  /** A listed move is a safe move of one of the player's pieces. */
  lemma ListedMoveIsSafe(b: Board, color: Color, last: Option<Move>, rights: CastlingRights)
    requires LastOk(last)
    ensures |AllLegalMoves(b, color, last, rights)| != 0 ==> !NoSafeMove(b, color, last, rights)
  {
    if |AllLegalMoves(b, color, last, rights)| != 0 {
      var m := AllLegalMoves(b, color, last, rights)[0];
      AllLegalMovesExactly(b, color, last, rights, m);
      assert OnBoard(m.from) && Owns(b, m.from, color) && m in PseudoLegalMoves(b, m.from, last, rights, true) &&
             MoveOnBoard(m) && LeavesKingSafe(b, color, last, rights, m);
    }
  }

  /** With an empty list, no piece has a safe move. */
  lemma EmptyListNoSafeMove(b: Board, color: Color, last: Option<Move>, rights: CastlingRights)
    requires LastOk(last)
    ensures |AllLegalMoves(b, color, last, rights)| == 0 ==> NoSafeMove(b, color, last, rights)
  {
    if |AllLegalMoves(b, color, last, rights)| == 0 {
      forall p: Pos, m | OnBoard(p) && Owns(b, p, color) && m in PseudoLegalMoves(b, p, last, rights, true) && MoveOnBoard(m)
        ensures !LeavesKingSafe(b, color, last, rights, m)
      {
        PseudoLegalOnBoard(b, p, last, rights, true);
        AllLegalMovesExactly(b, color, last, rights, m);
      }
    }
  }

  /** The player's list is empty exactly when no piece has a move that leaves the king safe. */
  lemma NoMovesIffNoSafeMove(b: Board, color: Color, last: Option<Move>, rights: CastlingRights)
    requires LastOk(last)
    ensures |AllLegalMoves(b, color, last, rights)| == 0 <==> NoSafeMove(b, color, last, rights)
  {
    EmptyListNoSafeMove(b, color, last, rights);
    ListedMoveIsSafe(b, color, last, rights);
  }

  /**
   * Checkmate is check with no move that leaves the king safe, stalemate is the
   * absence of such a move without check, the two never hold together, and
   * either one means the player's list of moves is empty.
   */
  lemma MateAndStalemate(b: Board, color: Color, last: Option<Move>, rights: CastlingRights)
    requires LastOk(last)
    ensures Checkmate(b, color, last, rights) <==> KingInCheck(b, color, last, rights) && NoSafeMove(b, color, last, rights)
    ensures Stalemate(b, color, last, rights) <==> !KingInCheck(b, color, last, rights) && NoSafeMove(b, color, last, rights)
    ensures !(Checkmate(b, color, last, rights) && Stalemate(b, color, last, rights))
    ensures Checkmate(b, color, last, rights) || Stalemate(b, color, last, rights) ==>
              AllLegalMoves(b, color, last, rights) == []
  {
    NoMovesIffNoSafeMove(b, color, last, rights);
  }
}
