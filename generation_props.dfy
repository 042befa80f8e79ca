/**
 * Properties of pseudo-legal move generation: promotions come in complete sets
 * of four, castling is generated exactly when its conditions hold, and the
 * check test agrees with the attack test on the king's square.
 */
module GenerationProps {
  import opened Wrappers
  import opened ChessTypes
  import opened Constants
  import opened MoveRules

  // ---------------------------------------------------------------------------
  // Promotions
  // ---------------------------------------------------------------------------

  /** Whenever a list holds a promotion onto a square, it holds all four promotions from `pos` onto it. */
  predicate PromotionClosed(ms: seq<Move>, pos: Pos)
  {
    forall i, j :: 0 <= i < |ms| && 0 <= j < |PromotionPieces| && ms[i].promotion.Some? ==>
      Promote(pos, ms[i].to, PromotionPieces[j]) in ms
  }

  lemma ClosedAppend(a: seq<Move>, c: seq<Move>, pos: Pos)
    requires PromotionClosed(a, pos) && PromotionClosed(c, pos)
    ensures PromotionClosed(a + c, pos)
  {
    var ac := a + c;
    forall i, j | 0 <= i < |ac| && 0 <= j < |PromotionPieces| && ac[i].promotion.Some?
      ensures Promote(pos, ac[i].to, PromotionPieces[j]) in ac
    {
      var x := Promote(pos, ac[i].to, PromotionPieces[j]);
      if i < |a| {
        assert ac[i] == a[i];
        var k :| 0 <= k < |a| && a[k] == x;
        assert ac[k] == x;
      } else {
        assert ac[i] == c[i - |a|];
        var k :| 0 <= k < |c| && c[k] == x;
        assert ac[|a| + k] == x;
      }
    }
  }

  lemma TargetMovesClosed(b: Board, pos: Pos, to: Pos, color: Color, captureOk: bool, nonCaptureOk: bool,
                          promotionRank: Option<int>)
    ensures PromotionClosed(TargetMoves(b, pos, to, color, captureOk, nonCaptureOk, promotionRank), pos)
  {
    var r := TargetMoves(b, pos, to, color, captureOk, nonCaptureOk, promotionRank);
    if exists i :: 0 <= i < |r| && r[i].promotion.Some? {
      assert r == Promotions(pos, to);
      forall j | 0 <= j < |PromotionPieces|
        ensures Promote(pos, to, PromotionPieces[j]) in r
      {
        assert r[j] == Promote(pos, to, PromotionPieces[j]);
      }
    }
  }

  lemma {:induction false} PawnCapturesClosed(b: Board, pos: Pos, color: Color, offsets: seq<int>)
    requires IsPawnOf(b, pos, color)
    ensures PromotionClosed(PawnCaptures(b, pos, color, offsets), pos)
  {
    if offsets != [] {
      var init := offsets[..|offsets| - 1];
      var o := offsets[|offsets| - 1];
      PawnCapturesClosed(b, pos, color, init);
      TargetMovesClosed(b, pos, Pos(pos.row + Forward(color), pos.col + o), color, true, false, Some(PromotionRow(color)));
      ClosedAppend(PawnCaptures(b, pos, color, init), PawnCapture(b, pos, color, o), pos);
    }
  }

  lemma PawnMovesClosed(b: Board, pos: Pos, piece: Piece, last: Option<Move>)
    requires LastOk(last) && PieceAt(b, pos) == Some(piece) && piece.kind == Pawn
    ensures PromotionClosed(PawnMoves(b, pos, piece, last), pos)
  {
    var color := piece.color;
    var one := Pos(pos.row + Forward(color), pos.col);
    var two := Pos(pos.row + 2 * Forward(color), pos.col);
    TargetMovesClosed(b, pos, one, color, false, true, Some(PromotionRow(color)));
    TargetMovesClosed(b, pos, two, color, false, true, None);
    ClosedAppend(TargetMoves(b, pos, one, color, false, true, Some(PromotionRow(color))),
                 TargetMoves(b, pos, two, color, false, true, None), pos);
    assert PromotionClosed(PawnPushes(b, pos, color), pos);
    PawnCapturesClosed(b, pos, color, CaptureOffsets);
    ClosedAppend(PawnPushes(b, pos, color), PawnCaptures(b, pos, color, CaptureOffsets), pos);
    var ep := EnPassant(b, pos, color, last);
    assert forall i :: 0 <= i < |ep| ==> ep[i].promotion.None?;
    ClosedAppend(PawnPushes(b, pos, color) + PawnCaptures(b, pos, color, CaptureOffsets), ep, pos);
  }

  /**
   * A generated promotion comes with all four promotions (Q, R, B, N) onto the
   * same square, it is a plain pawn move onto the promotion row, and no move of
   * that pawn reaches that square without promoting (except en passant, which
   * never lands on the promotion row in a game).
   */
  lemma PromotionsComplete(b: Board, pos: Pos, last: Option<Move>, rights: CastlingRights,
                           includeCastling: bool, m: Move, k: Kind)
    requires LastOk(last)
    requires m in PseudoLegalMoves(b, pos, last, rights, includeCastling) && m.promotion.Some?
    requires k in PromotionPieces
    ensures Promote(pos, m.to, k) in PseudoLegalMoves(b, pos, last, rights, includeCastling)
    ensures m == Promote(pos, m.to, m.promotion.value)
    ensures IsPawnOf(b, pos, PieceAt(b, pos).value.color) && m.to.row == PromotionRow(PieceAt(b, pos).value.color)
    ensures forall m' :: (m' in PseudoLegalMoves(b, pos, last, rights, includeCastling) && m'.to == m.to &&
                          !m'.isEnPassant) ==> m'.promotion.Some?
  {
    var ms := PseudoLegalMoves(b, pos, last, rights, includeCastling);
    var i :| 0 <= i < |ms| && ms[i] == m;
    assert Shaped(b, pos, last, m);
    var piece := PieceAt(b, pos).value;
    PawnMovesClosed(b, pos, piece, last);
    var j :| 0 <= j < |PromotionPieces| && PromotionPieces[j] == k;
    assert Promote(pos, ms[i].to, PromotionPieces[j]) in ms;
    forall m' | m' in ms && m'.to == m.to && !m'.isEnPassant
      ensures m'.promotion.Some?
    {
      var i' :| 0 <= i' < |ms| && ms[i'] == m';
      assert Shaped(b, pos, last, m');
    }
  }

  // ---------------------------------------------------------------------------
  // Castling
  // ---------------------------------------------------------------------------

  /**
   * The wing conditions of getKingMoves: the side's right for that wing, an
   * unmoved rook in the corner, the squares between empty, and the king's two
   * crossing squares (f and g, or c and d) not attacked by the opponent.
   */
  predicate WingOpen(b: Board, pos: Pos, color: Color, last: Option<Move>, rights: CastlingRights, kingSide: bool)
    requires LastOk(last)
  {
    var side := if color == White then rights.white else rights.black;
    var row := pos.row;
    var opp := Opponent(color);
    if kingSide then
      side.kingSide && UnmovedRookAt(b, Pos(row, 7)) && IsEmpty(b, Pos(row, 5)) && IsEmpty(b, Pos(row, 6)) &&
      !SquareAttacked(b, Pos(row, 5), opp, last, rights) && !SquareAttacked(b, Pos(row, 6), opp, last, rights)
    else
      side.queenSide && UnmovedRookAt(b, Pos(row, 0)) &&
      IsEmpty(b, Pos(row, 1)) && IsEmpty(b, Pos(row, 2)) && IsEmpty(b, Pos(row, 3)) &&
      !SquareAttacked(b, Pos(row, 2), opp, last, rights) && !SquareAttacked(b, Pos(row, 3), opp, last, rights)
  }

  /** Castling on a wing is offered to an unmoved king that is not in check and whose wing is open. */
  predicate CastlingAllowed(b: Board, pos: Pos, last: Option<Move>, rights: CastlingRights, kingSide: bool)
    requires LastOk(last)
  {
    PieceAt(b, pos).Some? &&
    var k := PieceAt(b, pos).value;
    k.kind == King && !k.hasMoved && !KingInCheck(b, k.color, last, rights) &&
    WingOpen(b, pos, k.color, last, rights, kingSide)
  }

  lemma CastlingMovesExactly(b: Board, pos: Pos, king: Piece, last: Option<Move>, rights: CastlingRights, m: Move)
    requires LastOk(last) && PieceAt(b, pos) == Some(king) && king.kind == King && !king.hasMoved
    ensures m in CastlingMoves(b, pos, king, last, rights) <==>
            (m == Castle(pos, Pos(pos.row, 6)) && WingOpen(b, pos, king.color, last, rights, true)) ||
            (m == Castle(pos, Pos(pos.row, 2)) && WingOpen(b, pos, king.color, last, rights, false))
  {
  }

  /** The castling moves among a king's moves are those of the castling block, when it runs. */
  lemma KingCastlingPart(b: Board, pos: Pos, king: Piece, last: Option<Move>, rights: CastlingRights,
                         includeCastling: bool, m: Move)
    requires LastOk(last) && PieceAt(b, pos) == Some(king) && king.kind == King
    ensures (m in KingMoves(b, pos, king, last, rights, includeCastling) && m.isCastling) <==>
            includeCastling && !king.hasMoved && !KingInCheck(b, king.color, last, rights) &&
            m in CastlingMoves(b, pos, king, last, rights)
  {
    var steps := OffsetMoves(b, pos, king.color, KingOffsets);
    var ms := KingMoves(b, pos, king, last, rights, includeCastling);
    if includeCastling && !king.hasMoved && !KingInCheck(b, king.color, last, rights) {
      var cm := CastlingMoves(b, pos, king, last, rights);
      assert ms == steps + cm;
      if m in ms && m.isCastling {
        var i :| 0 <= i < |ms| && ms[i] == m;
        if i >= |steps| {
          assert ms[i] == cm[i - |steps|];
        }
      }
      if m in cm {
        var i :| 0 <= i < |cm| && cm[i] == m;
        assert ms[|steps| + i] == m;
      }
    } else {
      assert ms == steps + [];
      if m in ms {
        var i :| 0 <= i < |ms| && ms[i] == m;
        assert ms[i] == steps[i];
      }
    }
  }

  /**
   * A castling move is generated exactly when castling was asked for and the
   * conditions for its wing hold; it moves the king to the g or c column.
   */
  lemma CastlingExactlyWhenAllowed(b: Board, pos: Pos, last: Option<Move>, rights: CastlingRights,
                                   includeCastling: bool, m: Move)
    requires LastOk(last)
    ensures (m in PseudoLegalMoves(b, pos, last, rights, includeCastling) && m.isCastling) <==>
            includeCastling &&
            ((m == Castle(pos, Pos(pos.row, 6)) && CastlingAllowed(b, pos, last, rights, true)) ||
             (m == Castle(pos, Pos(pos.row, 2)) && CastlingAllowed(b, pos, last, rights, false)))
  {
    var ms := PseudoLegalMoves(b, pos, last, rights, includeCastling);
    match PieceAt(b, pos)
    case None =>
    case Some(piece) =>
      if piece.kind == King {
        assert ms == KingMoves(b, pos, piece, last, rights, includeCastling);
        KingCastlingPart(b, pos, piece, last, rights, includeCastling, m);
        if !piece.hasMoved {
          CastlingMovesExactly(b, pos, piece, last, rights, m);
        }
      }
  }

  // ---------------------------------------------------------------------------
  // Check and attack
  // ---------------------------------------------------------------------------

  /** A pawn push only ever lands on an empty square. */
  lemma PushesLandOnEmpty(b: Board, pos: Pos, color: Color)
    requires IsPawnOf(b, pos, color)
    ensures forall i :: 0 <= i < |PawnPushes(b, pos, color)| ==> IsEmpty(b, PawnPushes(b, pos, color)[i].to)
  {
    var one := Pos(pos.row + Forward(color), pos.col);
    var two := Pos(pos.row + 2 * Forward(color), pos.col);
    var a := TargetMoves(b, pos, one, color, false, true, Some(PromotionRow(color)));
    var c := TargetMoves(b, pos, two, color, false, true, None);
    assert forall i :: 0 <= i < |a| ==> IsEmpty(b, a[i].to);
    assert forall i :: 0 <= i < |c| ==> IsEmpty(b, c[i].to);
  }

  /** Every pawn capture lands on a forward diagonal. */
  lemma {:induction false} CapturesOnDiagonal(b: Board, pos: Pos, color: Color, offsets: seq<int>)
    requires IsPawnOf(b, pos, color)
    requires forall j :: 0 <= j < |offsets| ==> offsets[j] == -1 || offsets[j] == 1
    ensures forall i :: 0 <= i < |PawnCaptures(b, pos, color, offsets)| ==>
              var t := PawnCaptures(b, pos, color, offsets)[i].to;
              t.row == pos.row + Forward(color) && (t.col == pos.col - 1 || t.col == pos.col + 1)
  {
    if offsets != [] {
      CapturesOnDiagonal(b, pos, color, offsets[..|offsets| - 1]);
    }
  }

  /** A pawn capture onto an opposing piece on a forward diagonal is generated. */
  lemma {:induction false} CaptureGenerated(b: Board, pos: Pos, color: Color, offsets: seq<int>, j: int)
    requires IsPawnOf(b, pos, color) && 0 <= j < |offsets|
    requires var t := Pos(pos.row + Forward(color), pos.col + offsets[j]);
             OnBoard(t) && PieceAt(b, t).Some? && PieceAt(b, t).value.color != color
    ensures Hits(PawnCaptures(b, pos, color, offsets), Pos(pos.row + Forward(color), pos.col + offsets[j]))
  {
    var init := offsets[..|offsets| - 1];
    var cap := PawnCapture(b, pos, color, offsets[|offsets| - 1]);
    if j < |offsets| - 1 {
      CaptureGenerated(b, pos, color, init, j);
      var caps := PawnCaptures(b, pos, color, init);
      var i :| 0 <= i < |caps| && caps[i].to == Pos(pos.row + Forward(color), pos.col + offsets[j]);
      assert (caps + cap)[i] == caps[i];
    } else {
      var caps := PawnCaptures(b, pos, color, init);
      assert cap != [];
      assert (caps + cap)[|caps|] == cap[0];
    }
  }

  /** `target` lies on the forward diagonal of a pawn of `color` standing on `sq`. */
  predicate OnForwardDiagonal(sq: Pos, color: Color, target: Pos)
  {
    target.row == sq.row + Forward(color) && (target.col == sq.col - 1 || target.col == sq.col + 1)
  }

  /** Every move a pawn generates lands on an empty square or on its forward diagonal. */
  lemma PawnTargets(b: Board, sq: Pos, piece: Piece, last: Option<Move>)
    requires LastOk(last) && PieceAt(b, sq) == Some(piece) && piece.kind == Pawn
    ensures forall i :: 0 <= i < |PawnMoves(b, sq, piece, last)| ==>
              IsEmpty(b, PawnMoves(b, sq, piece, last)[i].to) ||
              OnForwardDiagonal(sq, piece.color, PawnMoves(b, sq, piece, last)[i].to)
  {
    var pushes := PawnPushes(b, sq, piece.color);
    var caps := PawnCaptures(b, sq, piece.color, CaptureOffsets);
    var ep := EnPassant(b, sq, piece.color, last);
    var ms := PawnMoves(b, sq, piece, last);
    assert ms == pushes + caps + ep;
    PushesLandOnEmpty(b, sq, piece.color);
    CapturesOnDiagonal(b, sq, piece.color, CaptureOffsets);
    assert forall i :: 0 <= i < |ep| ==> IsEmpty(b, ep[i].to);
    forall i | 0 <= i < |ms|
      ensures IsEmpty(b, ms[i].to) || OnForwardDiagonal(sq, piece.color, ms[i].to)
    {
      if i < |pushes| {
        assert ms[i] == pushes[i];
      } else if i < |pushes| + |caps| {
        assert ms[i] == caps[i - |pushes|];
      } else {
        assert ms[i] == ep[i - |pushes| - |caps|];
      }
    }
  }

  /**
   * On a square holding a piece of the other colour, a pawn's generated moves
   * reach it exactly when it lies on the pawn's forward diagonal, which is the
   * pawn case of isSquareAttacked.
   */
  lemma PawnHitsOccupied(b: Board, sq: Pos, last: Option<Move>, target: Pos)
    requires LastOk(last) && PieceAt(b, sq).Some? && PieceAt(b, sq).value.kind == Pawn
    requires PieceAt(b, target).Some? && PieceAt(b, target).value.color != PieceAt(b, sq).value.color
    ensures Hits(PawnMoves(b, sq, PieceAt(b, sq).value, last), target) <==>
            OnForwardDiagonal(sq, PieceAt(b, sq).value.color, target)
  {
    var p := PieceAt(b, sq).value;
    var ms := PawnMoves(b, sq, p, last);
    PawnTargets(b, sq, p, last);
    if OnForwardDiagonal(sq, p.color, target) {
      var pushes := PawnPushes(b, sq, p.color);
      var caps := PawnCaptures(b, sq, p.color, CaptureOffsets);
      var ep := EnPassant(b, sq, p.color, last);
      assert ms == pushes + caps + ep;
      var j := if target.col == sq.col - 1 then 0 else 1;
      assert OnBoard(target);
      CaptureGenerated(b, sq, p.color, CaptureOffsets, j);
      var k :| 0 <= k < |caps| && caps[k].to == target;
      assert ms[|pushes| + k] == caps[k];
    }
  }

  /**
   * isKingInCheck and isSquareAttacked agree on the king's square: a king is in
   * check exactly when its square is attacked by the opponent.
   */
  lemma CheckIsAttackOnKing(b: Board, color: Color, last: Option<Move>, rights: CastlingRights)
    requires LastOk(last)
    ensures KingInCheck(b, color, last, rights) <==>
            KingSquare(b, color).Some? && SquareAttacked(b, KingSquare(b, color).value, Opponent(color), last, rights)
  {
    KingSquareIsFirstKing(b, color);
    if KingSquare(b, color).Some? {
      var k := KingSquare(b, color).value;
      var opp := Opponent(color);
      forall r, c | 0 <= r < 8 && 0 <= c < 8
        ensures Threatens(b, Pos(r, c), k, opp, last, rights) <==> AttacksFrom(b, Pos(r, c), k, opp, last, rights)
      {
        var sq := Pos(r, c);
        if PieceAt(b, sq).Some? && PieceAt(b, sq).value.color == opp && PieceAt(b, sq).value.kind == Pawn {
          PawnHitsOccupied(b, sq, last, k);
        }
      }
    }
  }

  /** Unlike the check test, the attack test counts a pawn's forward diagonal as attacked even when it is empty. */
  lemma PawnAttacksDiagonal(b: Board, sq: Pos, target: Pos, last: Option<Move>, rights: CastlingRights)
    requires LastOk(last) && PieceAt(b, sq).Some? && PieceAt(b, sq).value.kind == Pawn
    requires OnForwardDiagonal(sq, PieceAt(b, sq).value.color, target)
    ensures SquareAttacked(b, target, PieceAt(b, sq).value.color, last, rights)
  {
    assert OnBoard(sq);
    assert AttacksFrom(b, Pos(sq.row, sq.col), target, PieceAt(b, sq).value.color, last, rights);
  }
}
