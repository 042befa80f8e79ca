/**
 * The ChessLogic class of services/chessLogic.ts as methods that work the way
 * the source does: loops that push onto a move list, nested scans of the board
 * with early returns, and a copied grid written square by square. Each method is
 * proved to compute the function that specifies it (modules MoveRules,
 * Transition and Legality).
 *
 * Move generation, the check test and the attack test call each other; the
 * `decreases` clauses are those of the specification functions.
 */
module ChessLogic {
  import opened Wrappers
  import opened ChessTypes
  import opened Constants
  import opened MoveRules
  import opened Transition
  import opened Legality

  // ---------------------------------------------------------------------------
  // Board copies
  // ---------------------------------------------------------------------------

  /** A fresh grid holding the squares of `b` (`board.map(row => row.map(...))`). */
  method CopyBoard(b: Board) returns (g: array2<Square>)
    ensures fresh(g) && g.Length0 == 8 && g.Length1 == 8
    ensures forall r, c :: 0 <= r < 8 && 0 <= c < 8 ==> g[r, c] == b[r][c]
  {
    g := new Square[8, 8]((r, c) requires 0 <= r < 8 && 0 <= c < 8 => b[r][c]);
  }

  /** The board a grid holds. */
  function Snapshot(g: array2<Square>): (b: Board)
    requires g.Length0 == 8 && g.Length1 == 8
    reads g
    ensures forall q :: OnBoard(q) ==> PieceAt(b, q) == g[q.row, q.col]
  {
    seq(8, r reads g requires 0 <= r < 8 => seq(8, c reads g requires 0 <= c < 8 => g[r, c]))
  }

  // ---------------------------------------------------------------------------
  // applyMove, revertMove, updateCastlingRightsForMove
  // ---------------------------------------------------------------------------

  /** The first half of updateCastlingRightsForMove: a king move clears both flags, a rook leaving a corner clears that one. */
  method ClearForMovedPiece(current: CastlingRights, m: Move, moved: Piece) returns (rights: CastlingRights)
    ensures forall side, ks :: Flag(rights, side, ks) == (Flag(current, side, ks) && MoverSpares(side, ks, m, moved))
  {
    rights := current;
    if moved.kind == King {
      if moved.color == White {
        rights := rights.(white := SideRights(false, false));
      } else {
        rights := rights.(black := SideRights(false, false));
      }
    } else if moved.kind == Rook {
      if moved.color == White {
        if m.from.col == 0 && m.from.row == 7 { rights := rights.(white := rights.white.(queenSide := false)); }
        if m.from.col == 7 && m.from.row == 7 { rights := rights.(white := rights.white.(kingSide := false)); }
      } else {
        if m.from.col == 0 && m.from.row == 0 { rights := rights.(black := rights.black.(queenSide := false)); }
        if m.from.col == 7 && m.from.row == 0 { rights := rights.(black := rights.black.(kingSide := false)); }
      }
    }
  }

  /** The second half: a rook standing on a corner that the move lands on clears that corner's flag. */
  method ClearForCapturedRook(current: CastlingRights, m: Move, taken: Square) returns (rights: CastlingRights)
    ensures forall side, ks :: Flag(rights, side, ks) ==
              (Flag(current, side, ks) && CaptureSpares(side, ks, m, taken.Some? && taken.value.kind == Rook))
  {
    rights := current;
    if taken.Some? && taken.value.kind == Rook {
      if m.to.row == 0 && m.to.col == 0 { rights := rights.(black := rights.black.(queenSide := false)); }
      if m.to.row == 0 && m.to.col == 7 { rights := rights.(black := rights.black.(kingSide := false)); }
      if m.to.row == 7 && m.to.col == 0 { rights := rights.(white := rights.white.(queenSide := false)); }
      if m.to.row == 7 && m.to.col == 7 { rights := rights.(white := rights.white.(kingSide := false)); }
    }
  }

  /** updateCastlingRightsForMove: clear flags one after another on a copy of the rights. */
  method UpdateCastlingRightsForMove(current: CastlingRights, m: Move, moved: Piece, before: Board)
    returns (rights: CastlingRights)
    requires OnBoard(m.to)
    ensures rights == RightsAfter(current, m, moved, before)
  {
    rights := ClearForMovedPiece(current, m, moved);
    rights := ClearForCapturedRook(rights, m, before[m.to.row][m.to.col]);
    SameRights(rights, RightsAfter(current, m, moved, before));
  }

  /** The castling block of applyMove: whatever stands on the rook's home square moves next to the king. */
  method MoveCastlingRook(g: array2<Square>, b: Board, m: Move, color: Color)
    modifies g
    requires g.Length0 == 8 && g.Length1 == 8 && MoveOnBoard(m) && PieceAt(b, m.from).Some?
    requires forall r, c :: 0 <= r < 8 && 0 <= c < 8 ==> g[r, c] == Landed(b, m, color, Pos(r, c))
    ensures forall r, c :: 0 <= r < 8 && 0 <= c < 8 ==> g[r, c] == Castled(b, m, color, Pos(r, c))
  {
    if m.isCastling {
      var row := m.from.row;
      if m.to.col == 6 {
        var rook := g[row, 7];
        if rook.Some? {
          g[row, 5] := Some(rook.value.(hasMoved := true));
          g[row, 7] := None;
        }
      } else {
        var rook := g[row, 0];
        if rook.Some? {
          g[row, 3] := Some(rook.value.(hasMoved := true));
          g[row, 0] := None;
        }
      }
    }
  }

  /** The first writes of applyMove: the mover lands on `to`, `from` is cleared, a promoting pawn is replaced. */
  method LandPiece(g: array2<Square>, b: Board, m: Move, color: Color)
    modifies g
    requires g.Length0 == 8 && g.Length1 == 8 && MoveOnBoard(m) && PieceAt(b, m.from).Some?
    requires forall r, c :: 0 <= r < 8 && 0 <= c < 8 ==> g[r, c] == b[r][c]
    ensures forall r, c :: 0 <= r < 8 && 0 <= c < 8 ==> g[r, c] == Landed(b, m, color, Pos(r, c))
  {
    var p := g[m.from.row, m.from.col].value;
    g[m.to.row, m.to.col] := Some(p.(hasMoved := true));
    g[m.from.row, m.from.col] := None;
    if m.promotion.Some? && p.kind == Pawn {
      g[m.to.row, m.to.col] := Some(Piece(m.promotion.value, color, true));
    }
  }

  /** The en-passant block of applyMove: the victim's square is cleared. */
  method ClearEnPassantSquare(g: array2<Square>, b: Board, m: Move, color: Color)
    modifies g
    requires g.Length0 == 8 && g.Length1 == 8 && MoveOnBoard(m) && PieceAt(b, m.from).Some?
    requires forall r, c :: 0 <= r < 8 && 0 <= c < 8 ==> g[r, c] == Castled(b, m, color, Pos(r, c))
    ensures forall r, c :: 0 <= r < 8 && 0 <= c < 8 ==> g[r, c] == AppliedCell(b, m, color, Pos(r, c))
  {
    if m.isEnPassant {
      g[m.from.row, m.to.col] := None;
    }
  }

  /**
   * applyMove: copy the board, move the piece, promote, move the castling rook,
   * remove the en-passant victim; record the captured piece and recompute the
   * rights from the initial rights.
   */
  method ApplyMove(b: Board, m: Move, color: Color) returns (o: Outcome)
    requires MoveOnBoard(m)
    ensures o == AfterMove(b, m, color)
  {
    var g := CopyBoard(b);
    var moving := g[m.from.row, m.from.col];
    if moving.None? {
      return Outcome(b, InitialRights(), m);
    }
    var p := moving.value;
    var captured: Option<Piece> := None;
    var original := b[m.to.row][m.to.col];
    if original.Some? && original.value.color != p.color {
      captured := original;
    }
    LandPiece(g, b, m, color);
    var rights := UpdateCastlingRightsForMove(InitialRights(), m, p, b);
    MoveCastlingRook(g, b, m, color);
    if m.isEnPassant {
      var victim := b[m.from.row][m.to.col];
      if victim.Some? && victim.value.color != p.color {
        captured := victim;
      }
    }
    ClearEnPassantSquare(g, b, m, color);
    var after := Snapshot(g);
    AfterMoveCells(b, m, color);
    SameBoard(after, AfterMove(b, m, color).board);
    o := Outcome(after, rights, m.(captured := captured));
  }

  /** Step 1 of revertMove: the piece on `to` goes back to `from`, as a pawn if the move promoted. */
  method PutMoverBack(g: array2<Square>, a: Board, m: Move)
    modifies g
    requires g.Length0 == 8 && g.Length1 == 8 && MoveOnBoard(m)
    requires forall r, c :: 0 <= r < 8 && 0 <= c < 8 ==> g[r, c] == a[r][c]
    ensures forall r, c :: 0 <= r < 8 && 0 <= c < 8 ==> g[r, c] == Unmoved(a, m, Pos(r, c))
  {
    var moving := g[m.to.row, m.to.col];
    if moving.Some? {
      var back := moving.value;
      if m.promotion.Some? {
        back := back.(kind := Pawn);
      }
      g[m.from.row, m.from.col] := Some(back);
      g[m.to.row, m.to.col] := None;
    }
  }

  /** Step 2: a recorded capture goes back on the en-passant square or on `to`. */
  method PutCaptureBack(g: array2<Square>, a: Board, m: Move)
    modifies g
    requires g.Length0 == 8 && g.Length1 == 8 && MoveOnBoard(m)
    requires forall r, c :: 0 <= r < 8 && 0 <= c < 8 ==> g[r, c] == Unmoved(a, m, Pos(r, c))
    ensures forall r, c :: 0 <= r < 8 && 0 <= c < 8 ==> g[r, c] == Restored(a, m, Pos(r, c))
  {
    if m.captured.Some? {
      if m.isEnPassant {
        g[m.from.row, m.to.col] := m.captured;
        g[m.to.row, m.to.col] := None;
      } else {
        g[m.to.row, m.to.col] := m.captured;
      }
    }
  }

  /** Step 3: for castling, the king is unmarked and the rook found beside it goes home unmoved. */
  method UndoCastling(g: array2<Square>, a: Board, m: Move)
    modifies g
    requires g.Length0 == 8 && g.Length1 == 8 && MoveOnBoard(m)
    requires forall r, c :: 0 <= r < 8 && 0 <= c < 8 ==> g[r, c] == Restored(a, m, Pos(r, c))
    ensures forall r, c :: 0 <= r < 8 && 0 <= c < 8 ==> g[r, c] == Uncastled(a, m, Pos(r, c))
  {
    if m.isCastling {
      var king := g[m.from.row, m.from.col];
      if king.Some? && king.value.kind == King {
        g[m.from.row, m.from.col] := Some(king.value.(hasMoved := false));
      }
      var row := m.from.row;
      if m.to.col == 6 {
        var rook := a[row][5];
        if rook.Some? && rook.value.kind == Rook {
          g[row, 7] := Some(rook.value.(hasMoved := false));
          g[row, 5] := None;
        }
        g[m.to.row, m.to.col] := None;
      } else if m.to.col == 2 {
        var rook := a[row][3];
        if rook.Some? && rook.value.kind == Rook {
          g[row, 0] := Some(rook.value.(hasMoved := false));
          g[row, 3] := None;
        }
        g[m.to.row, m.to.col] := None;
      }
    }
  }

  /** revertMove: the three steps on a copy of the board after the move. */
  method RevertMove(a: Board, m: Move) returns (r: Board)
    requires MoveOnBoard(m)
    ensures r == Reverted(a, m)
  {
    var g := CopyBoard(a);
    PutMoverBack(g, a, m);
    PutCaptureBack(g, a, m);
    UndoCastling(g, a, m);
    r := Snapshot(g);
    SameBoard(r, Reverted(a, m));
  }

  // ---------------------------------------------------------------------------
  // Move generation
  // ---------------------------------------------------------------------------

  /** The push shared by both branches of addMoveIfValid: the four promotions on the promotion rank, else one move. */
  method PushMove(moves: seq<Move>, from: Pos, to: Pos, promotionRank: Option<int>) returns (moves': seq<Move>)
    ensures moves' == moves + Expand(from, to, promotionRank)
  {
    if promotionRank == Some(to.row) {
      moves' := moves;
      for i := 0 to |PromotionPieces|
        invariant moves' == moves + Promotions(from, to)[..i]
      {
        moves' := moves' + [Promote(from, to, PromotionPieces[i])];
        assert Promotions(from, to)[..i + 1] == Promotions(from, to)[..i] + [Promotions(from, to)[i]];
      }
      assert Promotions(from, to)[..|PromotionPieces|] == Promotions(from, to);
    } else {
      moves' := moves + [Plain(from, to)];
    }
  }

  /** addMoveIfValid: append the moves onto `to` that the capture and non-capture flags allow. */
  method AddMoveIfValid(moves: seq<Move>, b: Board, from: Pos, to: Pos, color: Color,
                        captureOk: bool, nonCaptureOk: bool, promotionRank: Option<int>)
    returns (moves': seq<Move>)
    ensures moves' == moves + TargetMoves(b, from, to, color, captureOk, nonCaptureOk, promotionRank)
  {
    moves' := moves;
    if !OnBoard(to) {
      return;
    }
    var target := PieceAt(b, to);
    if target.Some? {
      if captureOk && target.value.color != color {
        moves' := PushMove(moves', from, to, promotionRank);
      }
    } else {
      if nonCaptureOk {
        moves' := PushMove(moves', from, to, promotionRank);
      }
    }
  }

  /** The push block of getPawnMoves: one step onto an empty square, and a second from the start row. */
  method AddPawnPushes(moves: seq<Move>, b: Board, pos: Pos, piece: Piece) returns (moves': seq<Move>)
    requires PieceAt(b, pos) == Some(piece) && piece.kind == Pawn
    ensures moves' == moves + PawnPushes(b, pos, piece.color)
  {
    moves' := moves;
    var direction := Forward(piece.color);
    var oneStep := Pos(pos.row + direction, pos.col);
    if OnBoard(oneStep) && PieceAt(b, oneStep).None? {
      moves' := AddMoveIfValid(moves', b, pos, oneStep, piece.color, false, true, Some(PromotionRow(piece.color)));
      if pos.row == StartRow(piece.color) {
        var twoSteps := Pos(pos.row + 2 * direction, pos.col);
        if OnBoard(twoSteps) && PieceAt(b, twoSteps).None? {
          moves' := AddMoveIfValid(moves', b, pos, twoSteps, piece.color, false, true, None);
        }
      }
    }
  }

  /** One step of the captureOffsets.forEach of getPawnMoves: the capture onto one forward diagonal. */
  method AddPawnCapture(moves: seq<Move>, b: Board, pos: Pos, piece: Piece, offset: int) returns (moves': seq<Move>)
    requires PieceAt(b, pos) == Some(piece) && piece.kind == Pawn
    ensures moves' == moves + PawnCapture(b, pos, piece.color, offset)
  {
    moves' := moves;
    var capturePos := Pos(pos.row + Forward(piece.color), pos.col + offset);
    if OnBoard(capturePos) {
      var target := PieceAt(b, capturePos);
      if target.Some? && target.value.color != piece.color {
        moves' := AddMoveIfValid(moves', b, pos, capturePos, piece.color, true, false, Some(PromotionRow(piece.color)));
      }
    }
  }

  /** The captureOffsets.forEach of getPawnMoves: a capture onto each forward diagonal holding an opposing piece. */
  method AddPawnCaptures(moves: seq<Move>, b: Board, pos: Pos, piece: Piece, offsets: seq<int>) returns (moves': seq<Move>)
    requires PieceAt(b, pos) == Some(piece) && piece.kind == Pawn
    ensures moves' == moves + PawnCaptures(b, pos, piece.color, offsets)
  {
    moves' := moves;
    for k := 0 to |offsets|
      invariant moves' == moves + PawnCaptures(b, pos, piece.color, offsets[..k])
    {
      assert offsets[..k + 1][..k] == offsets[..k];
      moves' := AddPawnCapture(moves', b, pos, piece, offsets[k]);
    }
    assert offsets[..|offsets|] == offsets;
  }

  /** The en-passant block of getPawnMoves. */
  method AddEnPassant(moves: seq<Move>, b: Board, pos: Pos, piece: Piece, last: Option<Move>) returns (moves': seq<Move>)
    requires LastOk(last) && PieceAt(b, pos) == Some(piece) && piece.kind == Pawn
    ensures moves' == moves + EnPassant(b, pos, piece.color, last)
  {
    moves' := moves;
    if last.Some? {
      var lm := last.value;
      var victim := b[lm.to.row][lm.to.col];
      if victim.Some? && victim.value.kind == Pawn && Abs(lm.from.row - lm.to.row) == 2 {
        if pos.row == lm.to.row && Abs(pos.col - lm.to.col) == 1 {
          var target := Pos(pos.row + Forward(piece.color), lm.to.col);
          if OnBoard(target) && PieceAt(b, target).None? {
            moves' := moves' + [EnPassantCapture(pos, target)];
          }
        }
      }
    }
  }

  /** getPawnMoves: pushes, the two diagonal captures, then en passant. */
  method GetPawnMoves(b: Board, pos: Pos, piece: Piece, last: Option<Move>) returns (moves: seq<Move>)
    requires LastOk(last) && PieceAt(b, pos) == Some(piece) && piece.kind == Pawn
    ensures moves == PawnMoves(b, pos, piece, last)
  {
    moves := AddPawnPushes([], b, pos, piece);
    moves := AddPawnCaptures(moves, b, pos, piece, CaptureOffsets);
    moves := AddEnPassant(moves, b, pos, piece, last);
  }

  /** getSlidingMoves: walk each direction until the edge or the first piece, taking an opposing one. */
  method GetSlidingMoves(b: Board, pos: Pos, piece: Piece, directions: seq<Offset>) returns (moves: seq<Move>)
    requires OnBoard(pos) && AllUnit(directions)
    ensures moves == SlidingMoves(b, pos, piece.color, directions)
  {
    moves := [];
    for k := 0 to |directions|
      invariant moves == SlidingMoves(b, pos, piece.color, directions[..k])
    {
      var d := directions[k];
      ghost var before := moves;
      var current := pos;
      while true
        invariant OnBoard(current)
        invariant moves + Ray(b, pos, piece.color, d, current) == before + Ray(b, pos, piece.color, d, pos)
        decreases Room(current, d)
      {
        var next := Shift(current, d);
        if !OnBoard(next) {
          break;
        }
        var target := PieceAt(b, next);
        if target.Some? {
          if target.value.color != piece.color {
            moves := moves + [Plain(pos, next)];
          }
          break;
        }
        moves := moves + [Plain(pos, next)];
        assert Ray(b, pos, piece.color, d, current) == [Plain(pos, next)] + Ray(b, pos, piece.color, d, next);
        current := next;
      }
      assert directions[..k + 1][..k] == directions[..k];
    }
    assert directions[..|directions|] == directions;
  }

  /** The forEach over knightOffsets or kingOffsets: addMoveIfValid for each offset, captures and quiet moves alike. */
  method AddOffsetMoves(moves: seq<Move>, b: Board, pos: Pos, color: Color, offsets: seq<Offset>)
    returns (moves': seq<Move>)
    ensures moves' == moves + OffsetMoves(b, pos, color, offsets)
  {
    moves' := moves;
    for k := 0 to |offsets|
      invariant moves' == moves + OffsetMoves(b, pos, color, offsets[..k])
    {
      moves' := AddMoveIfValid(moves', b, pos, Shift(pos, offsets[k]), color, true, true, None);
      assert offsets[..k + 1][..k] == offsets[..k];
    }
    assert offsets[..|offsets|] == offsets;
  }

  /** getKnightMoves */
  method GetKnightMoves(b: Board, pos: Pos, piece: Piece) returns (moves: seq<Move>)
    ensures moves == OffsetMoves(b, pos, piece.color, KnightOffsets)
  {
    moves := AddOffsetMoves([], b, pos, piece.color, KnightOffsets);
  }

  /**
   * getKingMoves: the eight steps, then, when castling is asked for and the king
   * is unmoved and not in check, the castling moves.
   */
  method GetKingMoves(b: Board, pos: Pos, piece: Piece, last: Option<Move>, rights: CastlingRights,
                      includeCastling: bool) returns (moves: seq<Move>)
    requires LastOk(last) && PieceAt(b, pos) == Some(piece) && piece.kind == King
    ensures moves == KingMoves(b, pos, piece, last, rights, includeCastling)
    decreases (if includeCastling then 1 else 0), 2
  {
    moves := AddOffsetMoves([], b, pos, piece.color, KingOffsets);
    if includeCastling && !piece.hasMoved {
      var inCheck := IsKingInCheck(b, piece.color, last, rights);
      if !inCheck {
        var castles := GetCastlingMoves(b, pos, piece, last, rights);
        moves := moves + castles;
        return;
      }
    }
    assert moves == moves + [];
  }

  /**
   * The castling block of getKingMoves: each wing whose right, unmoved rook,
   * empty squares and unattacked crossing squares allow it, kingside first.
   */
  method GetCastlingMoves(b: Board, pos: Pos, piece: Piece, last: Option<Move>, rights: CastlingRights)
    returns (castles: seq<Move>)
    requires LastOk(last) && PieceAt(b, pos) == Some(piece) && piece.kind == King && !piece.hasMoved
    ensures castles == CastlingMoves(b, pos, piece, last, rights)
    decreases 1, 1
  {
    var playerRights := if piece.color == White then rights.white else rights.black;
    var kingRow := pos.row;
    var opponent := Opponent(piece.color);
    var kingSide: seq<Move> := [];
    if playerRights.kingSide {
      var rook := PieceAt(b, Pos(kingRow, 7));
      if rook.Some? && rook.value.kind == Rook && !rook.value.hasMoved {
        if PieceAt(b, Pos(kingRow, 5)).None? && PieceAt(b, Pos(kingRow, 6)).None? {
          var attacked5 := IsSquareAttacked(b, Pos(kingRow, 5), opponent, last, rights);
          if !attacked5 {
            var attacked6 := IsSquareAttacked(b, Pos(kingRow, 6), opponent, last, rights);
            if !attacked6 {
              kingSide := [Castle(pos, Pos(kingRow, 6))];
            }
          }
        }
      }
    }
    var queenSide: seq<Move> := [];
    if playerRights.queenSide {
      var rook := PieceAt(b, Pos(kingRow, 0));
      if rook.Some? && rook.value.kind == Rook && !rook.value.hasMoved {
        if PieceAt(b, Pos(kingRow, 1)).None? && PieceAt(b, Pos(kingRow, 2)).None? &&
           PieceAt(b, Pos(kingRow, 3)).None? {
          var attacked2 := IsSquareAttacked(b, Pos(kingRow, 2), opponent, last, rights);
          if !attacked2 {
            var attacked3 := IsSquareAttacked(b, Pos(kingRow, 3), opponent, last, rights);
            if !attacked3 {
              queenSide := [Castle(pos, Pos(kingRow, 2))];
            }
          }
        }
      }
    }
    castles := kingSide + queenSide;
  }

  /** getPseudoLegalMovesForPiece: dispatch on the kind of the piece on `pos`. */
  method GetPseudoLegalMovesForPiece(b: Board, pos: Pos, last: Option<Move>, rights: CastlingRights,
                                     includeCastling: bool) returns (moves: seq<Move>)
    requires LastOk(last)
    ensures moves == PseudoLegalMoves(b, pos, last, rights, includeCastling)
    decreases (if includeCastling then 1 else 0), 3
  {
    var square := PieceAt(b, pos);
    if square.None? {
      return [];
    }
    var piece := square.value;
    assert OnBoard(pos);
    match piece.kind
    case Pawn => moves := GetPawnMoves(b, pos, piece, last);
    case Rook => moves := GetSlidingMoves(b, pos, piece, RookDirections);
    case Knight => moves := GetKnightMoves(b, pos, piece);
    case Bishop => moves := GetSlidingMoves(b, pos, piece, BishopDirections);
    case Queen => moves := GetSlidingMoves(b, pos, piece, QueenDirections);
    case King => moves := GetKingMoves(b, pos, piece, last, rights, includeCastling);
  }

  // ---------------------------------------------------------------------------
  // Attack, check and findKing
  // ---------------------------------------------------------------------------

  /**
   * isSquareAttacked: scan the board for a piece of `attacker` that attacks
   * `target`; a pawn by its two forward diagonals, any other piece by its
   * pseudo-legal moves without castling.
   */
  method IsSquareAttacked(b: Board, target: Pos, attacker: Color, last: Option<Move>, rights: CastlingRights)
    returns (attacked: bool)
    requires LastOk(last)
    ensures attacked == SquareAttacked(b, target, attacker, last, rights)
    decreases 0, 6
  {
    for r := 0 to 8
      invariant forall i, j :: 0 <= i < r && 0 <= j < 8 ==> !AttacksFrom(b, Pos(i, j), target, attacker, last, rights)
    {
      for c := 0 to 8
        invariant forall i, j :: 0 <= i < r && 0 <= j < 8 ==> !AttacksFrom(b, Pos(i, j), target, attacker, last, rights)
        invariant forall j :: 0 <= j < c ==> !AttacksFrom(b, Pos(r, j), target, attacker, last, rights)
      {
        var piece := b[r][c];
        assert piece == PieceAt(b, Pos(r, c));
        if piece.Some? && piece.value.color == attacker {
          if piece.value.kind == Pawn {
            var direction := Forward(piece.value.color);
            for k := 0 to |CaptureOffsets|
              invariant forall j :: 0 <= j < k ==> !(target.row == r + direction && target.col == c + CaptureOffsets[j])
            {
              if target.row == r + direction && target.col == c + CaptureOffsets[k] {
                assert AttacksFrom(b, Pos(r, c), target, attacker, last, rights);
                return true;
              }
            }
            assert !(target.row == r + direction && target.col == c + CaptureOffsets[0]);
            assert !(target.row == r + direction && target.col == c + CaptureOffsets[1]);
          } else {
            var moves := GetPseudoLegalMovesForPiece(b, Pos(r, c), last, rights, false);
            if Hits(moves, target) {
              assert AttacksFrom(b, Pos(r, c), target, attacker, last, rights);
              return true;
            }
          }
        }
      }
    }
    return false;
  }

  /** findKing: the first king of `color` in row-major order. */
  method FindKing(b: Board, color: Color) returns (k: Option<Pos>)
    ensures k == KingSquare(b, color)
  {
    for r := 0 to 8
      invariant forall q :: OnBoard(q) && q.row < r ==> !IsKingOf(b, q, color)
    {
      for c := 0 to 8
        invariant forall q :: OnBoard(q) && q.row < r ==> !IsKingOf(b, q, color)
        invariant forall j :: 0 <= j < c ==> !IsKingOf(b, Pos(r, j), color)
      {
        var piece := b[r][c];
        if piece.Some? && piece.value.kind == King && piece.value.color == color {
          FirstKingIsKingSquare(b, color, Pos(r, c));
          return Some(Pos(r, c));
        }
        assert !IsKingOf(b, Pos(r, c), color);
      }
    }
    KingSquareIsFirstKing(b, color);
    return None;
  }

  /** The scan of isKingInCheck: some piece of `attacker` has a pseudo-legal move (castling excluded) onto `k`. */
  method ScanForThreat(b: Board, k: Pos, attacker: Color, last: Option<Move>, rights: CastlingRights)
    returns (threatened: bool)
    requires LastOk(last)
    ensures threatened == Threatened(b, k, attacker, last, rights)
    decreases 0, 5
  {
    for r := 0 to 8
      invariant forall i, j :: 0 <= i < r && 0 <= j < 8 ==> !Threatens(b, Pos(i, j), k, attacker, last, rights)
    {
      for c := 0 to 8
        invariant forall i, j :: 0 <= i < r && 0 <= j < 8 ==> !Threatens(b, Pos(i, j), k, attacker, last, rights)
        invariant forall j :: 0 <= j < c ==> !Threatens(b, Pos(r, j), k, attacker, last, rights)
      {
        var piece := b[r][c];
        assert piece == PieceAt(b, Pos(r, c));
        if piece.Some? && piece.value.color == attacker {
          var moves := GetPseudoLegalMovesForPiece(b, Pos(r, c), last, rights, false);
          if Hits(moves, k) {
            assert Threatens(b, Pos(r, c), k, attacker, last, rights);
            return true;
          }
        }
      }
    }
    return false;
  }

  /** isKingInCheck: find the king; without one the answer is false, otherwise scan for an opposing threat. */
  method IsKingInCheck(b: Board, color: Color, last: Option<Move>, rights: CastlingRights) returns (check: bool)
    requires LastOk(last)
    ensures check == KingInCheck(b, color, last, rights)
    decreases 0, 6
  {
    var kingPos := FindKing(b, color);
    if kingPos.None? {
      return false;
    }
    check := ScanForThreat(b, kingPos.value, Opponent(color), last, rights);
  }

  // ---------------------------------------------------------------------------
  // Legal moves, checkmate and stalemate
  // ---------------------------------------------------------------------------

  /** The `filter` of getValidMoves: apply each move to a copy and keep it when the mover's king is then safe. */
  method KeepSafeMoves(b: Board, color: Color, last: Option<Move>, rights: CastlingRights, pseudo: seq<Move>)
    returns (legal: seq<Move>)
    requires LastOk(last) && AllOnBoard(pseudo)
    ensures legal == Filter(pseudo, KingSafeAfter(b, color, last, rights))
  {
    legal := [];
    for i := 0 to |pseudo|
      invariant legal == Filter(pseudo[..i], KingSafeAfter(b, color, last, rights))
    {
      assert pseudo[..i + 1][..i] == pseudo[..i];
      var o := ApplyMove(b, pseudo[i], color);
      var check := IsKingInCheck(o.board, color, last, rights);
      if !check {
        legal := legal + [pseudo[i]];
      }
    }
    assert pseudo[..|pseudo|] == pseudo;
  }

  /**
   * getValidMoves: nothing unless `pos` holds a piece of `color`; otherwise the
   * pseudo-legal moves (castling included) after which the mover's king is not
   * in check.
   */
  method GetValidMoves(b: Board, pos: Pos, color: Color, last: Option<Move>, rights: CastlingRights)
    returns (legal: seq<Move>)
    requires LastOk(last)
    ensures legal == LegalMoves(b, pos, color, last, rights)
  {
    var piece := PieceAt(b, pos);
    if piece.None? || piece.value.color != color {
      return [];
    }
    var pseudo := GetPseudoLegalMovesForPiece(b, pos, last, rights, true);
    PseudoLegalOnBoard(b, pos, last, rights, true);
    legal := KeepSafeMoves(b, color, last, rights, pseudo);
  }

  /** One row of getAllPossibleMovesForPlayer: the legal moves of the pieces of `color` on row `r`. */
  method AddRowMoves(all: seq<Move>, b: Board, color: Color, last: Option<Move>, rights: CastlingRights, r: int)
    returns (all': seq<Move>)
    requires LastOk(last) && 0 <= r < 8
    ensures all' == all + RowMoves(MovesOf(b, color, last, rights), r, 8)
  {
    all' := all;
    for c := 0 to 8
      invariant all' == all + RowMoves(MovesOf(b, color, last, rights), r, c)
    {
      var moves := MovesAtSquare(b, Pos(r, c), color, last, rights);
      RowMovesStep(MovesOf(b, color, last, rights), r, c, all, all', moves);
      all' := all' + moves;
    }
  }

  /** The body of the inner loop of getAllPossibleMovesForPlayer: a piece of `color` contributes its legal moves. */
  method MovesAtSquare(b: Board, pos: Pos, color: Color, last: Option<Move>, rights: CastlingRights) returns (moves: seq<Move>)
    requires LastOk(last) && OnBoard(pos)
    ensures moves == MovesOf(b, color, last, rights)(pos)
  {
    var piece := b[pos.row][pos.col];
    assert piece == PieceAt(b, pos);
    moves := [];
    if piece.Some? && piece.value.color == color {
      moves := GetValidMoves(b, pos, color, last, rights);
    }
  }

  /** getAllPossibleMovesForPlayer: the legal moves of every piece of `color`, scanning rows then columns. */
  method GetAllPossibleMovesForPlayer(b: Board, color: Color, last: Option<Move>, rights: CastlingRights)
    returns (all: seq<Move>)
    requires LastOk(last)
    ensures all == AllLegalMoves(b, color, last, rights)
  {
    all := [];
    for r := 0 to 8
      invariant all == MovesBeforeRow(MovesOf(b, color, last, rights), r)
    {
      all := AddRowMoves(all, b, color, last, rights, r);
    }
  }

  /** isCheckmate: in check, and no legal move. */
  method IsCheckmate(b: Board, color: Color, last: Option<Move>, rights: CastlingRights) returns (mate: bool)
    requires LastOk(last)
    ensures mate == Checkmate(b, color, last, rights)
  {
    var check := IsKingInCheck(b, color, last, rights);
    if !check {
      return false;
    }
    var possible := GetAllPossibleMovesForPlayer(b, color, last, rights);
    return |possible| == 0;
  }

  /** isStalemate: not in check, and no legal move. */
  method IsStalemate(b: Board, color: Color, last: Option<Move>, rights: CastlingRights) returns (stale: bool)
    requires LastOk(last)
    ensures stale == Stalemate(b, color, last, rights)
  {
    var check := IsKingInCheck(b, color, last, rights);
    if check {
      return false;
    }
    var possible := GetAllPossibleMovesForPlayer(b, color, last, rights);
    return |possible| == 0;
  }
}
