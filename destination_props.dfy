/**
 * Where the per-piece generators of services/chessLogic.ts land, in both
 * directions: a move is generated onto a square exactly when the piece's rule
 * reaches that square. Sliding pieces reach every square along a direction up to
 * and including the first piece, when that piece is an opponent's; knights and
 * kings reach each offset square not held by their own side; pawns push one
 * square onto an empty square, two from their start row, and capture en passant
 * behind a pawn that has just advanced two rows beside them.
 */
module DestinationProps {
  import opened Wrappers
  import opened ChessTypes
  import opened MoveRules

  // ---------------------------------------------------------------------------
  // Sliding pieces
  // ---------------------------------------------------------------------------

  /** The square `k` steps from `p` in direction `d`. */
  function Step(p: Pos, d: Offset, k: int): Pos
  {
    Pos(p.row + k * d.dr, p.col + k * d.dc)
  }

  /** The squares strictly between `p` and `k` steps along `d` are all empty. */
  predicate PathClear(b: Board, p: Pos, d: Offset, k: int)
  {
    forall j :: 1 <= j < k ==> IsEmpty(b, Step(p, d, j))
  }

  /**
   * `t` lies some `k >= 1` steps from `p` along `d`, on the board, not held by
   * `color`, with every square before it empty.
   */
  ghost predicate OnRay(b: Board, p: Pos, color: Color, d: Offset, t: Pos)
  {
    exists k :: 1 <= k && t == Step(p, d, k) && OnBoard(t) && !Owns(b, t, color) && PathClear(b, p, d, k)
  }

  lemma StepShift(p: Pos, d: Offset, k: int)
    ensures Step(Shift(p, d), d, k) == Step(p, d, k + 1)
  {
    assert (k + 1) * d.dr == k * d.dr + d.dr;
    assert (k + 1) * d.dc == k * d.dc + d.dc;
  }

  /** Once one step along a direction leaves the board, every further step does too. */
  lemma StepOff(p: Pos, d: Offset, k: int)
    requires OnBoard(p) && IsUnit(d) && !OnBoard(Shift(p, d)) && 1 <= k
    ensures !OnBoard(Step(p, d, k))
  {
    if d.dr == 1 { assert k * d.dr == k; } else if d.dr == -1 { assert k * d.dr == -k; }
    if d.dc == 1 { assert k * d.dc == k; } else if d.dc == -1 { assert k * d.dc == -k; }
  }

  /** Nothing is on the ray once its first step leaves the board. */
  lemma RayOffBoard(b: Board, cur: Pos, color: Color, d: Offset, t: Pos)
    requires OnBoard(cur) && IsUnit(d) && !OnBoard(Shift(cur, d))
    ensures !OnRay(b, cur, color, d, t)
  {
    if OnRay(b, cur, color, d, t) {
      var k :| 1 <= k && t == Step(cur, d, k) && OnBoard(t) && !Owns(b, t, color) && PathClear(b, cur, d, k);
      StepOff(cur, d, k);
    }
  }

  /** A piece on the first step ends the ray there: only that square is on it, and only if it is not `color`'s. */
  lemma RayBlocked(b: Board, cur: Pos, color: Color, d: Offset, t: Pos)
    requires OnBoard(Shift(cur, d)) && !IsEmpty(b, Shift(cur, d))
    ensures OnRay(b, cur, color, d, t) <==> t == Shift(cur, d) && !Owns(b, t, color)
  {
    StepShift(cur, d, 0);
    if OnRay(b, cur, color, d, t) {
      var k :| 1 <= k && t == Step(cur, d, k) && OnBoard(t) && !Owns(b, t, color) && PathClear(b, cur, d, k);
      assert k == 1;
    }
    if t == Shift(cur, d) && !Owns(b, t, color) {
      assert PathClear(b, cur, d, 1);
    }
  }

  /** An empty first step continues the ray: it holds that square and the ray beyond it. */
  lemma RayOpen(b: Board, cur: Pos, color: Color, d: Offset, t: Pos)
    requires OnBoard(Shift(cur, d)) && IsEmpty(b, Shift(cur, d))
    ensures OnRay(b, cur, color, d, t) <==> t == Shift(cur, d) || OnRay(b, Shift(cur, d), color, d, t)
  {
    var next := Shift(cur, d);
    StepShift(cur, d, 0);
    if t == next {
      assert PathClear(b, cur, d, 1);
    }
    if OnRay(b, next, color, d, t) {
      var k :| 1 <= k && t == Step(next, d, k) && OnBoard(t) && !Owns(b, t, color) && PathClear(b, next, d, k);
      StepShift(cur, d, k);
      forall j | 1 <= j < k + 1
        ensures IsEmpty(b, Step(cur, d, j))
      {
        if j > 1 {
          StepShift(cur, d, j - 1);
        }
      }
      assert PathClear(b, cur, d, k + 1);
    }
    if OnRay(b, cur, color, d, t) && t != next {
      var k :| 1 <= k && t == Step(cur, d, k) && OnBoard(t) && !Owns(b, t, color) && PathClear(b, cur, d, k);
      StepShift(cur, d, k - 1);
      forall j | 1 <= j < k - 1
        ensures IsEmpty(b, Step(next, d, j))
      {
        StepShift(cur, d, j);
      }
      assert PathClear(b, next, d, k - 1);
    }
  }

  /** The ray from `cur` holds a move onto `t` exactly when `t` is on the ray from `cur`. */
  lemma {:induction false} RayExactly(b: Board, from: Pos, color: Color, d: Offset, cur: Pos, t: Pos)
    requires OnBoard(cur) && IsUnit(d)
    ensures Plain(from, t) in Ray(b, from, color, d, cur) <==> OnRay(b, cur, color, d, t)
    decreases Room(cur, d)
  {
    var next := Shift(cur, d);
    if !OnBoard(next) {
      RayOffBoard(b, cur, color, d, t);
    } else if PieceAt(b, next).Some? {
      RayBlocked(b, cur, color, d, t);
    } else {
      RayExactly(b, from, color, d, next, t);
      RayOpen(b, cur, color, d, t);
    }
  }

  /**
   * A sliding piece's moves hold a move onto `t` exactly when `t` is on the ray
   * from `pos` in one of its directions.
   */
  lemma {:induction false} SlidingExactly(b: Board, pos: Pos, color: Color, dirs: seq<Offset>, t: Pos)
    requires OnBoard(pos) && AllUnit(dirs)
    ensures Plain(pos, t) in SlidingMoves(b, pos, color, dirs) <==>
            exists i :: 0 <= i < |dirs| && OnRay(b, pos, color, dirs[i], t)
  {
    if dirs != [] {
      var init, d := dirs[..|dirs| - 1], dirs[|dirs| - 1];
      SlidingExactly(b, pos, color, init, t);
      RayExactly(b, pos, color, d, pos, t);
      if exists i :: 0 <= i < |dirs| && OnRay(b, pos, color, dirs[i], t) {
        var i :| 0 <= i < |dirs| && OnRay(b, pos, color, dirs[i], t);
        if i < |init| {
          assert init[i] == dirs[i];
        }
      }
      if exists i :: 0 <= i < |init| && OnRay(b, pos, color, init[i], t) {
        var i :| 0 <= i < |init| && OnRay(b, pos, color, init[i], t);
        assert dirs[i] == init[i];
      }
    }
  }

  // ---------------------------------------------------------------------------
  // Knights and kings
  // ---------------------------------------------------------------------------

  /** addMoveIfValid with both kinds of move allowed and no promotion: one plain move, when `to` is open to `color`. */
  lemma OpenTarget(b: Board, from: Pos, to: Pos, color: Color)
    ensures TargetMoves(b, from, to, color, true, true, None) ==
            if OnBoard(to) && !Owns(b, to, color) then [Plain(from, to)] else []
  {
  }

  /** A knight's or king's step moves hold a move onto `t` exactly when `t` is an offset square not held by `color`. */
  lemma {:induction false} OffsetExactly(b: Board, pos: Pos, color: Color, offsets: seq<Offset>, t: Pos)
    ensures Plain(pos, t) in OffsetMoves(b, pos, color, offsets) <==>
            (exists i :: 0 <= i < |offsets| && t == Shift(pos, offsets[i])) && OnBoard(t) && !Owns(b, t, color)
  {
    if offsets != [] {
      var init, o := offsets[..|offsets| - 1], offsets[|offsets| - 1];
      OffsetExactly(b, pos, color, init, t);
      OpenTarget(b, pos, Shift(pos, o), color);
      if exists i :: 0 <= i < |offsets| && t == Shift(pos, offsets[i]) {
        var i :| 0 <= i < |offsets| && t == Shift(pos, offsets[i]);
        if i < |init| {
          assert init[i] == offsets[i];
        }
      }
      if exists i :: 0 <= i < |init| && t == Shift(pos, init[i]) {
        var i :| 0 <= i < |init| && t == Shift(pos, init[i]);
        assert offsets[i] == init[i];
      }
    }
  }

  // ---------------------------------------------------------------------------
  // Pawns
  // ---------------------------------------------------------------------------

  /**
   * A pawn's pushes reach `t` exactly when `t` is the empty square in front of
   * it, or, from its start row with that square empty, the empty square two
   * rows ahead.
   */
  lemma PushesExactly(b: Board, pos: Pos, color: Color, t: Pos)
    requires IsPawnOf(b, pos, color)
    ensures var one, two := Pos(pos.row + Forward(color), pos.col), Pos(pos.row + 2 * Forward(color), pos.col);
            Hits(PawnPushes(b, pos, color), t) <==>
            (t == one && OnBoard(one) && IsEmpty(b, one)) ||
            (t == two && pos.row == StartRow(color) && OnBoard(one) && IsEmpty(b, one) &&
             OnBoard(two) && IsEmpty(b, two))
  {
    var one, two := Pos(pos.row + Forward(color), pos.col), Pos(pos.row + 2 * Forward(color), pos.col);
    if OnBoard(one) && IsEmpty(b, one) {
      var a := TargetMoves(b, pos, one, color, false, true, Some(PromotionRow(color)));
      var c := if pos.row == StartRow(color) && OnBoard(two) && IsEmpty(b, two)
               then TargetMoves(b, pos, two, color, false, true, None) else [];
      var r := a + c;
      assert PawnPushes(b, pos, color) == r;
      if Hits(r, t) {
        var i :| 0 <= i < |r| && r[i].to == t;
        if i >= |a| {
          assert c[i - |a|] == r[i];
        }
      }
      if t == one {
        assert r[0] == a[0];
      }
      if t == two && pos.row == StartRow(color) && OnBoard(two) && IsEmpty(b, two) {
        assert r[|a|] == c[0];
      }
    }
  }

  /**
   * The en-passant capture onto `t` is generated exactly when the previous move
   * advanced a pawn two rows onto the square beside this pawn, and `t` is the
   * empty square behind it.
   */
  lemma EnPassantExactly(b: Board, pos: Pos, color: Color, last: Option<Move>, t: Pos)
    requires LastOk(last) && IsPawnOf(b, pos, color)
    ensures EnPassantCapture(pos, t) in EnPassant(b, pos, color, last) <==>
            last.Some? && PieceAt(b, last.value.to).Some? && PieceAt(b, last.value.to).value.kind == Pawn &&
            Abs(last.value.from.row - last.value.to.row) == 2 &&
            pos.row == last.value.to.row && Abs(pos.col - last.value.to.col) == 1 &&
            t == Pos(pos.row + Forward(color), last.value.to.col) && OnBoard(t) && IsEmpty(b, t)
  {
  }

  /** Among all of a pawn's moves, the en-passant captures are exactly those of the en-passant rule. */
  lemma PawnEnPassantExactly(b: Board, pos: Pos, piece: Piece, last: Option<Move>, t: Pos)
    requires LastOk(last) && PieceAt(b, pos) == Some(piece) && piece.kind == Pawn
    ensures EnPassantCapture(pos, t) in PawnMoves(b, pos, piece, last) <==>
            EnPassantCapture(pos, t) in EnPassant(b, pos, piece.color, last)
  {
    var m := EnPassantCapture(pos, t);
    assert m !in PawnPushes(b, pos, piece.color);
    assert m !in PawnCaptures(b, pos, piece.color, CaptureOffsets);
  }
}
