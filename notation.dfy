/**
 * The coordinate notation at the end of services/chessLogic.ts:
 * algebraicToPosition, positionToAlgebraic, moveToAlgebraic and
 * parseAlgebraicMove. Squares are written file then rank, a move as
 * from-square, to-square and an optional promotion letter. The printer uses
 * the Hebrew file letters of HEBREW_FILES; the parser accepts the Latin
 * letters a to h.
 */
module Notation {
  import opened Wrappers
  import opened ChessTypes
  import opened Constants

  predicate IsDigit(ch: char)
  {
    '0' <= ch <= '9'
  }

  /** `/^[a-h]$/` on one character. */
  predicate IsFileLetter(ch: char)
  {
    'a' <= ch <= 'h'
  }

  /** `/^[1-8]$/` on one character. */
  predicate IsRankDigit(ch: char)
  {
    '1' <= ch <= '8'
  }

  predicate AllDigits(s: string)
  {
    forall i :: 0 <= i < |s| ==> IsDigit(s[i])
  }

  function DigitValue(ch: char): int
  {
    ch as int - '0' as int
  }

  function DigitChar(d: int): char
    requires 0 <= d < 10
  {
    ('0' as int + d) as char
  }

  /** The value `parseInt(s, 10)` gives for a non-empty string of decimal digits. */
  function DecimalValue(s: string): nat
    requires AllDigits(s)
  {
    if s == [] then 0 else 10 * DecimalValue(s[..|s| - 1]) + DigitValue(s[|s| - 1])
  }

  /** The decimal digits of `n`, most significant first, as a template string prints a non-negative integer. */
  function NatToDecimal(n: nat): (s: string)
    ensures |s| >= 1 && AllDigits(s)
  {
    if n < 10 then [DigitChar(n)] else NatToDecimal(n / 10) + [DigitChar(n % 10)]
  }

  /** Printing then reading back a natural number gives the number again. */
  lemma {:induction false} DecimalRoundTrip(n: nat)
    ensures DecimalValue(NatToDecimal(n)) == n
  {
    var s := NatToDecimal(n);
    if n >= 10 {
      DecimalRoundTrip(n / 10);
      assert s[..|s| - 1] == NatToDecimal(n / 10);
    }
  }

  /** How a template string prints an integer: a minus sign before the digits of a negative one. */
  function IntToDecimal(n: int): string
  {
    if n < 0 then "-" + NatToDecimal(-n) else NatToDecimal(n)
  }

  /**
   * algebraicToPosition: the column is the file's code point less that of `a`,
   * the row is 8 less the rank read as a decimal number. The callers in this
   * file only pass a file letter followed by one rank digit.
   */
  function AlgebraicToPosition(alg: string): (p: Pos)
    requires |alg| >= 2 && AllDigits(alg[1..])
    ensures |alg| == 2 && IsFileLetter(alg[0]) && IsRankDigit(alg[1]) ==>
              OnBoard(p) && p.col == alg[0] as int - 'a' as int && p.row == 8 - DigitValue(alg[1])
  {
    var rank := alg[1..];
    assert |alg| == 2 ==> rank[..|rank| - 1] == [] && DecimalValue(rank) == DigitValue(alg[1]);
    Pos(8 - DecimalValue(rank), alg[0] as int - 'a' as int)
  }

  /** The Latin name of an on-board square (file a to h, rank 1 to 8), the form the parser reads. */
  function SquareName(p: Pos): (s: string)
    requires OnBoard(p)
    ensures |s| == 2 && IsFileLetter(s[0]) && IsRankDigit(s[1])
  {
    [('a' as int + p.col) as char, DigitChar(8 - p.row)]
  }

  /** algebraicToPosition inverts the Latin naming of squares, in both directions. */
  lemma SquareNameRoundTrip(p: Pos, s: string)
    ensures OnBoard(p) ==> AlgebraicToPosition(SquareName(p)) == p
    ensures |s| == 2 && IsFileLetter(s[0]) && IsRankDigit(s[1]) ==> SquareName(AlgebraicToPosition(s)) == s
  {
  }

  /**
   * positionToAlgebraic: the empty string for a column outside the table of
   * Hebrew files; otherwise the column's Hebrew letter followed by the rank
   * 8 - row in decimal (whatever the row).
   */
  function PositionToAlgebraic(p: Pos): (s: string)
    ensures s == "" <==> p.col < 0 || p.col >= 8
    ensures s != "" ==> s[0] == HebrewFiles[p.col] && !IsFileLetter(s[0])
    ensures OnBoard(p) ==> |s| == 2 && s[1] == DigitChar(8 - p.row)
  {
    if p.col < 0 || p.col >= |HebrewFiles| then ""
    else [HebrewFiles[p.col]] + IntToDecimal(8 - p.row)
  }

  /** Distinct squares of the board get distinct names. */
  lemma PositionNamesDistinct(p: Pos, q: Pos)
    requires OnBoard(p) && OnBoard(q) && PositionToAlgebraic(p) == PositionToAlgebraic(q)
    ensures p == q
  {
    TableSizes();
    var s := PositionToAlgebraic(p);
    assert HebrewFiles[p.col] == s[0] == HebrewFiles[q.col];
    assert DigitChar(8 - p.row) == s[1] == DigitChar(8 - q.row);
  }

  /** The promotion letter moveToAlgebraic appends: the symbol in lower case. */
  function PromotionSuffix(promotion: Option<Kind>): string
  {
    if promotion.Some? then [LowerSymbol(promotion.value)] else ""
  }

  /** moveToAlgebraic: both squares as positionToAlgebraic writes them, then the promotion letter in lower case. */
  function MoveToAlgebraic(m: Move): (s: string)
    ensures OnBoard(m.from) && OnBoard(m.to) ==>
              |s| == (if m.promotion.Some? then 5 else 4) &&
              s[..2] == PositionToAlgebraic(m.from) && s[2..4] == PositionToAlgebraic(m.to) &&
              (m.promotion.Some? ==> s[4] == LowerSymbol(m.promotion.value))
  {
    PositionToAlgebraic(m.from) + PositionToAlgebraic(m.to) + PromotionSuffix(m.promotion)
  }

  /** `toUpperCase` on the characters whose upper case is one of Q, R, B, N: the ASCII letters. */
  function ToUpper(ch: char): char
  {
    if 'a' <= ch <= 'z' then (ch as int - 32) as char else ch
  }

  /** `['Q', 'R', 'B', 'N'].includes(promoChar)`, giving the promoted kind. */
  function PromotionFromLetter(ch: char): (k: Option<Kind>)
    ensures k.Some? <==> ch in "qrbnQRBN"
    ensures k.Some? ==> k.value in PromotionPieces && Symbol(k.value) == ToUpper(ch)
  {
    match ToUpper(ch)
    case 'Q' => Some(Queen)
    case 'R' => Some(Rook)
    case 'B' => Some(Bishop)
    case 'N' => Some(Knight)
    case _ => None
  }

  /** The text parseAlgebraicMove accepts: four or five characters, two Latin squares, then a promotion letter. */
  predicate WellFormedMoveText(s: string)
  {
    (|s| == 4 || |s| == 5) &&
    IsFileLetter(s[0]) && IsRankDigit(s[1]) && IsFileLetter(s[2]) && IsRankDigit(s[3]) &&
    (|s| == 5 ==> s[4] in "qrbnQRBN")
  }

  /**
   * parseAlgebraicMove: null for a length other than 4 or 5, for a file outside
   * a to h or a rank outside 1 to 8, and for a fifth character whose upper case
   * is not Q, R, B or N; otherwise the move between the two squares, with the
   * promotion when there is a fifth character and no other flag set.
   */
  function ParseAlgebraicMove(s: string): (r: Option<Move>)
    ensures r.Some? <==> WellFormedMoveText(s)
    ensures r.Some? ==>
              OnBoard(r.value.from) && OnBoard(r.value.to) &&
              r.value.from == Pos(8 - DigitValue(s[1]), s[0] as int - 'a' as int) &&
              r.value.to == Pos(8 - DigitValue(s[3]), s[2] as int - 'a' as int) &&
              (r.value.promotion.Some? <==> |s| == 5) &&
              (|s| == 5 ==> Symbol(r.value.promotion.value) == ToUpper(s[4])) &&
              !r.value.isCastling && !r.value.isEnPassant && r.value.captured.None?
  {
    if |s| < 4 || |s| > 5 then None
    else if !IsFileLetter(s[0]) || !IsRankDigit(s[1]) || !IsFileLetter(s[2]) || !IsRankDigit(s[3]) then None
    else
      var from := AlgebraicToPosition(s[0..2]);
      var to := AlgebraicToPosition(s[2..4]);
      if |s| == 5 then
        match PromotionFromLetter(s[4])
        case None => None
        case Some(k) => Some(Move(from, to, Some(k), false, false, None))
      else Some(Move(from, to, None, false, false, None))
  }

  /**
   * What moveToAlgebraic prints is never accepted by parseAlgebraicMove: a
   * printed move either starts with a Hebrew file letter or is too short.
   */
  lemma PrintedMoveRejected(m: Move)
    ensures ParseAlgebraicMove(MoveToAlgebraic(m)) == None
  {
    var s := MoveToAlgebraic(m);
    var from := PositionToAlgebraic(m.from);
    var to := PositionToAlgebraic(m.to);
    if from != "" {
      assert s[0] == from[0];
    } else if to != "" {
      assert s[0] == to[0];
    } else {
      assert |s| <= 1;
    }
  }

  /** The same move written with Latin files a to h and a lower-case promotion letter. */
  function MoveToLatin(m: Move): (s: string)
    requires OnBoard(m.from) && OnBoard(m.to)
    ensures |s| == (if m.promotion.Some? then 5 else 4)
  {
    SquareName(m.from) + SquareName(m.to) + PromotionSuffix(m.promotion)
  }

  /**
   * Moves written with Latin files are read back: the ends and the promotion
   * (when it is one of Q, R, B, N) come back, with no other flag set; and any
   * text the parser accepts is the Latin spelling of the move it yields, up to
   * the case of the promotion letter.
   */
  lemma LatinRoundTrip(m: Move, s: string)
    ensures OnBoard(m.from) && OnBoard(m.to) && (m.promotion.None? || m.promotion.value in PromotionPieces) ==>
              ParseAlgebraicMove(MoveToLatin(m)) == Some(Move(m.from, m.to, m.promotion, false, false, None))
    ensures ParseAlgebraicMove(s).Some? ==>
              var t := MoveToLatin(ParseAlgebraicMove(s).value);
              |t| == |s| && t[..4] == s[..4] && (|s| == 5 ==> ToUpper(t[4]) == ToUpper(s[4]))
  {
    if OnBoard(m.from) && OnBoard(m.to) && (m.promotion.None? || m.promotion.value in PromotionPieces) {
      var t := MoveToLatin(m);
      SquareNameRoundTrip(m.from, t[0..2]);
      SquareNameRoundTrip(m.to, t[2..4]);
      assert t[0..2] == SquareName(m.from) && t[2..4] == SquareName(m.to);
    }
    if ParseAlgebraicMove(s).Some? {
      var mv := ParseAlgebraicMove(s).value;
      var t := MoveToLatin(mv);
      SquareNameRoundTrip(mv.from, s[0..2]);
      SquareNameRoundTrip(mv.to, s[2..4]);
      assert t[..4] == SquareName(mv.from) + SquareName(mv.to);
    }
  }
}
