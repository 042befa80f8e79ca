/**
 * The two pure pieces of services/geminiService.ts: boardToString, the text
 * picture of the board sent to the move-suggestion model, and the test that a
 * parsed reply names one of the listed legal moves.
 */
module Prompt {
  import opened Wrappers
  import opened ChessTypes
  import opened Notation

  /** The header line, files a to h. */
  const Header: string := "  a b c d e f g h\n"

  /** The board turned half round: rows and columns both reversed. */
  function HalfTurn(b: Board): (v: Board)
    ensures forall r, c :: 0 <= r < 8 && 0 <= c < 8 ==> v[r][c] == b[7 - r][7 - c]
  {
    seq(8, r requires 0 <= r < 8 => seq(8, c requires 0 <= c < 8 => b[7 - r][7 - c]))
  }

  /** Turning the board half round twice gives it back. */
  lemma HalfTurnTwice(b: Board)
    ensures HalfTurn(HalfTurn(b)) == b
  {
    SameBoard(HalfTurn(HalfTurn(b)), b);
  }

  /** The board square shown at (r, c) of the view: itself from white's side, its mirror through the centre from black's. */
  function Shown(perspective: Color, r: int, c: int): Pos
  {
    if perspective == White then Pos(r, c) else Pos(7 - r, 7 - c)
  }

  /**
   * viewBoard: the board as is from white's side, turned half round from
   * black's; square (r, c) of the view holds what the board holds on the square
   * shown there.
   */
  function View(b: Board, perspective: Color): (view: Board)
    ensures forall r, c :: 0 <= r < 8 && 0 <= c < 8 ==> view[r][c] == PieceAt(b, Shown(perspective, r, c))
  {
    if perspective == White then b else HalfTurn(b)
  }

  /** The rank label of line r: 8 - r from white's side, r + 1 from black's. */
  function RankLabel(perspective: Color, r: int): char
    requires 0 <= r < 8
  {
    DigitChar(if perspective == White then 8 - r else r + 1)
  }

  /** A square's text: ". " when empty, else the piece letter (lower case for black) and a space. */
  function Glyph(sq: Square): string
  {
    match sq
    case None => ". "
    case Some(p) => [if p.color == Black then LowerSymbol(p.kind) else Symbol(p.kind), ' ']
  }

  /** The text of the first n squares of a row. */
  function Cells(row: seq<Square>, n: int): (text: string)
    requires 0 <= n <= |row|
    ensures |text| == 2 * n
  {
    if n == 0 then "" else Cells(row, n - 1) + Glyph(row[n - 1])
  }

  /** Line r: its rank label, a space, the eight squares of the view's row r and a line break. */
  function Line(view: Board, perspective: Color, r: int): (line: string)
    requires 0 <= r < 8
    ensures |line| == 19
  {
    [RankLabel(perspective, r), ' '] + Cells(view[r], 8) + "\n"
  }

  function Lines(view: Board, perspective: Color, n: int): (text: string)
    requires 0 <= n <= 8
    ensures |text| == 19 * n
  {
    if n == 0 then "" else Lines(view, perspective, n - 1) + Line(view, perspective, n - 1)
  }

  /** The whole picture boardToString returns. */
  function BoardText(b: Board, perspective: Color): (text: string)
    ensures |text| == 170
  {
    Header + Lines(View(b, perspective), perspective, 8)
  }

  /** The inner loop of boardToString: the text of each square of the row in turn. */
  method RowText(row: seq<Square>) returns (text: string)
    requires |row| == 8
    ensures text == Cells(row, 8)
  {
    text := "";
    for c := 0 to 8
      invariant text == Cells(row, c)
    {
      var piece := row[c];
      if piece.None? {
        text := text + ". ";
      } else {
        var pieceChar := Symbol(piece.value.kind);
        if piece.value.color == Black {
          pieceChar := LowerSymbol(piece.value.kind);
        }
        text := text + [pieceChar] + " ";
      }
    }
  }

  /**
   * boardToString: the header, then for each of the eight rows of the view its
   * rank label and the text of its squares, one line per row.
   */
  method BoardToString(b: Board, perspective: Color) returns (s: string)
    ensures s == BoardText(b, perspective)
  {
    s := Header;
    var view := View(b, perspective);
    for r := 0 to 8
      invariant s == Header + Lines(view, perspective, r)
    {
      var rankChar := if perspective == White then DigitChar(8 - r) else DigitChar(r + 1);
      var cells := RowText(view[r]);
      s := s + ([rankChar, ' '] + cells + "\n");
    }
  }

  /** The two characters of square c within a line. */
  function CellAt(line: string, c: int): string
    requires 0 <= c < 8 && |line| == 19
  {
    line[2 + 2 * c .. 4 + 2 * c]
  }

  lemma {:induction false} CellsLayout(row: seq<Square>, n: int)
    requires 0 <= n <= |row|
    ensures forall c, k :: 0 <= c < n && 0 <= k < 2 ==> Cells(row, n)[2 * c + k] == Glyph(row[c])[k]
    ensures forall i :: 0 <= i < 2 * n ==> Cells(row, n)[i] != '\n'
  {
    if n > 0 {
      CellsLayout(row, n - 1);
    }
  }

  /**
   * Each line is 19 characters: the rank label, a space, the eight squares of
   * the view's row (empty as ". ", white upper case, black lower case), and a
   * line break that is the only one in the line.
   */
  lemma LineLayout(view: Board, perspective: Color, r: int)
    requires 0 <= r < 8
    ensures var line := Line(view, perspective, r);
            line[0] == RankLabel(perspective, r) && line[1] == ' ' && line[18] == '\n' &&
            (forall c :: 0 <= c < 8 ==> CellAt(line, c) == Glyph(view[r][c])) &&
            (forall i :: 0 <= i < 18 ==> line[i] != '\n')
  {
    var row := view[r];
    CellsLayout(row, 8);
    var line := Line(view, perspective, r);
    var cells := Cells(row, 8);
    forall c | 0 <= c < 8
      ensures CellAt(line, c) == Glyph(row[c])
    {
      assert CellAt(line, c)[0] == cells[2 * c + 0];
      assert CellAt(line, c)[1] == cells[2 * c + 1];
    }
    forall i | 2 <= i < 18
      ensures line[i] != '\n'
    {
      assert line[i] == cells[i - 2];
    }
  }

  lemma {:induction false} LinesLayout(view: Board, perspective: Color, n: int)
    requires 0 <= n <= 8
    ensures forall r, k :: 0 <= r < n && 0 <= k < 19 ==> Lines(view, perspective, n)[19 * r + k] == Line(view, perspective, r)[k]
  {
    if n > 0 {
      LinesLayout(view, perspective, n - 1);
      LineLayout(view, perspective, n - 1);
    }
  }

  /** The text of line r of the picture: 19 characters after the header and the r lines before it. */
  function LineOf(text: string, r: int): string
    requires 0 <= r < 8 && |text| == 170
  {
    text[18 + 19 * r .. 37 + 19 * r]
  }

  /** Line r of the picture is the text of row r of the view. */
  lemma LinesOfBoardText(b: Board, perspective: Color)
    ensures |BoardText(b, perspective)| == 170 && BoardText(b, perspective)[..18] == Header
    ensures forall r :: 0 <= r < 8 ==> LineOf(BoardText(b, perspective), r) == Line(View(b, perspective), perspective, r)
  {
    var view := View(b, perspective);
    LinesLayout(view, perspective, 8);
    var text := BoardText(b, perspective);
    var lines := Lines(view, perspective, 8);
    forall r | 0 <= r < 8
      ensures LineOf(text, r) == Line(view, perspective, r)
    {
      LineLayout(view, perspective, r);
      forall k | 0 <= k < 19
        ensures LineOf(text, r)[k] == Line(view, perspective, r)[k]
      {
        assert LineOf(text, r)[k] == lines[19 * r + k];
      }
    }
  }

  /**
   * The picture is the 18-character header followed by exactly eight lines of
   * 19 characters each. Line r shows board row r with label 8 - r from white's
   * side, and board row 7 - r read from column 7 down with label r + 1 from
   * black's; each line ends in its only line break.
   */
  lemma BoardTextLayout(b: Board, perspective: Color)
    ensures |BoardText(b, perspective)| == 170 && BoardText(b, perspective)[..18] == Header
    ensures forall r :: 0 <= r < 8 ==>
              var line := LineOf(BoardText(b, perspective), r);
              line[0] == DigitChar(if perspective == White then 8 - r else r + 1) &&
              line[1] == ' ' && line[18] == '\n' && (forall i :: 0 <= i < 18 ==> line[i] != '\n')
    ensures forall r, c :: 0 <= r < 8 && 0 <= c < 8 ==>
              CellAt(LineOf(BoardText(b, perspective), r), c) == Glyph(PieceAt(b, Shown(perspective, r, c)))
  {
    LinesOfBoardText(b, perspective);
    var view := View(b, perspective);
    forall r | 0 <= r < 8
      ensures var line := Line(view, perspective, r);
              line[0] == RankLabel(perspective, r) && line[1] == ' ' && line[18] == '\n' &&
              (forall c :: 0 <= c < 8 ==> CellAt(line, c) == Glyph(view[r][c])) &&
              (forall i :: 0 <= i < 18 ==> line[i] != '\n')
    {
      LineLayout(view, perspective, r);
    }
  }

  // ---------------------------------------------------------------------------
  // The membership test on the reply
  // ---------------------------------------------------------------------------

  /** `promotion ? promotion.toUpperCase() : undefined` */
  function UpperPromotion(promotion: Option<Kind>): Option<char>
  {
    if promotion.Some? then Some(ToUpper(Symbol(promotion.value))) else None
  }

  /** A listed move matches the parsed one: same from, same to, same promotion letter ignoring case. */
  predicate SameChoice(pm: Move, parsed: Move)
  {
    pm.from == parsed.from && pm.to == parsed.to &&
    UpperPromotion(pm.promotion) == UpperPromotion(parsed.promotion)
  }

  /** `possibleMoves.some(...)`: some listed move matches the parsed one. */
  function IsValidChoice(possible: seq<Move>, parsed: Move): (ok: bool)
    ensures ok <==> exists i :: 0 <= i < |possible| && SameChoice(possible[i], parsed)
  {
    if possible == [] then false
    else SameChoice(possible[0], parsed) || IsValidChoice(possible[1..], parsed)
  }

  /**
   * Since piece letters are already upper case, a parsed move is a valid choice
   * exactly when a listed move has the same ends and the same promotion; the
   * castling, en-passant and capture fields play no part.
   */
  lemma ValidChoiceExactly(possible: seq<Move>, parsed: Move)
    ensures IsValidChoice(possible, parsed) <==>
            exists i :: 0 <= i < |possible| && possible[i].from == parsed.from && possible[i].to == parsed.to &&
                        possible[i].promotion == parsed.promotion
  {
    forall pm: Move
      ensures SameChoice(pm, parsed) <==>
              pm.from == parsed.from && pm.to == parsed.to && pm.promotion == parsed.promotion
    {
      if pm.promotion.Some? && parsed.promotion.Some? && pm.promotion != parsed.promotion {
        assert Symbol(pm.promotion.value) != Symbol(parsed.promotion.value);
      }
    }
  }
}
