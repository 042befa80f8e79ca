/** Tables and the starting position (constants.ts). */
module Constants {
  import opened Wrappers
  import opened ChessTypes

  /** PROMOTION_PIECES: the kinds a pawn may promote to, in the engine's order. */
  const PromotionPieces: seq<Kind> := [Queen, Rook, Bishop, Knight]

  /** HEBREW_FILES: the file letters alef to het (U+05D0 to U+05D7) used for columns 0 to 7. */
  const HebrewFiles: seq<char> :=
    ['\U{05D0}', '\U{05D1}', '\U{05D2}', '\U{05D3}', '\U{05D4}', '\U{05D5}', '\U{05D6}', '\U{05D7}']

  /** The back-rank order R N B Q K B N R, from column 0 to column 7. */
  const BackRankKinds: seq<Kind> := [Rook, Knight, Bishop, Queen, King, Bishop, Knight, Rook]

  function EmptyRow(): (row: seq<Square>)
    ensures |row| == 8 && forall c :: 0 <= c < 8 ==> row[c] == None
  {
    seq(8, _ => None)
  }

  function PawnRow(color: Color): (row: seq<Square>)
    ensures |row| == 8 && forall c :: 0 <= c < 8 ==> row[c] == Some(Piece(Pawn, color, false))
  {
    seq(8, _ => Some(Piece(Pawn, color, false)))
  }

  function BackRow(color: Color): (row: seq<Square>)
    ensures |row| == 8 && forall c :: 0 <= c < 8 ==> row[c] == Some(Piece(BackRankKinds[c], color, false))
  {
    seq(8, c requires 0 <= c < 8 => Some(Piece(BackRankKinds[c], color, false)))
  }

  /** The square of the starting position, row by row as constants.ts writes it out. */
  predicate IsStartSquare(r: int, c: int, sq: Square)
    requires 0 <= r < 8 && 0 <= c < 8
  {
    if r == 0 then sq == Some(Piece(BackRankKinds[c], Black, false))
    else if r == 1 then sq == Some(Piece(Pawn, Black, false))
    else if r == 6 then sq == Some(Piece(Pawn, White, false))
    else if r == 7 then sq == Some(Piece(BackRankKinds[c], White, false))
    else sq == None
  }

  /**
   * createInitialBoard: allocate eight rows, write the two back ranks and the
   * two pawn ranks, and fill rows 2 to 5 with empty rows in a loop.
   */
  method CreateInitialBoard() returns (b: Board)
    ensures forall r, c :: 0 <= r < 8 && 0 <= c < 8 ==> IsStartSquare(r, c, b[r][c])
    ensures forall c :: 0 <= c < 8 ==> b[1][c] == Some(Piece(Pawn, Black, false)) && b[6][c] == Some(Piece(Pawn, White, false))
    ensures forall r, c :: 2 <= r < 6 && 0 <= c < 8 ==> b[r][c] == None
    ensures forall r, c :: 0 <= r < 8 && 0 <= c < 8 && b[r][c].Some? ==> !b[r][c].value.hasMoved
    ensures forall r, c, color :: 0 <= r < 8 && 0 <= c < 8 ==>
              (b[r][c] == Some(Piece(King, color, false)) <==> (c == 4 && r == (if color == White then 7 else 0)))
  {
    var rows := new seq<Square>[8](_ => EmptyRow());
    rows[0] := BackRow(Black);
    rows[1] := PawnRow(Black);
    for i := 2 to 6
      invariant rows[0] == BackRow(Black) && rows[1] == PawnRow(Black)
      invariant forall k :: 2 <= k < 8 ==> rows[k] == EmptyRow()
    {
      rows[i] := EmptyRow();
    }
    rows[6] := PawnRow(White);
    rows[7] := BackRow(White);
    b := rows[..];
  }

  /** PROMOTION_PIECES and HEBREW_FILES have the sizes the engine indexes them with. */
  lemma TableSizes()
    ensures |HebrewFiles| == 8
    ensures PromotionPieces == [Queen, Rook, Bishop, Knight]
    ensures forall i, j :: 0 <= i < j < 8 ==> HebrewFiles[i] != HebrewFiles[j]
  {
  }
}
