/** The Option datatype used for the source's nullable values (`T | null`, optional fields). */
module Wrappers {
  datatype Option<+T> = None | Some(value: T)
}

/**
 * The engine's value types (types.ts): colours, piece kinds, pieces, squares,
 * the 8x8 board, positions, moves and castling rights.
 */
module ChessTypes {
  import opened Wrappers

  datatype Color = White | Black

  function Opponent(c: Color): (o: Color)
    ensures o != c
  {
    if c == White then Black else White
  }

  /** The six piece kinds; `Symbol` gives the letter types.ts uses for each. */
  datatype Kind = Pawn | Rook | Knight | Bishop | Queen | King

  function Symbol(k: Kind): char
  {
    match k
    case Pawn => 'P'
    case Rook => 'R'
    case Knight => 'N'
    case Bishop => 'B'
    case Queen => 'Q'
    case King => 'K'
  }

  /** The symbol in lower case (`toLowerCase` on the letter): the ASCII lower-case letter 32 code points on. */
  function LowerSymbol(k: Kind): (ch: char)
    ensures ch as int == Symbol(k) as int + 32
  {
    match k
    case Pawn => 'p'
    case Rook => 'r'
    case Knight => 'n'
    case Bishop => 'b'
    case Queen => 'q'
    case King => 'k'
  }

  datatype Piece = Piece(kind: Kind, color: Color, hasMoved: bool)

  /** A square is empty (`None`, the source's `null`) or holds a piece. */
  type Square = Option<Piece>

  /** A position; off-board values arise from offset arithmetic and are legal values. */
  datatype Pos = Pos(row: int, col: int)

  /**
   * A move. `captured` is filled in only by move application (the executed
   * record); the optional boolean flags of the source are `false` when absent.
   */
  datatype Move = Move(from: Pos, to: Pos, promotion: Option<Kind>,
                       isCastling: bool, isEnPassant: bool, captured: Option<Piece>)

  datatype SideRights = SideRights(kingSide: bool, queenSide: bool)
  datatype CastlingRights = CastlingRights(white: SideRights, black: SideRights)

  predicate IsGrid(g: seq<seq<Square>>)
  {
    |g| == 8 && forall r :: 0 <= r < 8 ==> |g[r]| == 8
  }

  /** Row 0 is black's home rank, row 7 white's; column 0 is the a-file. */
  type Board = g: seq<seq<Square>> | IsGrid(g) witness seq(8, _ => seq(8, _ => None))

  /** isSquareOnBoard */
  predicate OnBoard(p: Pos)
  {
    0 <= p.row < 8 && 0 <= p.col < 8
  }

  /** getPieceAt: off-board positions read as empty. */
  function PieceAt(b: Board, p: Pos): Square
  {
    if OnBoard(p) then b[p.row][p.col] else None
  }

  predicate IsEmpty(b: Board, p: Pos)
  {
    PieceAt(b, p).None?
  }

  /** Holds a piece of colour `c`. */
  predicate Owns(b: Board, p: Pos, c: Color)
  {
    PieceAt(b, p).Some? && PieceAt(b, p).value.color == c
  }

  /** Two boards that agree on every square are the same board. */
  lemma {:induction false} SameBoard(a: Board, b: Board)
    requires forall q :: OnBoard(q) ==> PieceAt(a, q) == PieceAt(b, q)
    ensures a == b
  {
    forall r | 0 <= r < 8
      ensures a[r] == b[r]
    {
      forall c | 0 <= c < 8
        ensures a[r][c] == b[r][c]
      {
        assert PieceAt(a, Pos(r, c)) == PieceAt(b, Pos(r, c));
      }
    }
  }

  function InitialRights(): (r: CastlingRights)
  {
    CastlingRights(SideRights(true, true), SideRights(true, true))
  }

  /** No position is unset in a move the engine reads back (from, to on the board). */
  predicate MoveOnBoard(m: Move)
  {
    OnBoard(m.from) && OnBoard(m.to)
  }

  /** The previous move, when there is one, ends on the board (its destination is read). */
  predicate LastOk(last: Option<Move>)
  {
    last.Some? ==> OnBoard(last.value.to)
  }
}
