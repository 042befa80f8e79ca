# Chess rules engine: a Dafny model

This project models the rules engine of a browser chess game written in
TypeScript. The engine is the `ChessLogic` class of `services/chessLogic.ts` and
the notation helpers at the bottom of that file. The model also covers two
supporting pieces: the starting position and tables of `constants.ts`, and two
pure functions of `services/geminiService.ts`. Those two build the text picture
of the board sent to the move-suggestion model and test that its reply names a
listed move.

The board is an 8x8 grid of squares, row 0 being black's home rank. A square is
empty or holds a piece with a kind, a colour and a `hasMoved` flag. The engine:

- generates pseudo-legal moves per piece: pawn pushes, captures, en passant and
  promotion expanded into four moves; sliding rays; knight and king steps;
  castling behind an `includeCastling` flag;
- answers attack and check queries;
- filters out moves that leave the mover's king in check;
- collects all legal moves of a player and decides checkmate and stalemate;
- applies a move, recomputing the castling rights, and reverts it;
- converts between squares, moves and their coordinate-notation strings.

The files, by layer:

- `types.dfy`: the value types (`ChessTypes`) and `Option` (`Wrappers`).
- `constants.dfy`: `PROMOTION_PIECES`, `HEBREW_FILES` and `createInitialBoard`.
- `move_rules.dfy` (`MoveRules`): move generation, attack and check as
  functions. Generation calls the check test and the attack test, which generate
  again with castling switched off. The `decreases` clauses spell out how
  `includeCastling` breaks that cycle.
- `transition.dfy` (`Transition`): `applyMove`, `revertMove` and
  `updateCastlingRightsForMove`, stated square by square.
- `legality.dfy` (`Legality`): legal moves, all moves of a player, checkmate and
  stalemate.
- `chess_logic.dfy` (`ChessLogic`): the class's methods as the source writes
  them. It has the loops that push onto a move list, the nested board scans with
  early returns, and the copied grid (an `array2`) written cell by cell. Each
  method is proved to compute its specification function.
- `generation_props.dfy`, `destination_props.dfy`, `transition_props.dfy`:
  properties of the rules.
- `notation.dfy` (`Notation`): `algebraicToPosition`, `positionToAlgebraic`,
  `moveToAlgebraic` and `parseAlgebraicMove`.
- `prompt.dfy` (`Prompt`): `boardToString` and the reply membership test.

Behaviours of the code worth knowing:

- With no piece on `from`, `applyMove` returns the input board unchanged, the
  initial castling rights and a copy of the move (services/chessLogic.ts:58-64).
- `parseAlgebraicMove` upper-cases a fifth character before testing it, so both
  `q r b n` and `Q R B N` are promotions (services/chessLogic.ts:487-493).
- `applyMove` derives the new castling rights from `getInitialCastlingRights()`,
  not from rights passed in (services/chessLogic.ts:77).
- A promoted piece takes the `playerColor` argument of `applyMove` as its colour
  (services/chessLogic.ts:80).
- `revertMove` puts the moved piece back with its `hasMoved` flag as it stands,
  so a piece that did not castle stays marked as moved
  (services/chessLogic.ts:123-128). Only a castling king has the flag reset
  (services/chessLogic.ts:155-157).
- The castling tests ask for an unmoved rook on the corner square and do not
  look at its colour (services/chessLogic.ts:332, 344).

## Model

| member | source | states |
|---|---|---|
| Constants.CreateInitialBoard | constants.ts:65-74 | Every square is the standard starting square: black back rank R N B Q K B N R on row 0, black pawns on row 1, white pawns on row 6, white back rank on row 7, rows 2 to 5 empty. No piece has moved, and each colour has exactly one king, on column 4 of its home row. |
| Constants.TableSizes | constants.ts:29-39 | `HEBREW_FILES` has eight pairwise distinct letters. `PROMOTION_PIECES` is Q, R, B, N. |
| MoveRules.TargetMoves | services/chessLogic.ts:211-232 | `addMoveIfValid` adds moves exactly when `to` is on the board and is either empty (quiet moves allowed) or holds an opposing piece (captures allowed). Every added move goes from `from` to `to`, never onto a piece of the mover's colour. It promotes exactly when `to` is on the promotion rank, and then only to Q, R, B or N. |
| MoveRules.Promotions | services/chessLogic.ts:217-218 | The promotion expansion is four moves onto the same square, one for each of Q, R, B, N in that order. |
| MoveRules.PawnPushes | services/chessLogic.ts:240-249 | Every push is a quiet, well-formed pawn move (see `Shaped`) onto a square free of the mover's pieces. |
| MoveRules.PawnCapture | services/chessLogic.ts:253-259 | A diagonal capture is a well-formed pawn move that promotes exactly on the promotion row. |
| MoveRules.PawnCaptures | services/chessLogic.ts:251-260 | The same for both diagonals. |
| MoveRules.EnPassant | services/chessLogic.ts:262-272 | An en-passant capture lands diagonally forward on an empty square, beside the pawn that made the previous move, which advanced two rows. |
| MoveRules.PawnMoves | services/chessLogic.ts:234-274 | Every pawn move is well formed. It lands on the board, not on an own piece, and promotes (Q, R, B, N) exactly when a push or capture reaches the promotion row. |
| MoveRules.Ray | services/chessLogic.ts:279-291 | A ray's moves are plain moves onto on-board squares that do not hold a piece of the mover's colour. |
| MoveRules.SlidingMoves | services/chessLogic.ts:276-298 | The same for rook, bishop and queen moves. |
| MoveRules.OffsetMoves | services/chessLogic.ts:300-311 | The same for knight and king steps. |
| DestinationProps.OpenTarget | services/chessLogic.ts:211-232 | With both kinds of move allowed and no promotion rank, `addMoveIfValid` adds exactly one plain move when `to` is on the board and not held by the mover, and nothing otherwise. |
| DestinationProps.RayOffBoard | services/chessLogic.ts:281-282 | When the first step leaves the board, no square is on the ray (every further step is off the board too). |
| DestinationProps.RayBlocked | services/chessLogic.ts:283-289 | When the first step holds a piece, the ray reaches exactly that square, and only if the piece is not the mover's. |
| DestinationProps.RayOpen | services/chessLogic.ts:283-290 | When the first step is empty, the ray reaches exactly that square and the squares on the ray beyond it. |
| DestinationProps.RayExactly | services/chessLogic.ts:279-291 | The walk adds a move onto `t` if and only if `t` is `k >= 1` steps along the direction, on the board, not held by the mover, with every square before it empty. |
| DestinationProps.SlidingExactly | services/chessLogic.ts:276-293 | A rook, bishop or queen move onto `t` is generated if and only if `t` is on the ray in one of its directions in that sense. |
| DestinationProps.OffsetExactly | services/chessLogic.ts:300-311 | A knight or king step onto `t` is generated if and only if `t` is the square at one of its offsets, on the board and not held by the mover. |
| DestinationProps.PushesExactly | services/chessLogic.ts:240-249 | Some push reaches `t` if and only if `t` is the empty square one row forward, or, from the start row with that square empty, the empty square two rows forward. |
| DestinationProps.EnPassantExactly | services/chessLogic.ts:262-272 | The en-passant capture onto `t` is generated if and only if the previous move put a pawn on the square beside this pawn by a two-row advance, and `t` is the empty on-board square behind it. |
| DestinationProps.PawnEnPassantExactly | services/chessLogic.ts:234-274 | Among all of a pawn's moves, the en-passant captures are exactly those of the en-passant rule (no push or diagonal capture is flagged as en passant). |
| MoveRules.PseudoLegalMoves | services/chessLogic.ts:196-209 | An empty square generates nothing. Every generated move is well formed: it lands on an on-board square free of the mover's pieces, records no capture, and has the shape of its kind (promotion, castling, en passant). |
| MoveRules.KingMoves | services/chessLogic.ts:313-355 | Every king move is well formed; castling moves have the castling shape. |
| MoveRules.CastlingMoves | services/chessLogic.ts:325-353 | The castling block emits only castling moves of an unmoved king towards an unmoved rook across empty squares. |
| MoveRules.KingSquareFromFirst | services/chessLogic.ts:39-47 | The scan from a square finds the first king of the colour at or after it in row-major order, or reports that none remains. |
| MoveRules.KingSquareIsFirstKing | services/chessLogic.ts:38-48 | `findKing` returns nothing exactly when the colour has no king. Otherwise it returns a king of that colour with none before it. |
| MoveRules.FirstKingIsKingSquare | services/chessLogic.ts:38-48 | Conversely, the first king in row-major order is the one `findKing` returns. |
| MoveRules.NoKingNoCheck | services/chessLogic.ts:19-21 | A colour with no king on the board is never in check. |
| Transition.RightsAfter | services/chessLogic.ts:417-447 | A flag of the new rights is set exactly when it was set before and neither of these happened: that side's king moved, or that side's rook left the flag's corner. Also not when a rook stood on the corner the move lands on. |
| Transition.RightsOnlyCleared | services/chessLogic.ts:417-447 | Rights are only ever cleared. A king move clears both of its side's flags. A rook leaving its home corner, or any rook captured on a home corner, clears that corner's flag. A move that touches no corner and is not a king move changes nothing. |
| Transition.AfterMoveCells | services/chessLogic.ts:55-116 | Without a piece on `from`, `applyMove` returns the input board and the initial rights. Otherwise every square of the new board is the applied cell, in this order: the mover lands (promoted if a pawn promotes), the castling rook moves, the en-passant victim is removed. |
| Transition.Reverted | services/chessLogic.ts:118-181 | Every square of the reverted board is given by the three steps of `revertMove`: the mover back, the capture back, castling undone. |
| TransitionProps.ApplyEffects | services/chessLogic.ts:55-116 | For a generated move, `applyMove` empties `from` and puts the mover on `to`, marked as moved. A promotion instead puts the promoted piece there, in the mover's colour. Castling moves the rook from column 7 to 5 or from 0 to 3, and en passant clears `(from.row, to.col)`. Every other square is unchanged. The executed move records what stood on `to` (for en passant, the victim if it is opposing), and the rights are the initial rights updated for this move. |
| TransitionProps.RevertUndoesApply | services/chessLogic.ts:118-181 | Reverting the executed move of a generated move restores every square except `from`. `from` holds the mover again, still marked as moved unless the move castled. A castling move is reverted to exactly the original board. |
| TransitionProps.RevertUndoesGeneratedMove | services/chessLogic.ts:118-181 | The same for every move the generator produces. |
| GenerationProps.TargetMovesClosed | services/chessLogic.ts:217-218 | A promotion produced by `addMoveIfValid` comes with all four promotions onto the same square. |
| GenerationProps.PawnCapturesClosed | services/chessLogic.ts:251-260 | The same for the diagonal captures. |
| GenerationProps.PawnMovesClosed | services/chessLogic.ts:234-274 | The same for all of a pawn's moves. |
| GenerationProps.PromotionsComplete | services/chessLogic.ts:211-260 | A generated promotion is a pawn move onto the promotion row. The other three promotions onto that square are generated too, and no push or capture reaches that square without promoting. |
| GenerationProps.CastlingMovesExactly | services/chessLogic.ts:329-352 | For an unmoved king, the castling block emits a move to column 6 exactly when the kingside conditions hold, and one to column 2 exactly when the queenside conditions hold. Kingside needs the right, an unmoved rook on column 7, columns 5 and 6 empty and unattacked. Queenside needs the right, an unmoved rook on column 0, columns 1 to 3 empty and columns 2 and 3 unattacked. |
| GenerationProps.KingCastlingPart | services/chessLogic.ts:313-355 | A king move castles exactly when castling was asked for, the king is unmoved and not in check, and the castling block emitted it. |
| GenerationProps.CastlingExactlyWhenAllowed | services/chessLogic.ts:325-353 | A generated move castles exactly when `includeCastling` is set and one of these holds: the move takes the king to column 6 of its row and kingside castling is allowed, or to column 2 and queenside castling is allowed. Allowed means the king is unmoved and not in check, and the wing conditions hold. |
| GenerationProps.PushesLandOnEmpty | services/chessLogic.ts:240-249 | A pawn push only lands on an empty square. |
| GenerationProps.CapturesOnDiagonal | services/chessLogic.ts:251-260 | A pawn capture only lands on a forward diagonal. |
| GenerationProps.CaptureGenerated | services/chessLogic.ts:251-260 | An opposing piece on a forward diagonal is captured by some generated move. |
| GenerationProps.PawnTargets | services/chessLogic.ts:234-274 | Every pawn move lands on an empty square or on a forward diagonal. |
| GenerationProps.PawnHitsOccupied | services/chessLogic.ts:362-367 | On a square holding an opposing piece, a pawn's moves reach it exactly when it lies on the pawn's forward diagonal. |
| GenerationProps.CheckIsAttackOnKing | services/chessLogic.ts:19-36 | The king is in check exactly when it exists and its square is attacked in the sense of `isSquareAttacked`. |
| GenerationProps.PawnAttacksDiagonal | services/chessLogic.ts:362-367 | `isSquareAttacked` counts a pawn's forward diagonal as attacked even when the diagonal is empty. |
| Legality.FilterExactly | services/chessLogic.ts:190-193 | The filter keeps exactly the accepted moves and never adds any. |
| Legality.PseudoLegalOnBoard | services/chessLogic.ts:196-209 | Every pseudo-legal move starts on `pos` and has both ends on the board. |
| Legality.LegalMoves | services/chessLogic.ts:184-186 | `getValidMoves` returns nothing for an empty square or a piece of the other colour. |
| Legality.LegalMovesExactly | services/chessLogic.ts:184-194 | A move is valid exactly when three things hold: `pos` holds a piece of the colour, the move is pseudo-legal from there (castling included), and after `applyMove` the mover's king is not in check. |
| Legality.RowMovesExactly | services/chessLogic.ts:383-389 | A move is collected from a row exactly when some square of the row contributes it. |
| Legality.MovesBeforeRowExactly | services/chessLogic.ts:382-391 | A move is collected from the first rows exactly when some square of them contributes it. |
| Legality.AllLegalMovesExactly | services/chessLogic.ts:380-392 | A move is in the player's list exactly when it is a legal move of the player's piece on its `from` square. |
| Legality.ListedMoveIsSafe | services/chessLogic.ts:380-392 | A non-empty list means some piece has a move that leaves its king safe. |
| Legality.EmptyListNoSafeMove | services/chessLogic.ts:380-392 | An empty list means no piece has such a move. |
| Legality.NoMovesIffNoSafeMove | services/chessLogic.ts:394-408 | The list is empty exactly when no piece of the player has a move that leaves its king safe. |
| Legality.MateAndStalemate | services/chessLogic.ts:394-408 | Checkmate is check with no safe move, and stalemate is no safe move without check. The two never hold together, and either one means the player has no listed move. |
| ChessLogic.ClearForMovedPiece | services/chessLogic.ts:418-437 | After the mover's part of the update, a flag is set exactly when it was and the mover spares it. |
| ChessLogic.ClearForCapturedRook | services/chessLogic.ts:439-445 | After the capture part, a flag is set exactly when it was and no rook stood on its corner at `to`. |
| ChessLogic.UpdateCastlingRightsForMove | services/chessLogic.ts:417-447 | The rights the method computes are `Transition.RightsAfter`. |
| ChessLogic.CopyBoard | services/chessLogic.ts:55 | A fresh grid holding every square of the board. |
| ChessLogic.LandPiece | services/chessLogic.ts:74-81 | After these writes, the grid is the board with the mover landed (or promoted) and `from` cleared. |
| ChessLogic.MoveCastlingRook | services/chessLogic.ts:83-97 | After these writes, the castling rook has moved as well. |
| ChessLogic.ClearEnPassantSquare | services/chessLogic.ts:99-107 | After this write, the en-passant victim is gone too, so every cell is the applied cell. |
| ChessLogic.ApplyMove | services/chessLogic.ts:50-116 | `applyMove` returns the board, rights and executed move of `Transition.AfterMove`, whose properties are `AfterMoveCells` and `ApplyEffects`. |
| ChessLogic.PutMoverBack | services/chessLogic.ts:120-135 | Step 1 of `revertMove`: the piece on `to` goes back to `from`, as a pawn if the move promoted. |
| ChessLogic.PutCaptureBack | services/chessLogic.ts:138-151 | Step 2: a recorded capture goes back on the en-passant square or on `to`. |
| ChessLogic.UndoCastling | services/chessLogic.ts:153-179 | Step 3: castling is undone, with the king and rook back home and marked unmoved. |
| ChessLogic.RevertMove | services/chessLogic.ts:118-181 | `revertMove` returns `Transition.Reverted`, which undoes `applyMove` (`RevertUndoesApply`). |
| ChessLogic.PushMove | services/chessLogic.ts:217-229 | Appends the four promotions on the promotion rank and a single plain move elsewhere. |
| ChessLogic.AddMoveIfValid | services/chessLogic.ts:211-232 | Appends exactly `MoveRules.TargetMoves` to the list. |
| ChessLogic.AddPawnPushes | services/chessLogic.ts:240-249 | Appends exactly the pawn's pushes. |
| ChessLogic.AddPawnCapture | services/chessLogic.ts:253-259 | Appends exactly the capture onto one diagonal. |
| ChessLogic.AddPawnCaptures | services/chessLogic.ts:251-260 | Appends exactly the captures onto the listed diagonals, in order. |
| ChessLogic.AddEnPassant | services/chessLogic.ts:262-272 | Appends exactly the en-passant capture, if any. |
| ChessLogic.GetPawnMoves | services/chessLogic.ts:234-274 | Returns `MoveRules.PawnMoves`. |
| ChessLogic.GetSlidingMoves | services/chessLogic.ts:276-298 | The `while (true)` ray walk returns `MoveRules.SlidingMoves`. |
| ChessLogic.AddOffsetMoves | services/chessLogic.ts:306-309 | Appends exactly `MoveRules.OffsetMoves`. |
| ChessLogic.GetKnightMoves | services/chessLogic.ts:300-311 | Returns the knight's steps. |
| ChessLogic.GetKingMoves | services/chessLogic.ts:313-355 | Returns `MoveRules.KingMoves`. |
| ChessLogic.GetCastlingMoves | services/chessLogic.ts:325-353 | Returns `MoveRules.CastlingMoves`. |
| ChessLogic.GetPseudoLegalMovesForPiece | services/chessLogic.ts:196-209 | Returns `MoveRules.PseudoLegalMoves`. |
| ChessLogic.IsSquareAttacked | services/chessLogic.ts:357-378 | Returns `MoveRules.SquareAttacked`: some piece of the attacker attacks the square. |
| ChessLogic.FindKing | services/chessLogic.ts:38-48 | Returns the first king of the colour in row-major order, or none (`KingSquareIsFirstKing`). |
| ChessLogic.ScanForThreat | services/chessLogic.ts:23-35 | Returns whether some opposing piece has a pseudo-legal move (castling excluded) onto the king's square. |
| ChessLogic.IsKingInCheck | services/chessLogic.ts:19-36 | Returns `MoveRules.KingInCheck`. |
| ChessLogic.KeepSafeMoves | services/chessLogic.ts:190-193 | Returns the moves after which the mover's king is not in check, in order. |
| ChessLogic.GetValidMoves | services/chessLogic.ts:184-194 | Returns `Legality.LegalMoves`, characterised by `LegalMovesExactly`. |
| ChessLogic.MovesAtSquare | services/chessLogic.ts:384-388 | A square holding a piece of the colour contributes its valid moves; any other square contributes nothing. |
| ChessLogic.AddRowMoves | services/chessLogic.ts:383-389 | Appends the moves of one row, column by column. |
| ChessLogic.GetAllPossibleMovesForPlayer | services/chessLogic.ts:380-392 | Returns `Legality.AllLegalMoves`, characterised by `AllLegalMovesExactly`. |
| ChessLogic.IsCheckmate | services/chessLogic.ts:394-400 | Returns `Legality.Checkmate`. |
| ChessLogic.IsStalemate | services/chessLogic.ts:402-408 | Returns `Legality.Stalemate`. |
| Notation.NatToDecimal | services/chessLogic.ts:458 | A template string prints a natural number as a non-empty run of decimal digits. |
| Notation.DecimalRoundTrip | services/chessLogic.ts:452 | `parseInt` reads back the number a template string printed. |
| Notation.AlgebraicToPosition | services/chessLogic.ts:450-454 | For a file a to h followed by a rank 1 to 8, the result is on the board: column is the file less `a`, row is 8 less the rank. |
| Notation.SquareName | services/chessLogic.ts:450-454 | The Latin name of an on-board square is a file letter a to h followed by a rank digit 1 to 8. |
| Notation.SquareNameRoundTrip | services/chessLogic.ts:450-454 | `algebraicToPosition` and the Latin square name are inverse, in both directions. |
| Notation.PositionToAlgebraic | services/chessLogic.ts:456-459 | The result is `''` exactly when the column is outside 0 to 7. Otherwise it starts with the column's Hebrew letter, never a Latin file letter. On the board it is that letter and the rank digit `8 - row`. |
| Notation.PositionNamesDistinct | services/chessLogic.ts:456-459 | Distinct squares get distinct names. |
| Notation.MoveToAlgebraic | services/chessLogic.ts:462-468 | For on-board ends, the text is the from-square name, the to-square name and, for a promotion, its lower-case letter: 4 or 5 characters. |
| Notation.PromotionFromLetter | services/chessLogic.ts:486-494 | A fifth character is accepted exactly when it is one of q, r, b, n in either case. It gives the piece whose letter is its upper case, one of `PROMOTION_PIECES`. |
| Notation.ParseAlgebraicMove | services/chessLogic.ts:470-496 | Returns null unless the text has length 4 or 5, files a to h, ranks 1 to 8 and, for length 5, a promotion letter. Otherwise the move has both ends on the board, column = file - `a` and row = 8 - rank. It promotes exactly for length 5, and sets no castling, en-passant or capture field. |
| Notation.PrintedMoveRejected | services/chessLogic.ts:456-496 | What `moveToAlgebraic` prints is never accepted by `parseAlgebraicMove`. |
| Notation.MoveToLatin | services/chessLogic.ts:462-468 | The corrected printer, with Latin files: 4 or 5 characters. |
| Notation.LatinRoundTrip | services/chessLogic.ts:470-496 | Parsing the Latin printing of a move gives back its ends and promotion. Every accepted text is the Latin printing of the move parsed from it, up to the case of the promotion letter. |
| Prompt.HalfTurn | services/geminiService.ts:21 | The reversed board holds at (r, c) what the board holds at (7 - r, 7 - c). |
| Prompt.HalfTurnTwice | services/geminiService.ts:21 | Reversing twice gives the board back. |
| Prompt.View | services/geminiService.ts:21 | From white's side the view is the board. From black's side, view square (r, c) is board square (7 - r, 7 - c). |
| Prompt.RowText | services/geminiService.ts:25-36 | The inner loop produces the text of the row's eight squares. |
| Prompt.BoardToString | services/geminiService.ts:16-40 | `boardToString` returns the picture `BoardText`, laid out as `BoardTextLayout` states. |
| Prompt.CellsLayout | services/geminiService.ts:25-36 | Each square's two characters are its glyph: `". "` when empty, otherwise the piece letter (upper case for white, lower case for black) and a space. No line break appears among them. |
| Prompt.LineLayout | services/geminiService.ts:23-38 | A line is 19 characters: the rank label, a space, the eight glyphs of the view's row, then a line break that is the line's only one. |
| Prompt.LinesLayout | services/geminiService.ts:23-38 | The lines follow one another at a stride of 19 characters. |
| Prompt.LinesOfBoardText | services/geminiService.ts:16-40 | The picture is the header followed by the eight lines. |
| Prompt.BoardTextLayout | services/geminiService.ts:16-40 | The picture is 170 characters: the header `"  a b c d e f g h\n"`, then exactly eight line-terminated lines. Line r has label 8 - r and shows board row r from white's side. From black's side it has label r + 1 and shows row 7 - r with the columns reversed. |
| Prompt.IsValidChoice | services/geminiService.ts:109-113 | The reply is accepted exactly when some listed move matches it: same `from`, same `to`, and the same promotion letter ignoring case, or none on both. |
| Prompt.ValidChoiceExactly | services/geminiService.ts:109-113 | Since piece letters are upper case, that is exactly a listed move with the same ends and the same promotion. |

## Left out

- The user interface (`App.tsx` and the components) is not part of this model. Nor is `getAIMove`: it is an asynchronous network call with timeouts, a random fallback and console logging.
- The display tables of `constants.ts` are not modelled. This covers piece names, Unicode glyphs, difficulty settings, `INITIAL_BOARD_SETUP`, and the first board `createInitialBoard` builds and discards.
- `console.error` in `applyMove` is output only and is not modelled.
- Boards and pieces are values, so the model has no object identity. In the source two objects are shared between input and output. `applyMove` with no piece on `from` returns the caller's own board array (services/chessLogic.ts:61). The `capturedPiece` recorded in `newLastMove` is the input board's own piece object (services/chessLogic.ts:71, 104). No code in the core writes to either object afterwards. `revertMove` puts a copy of the captured piece back (services/chessLogic.ts:144, 149), and its `hasMoved` write goes to its own copied grid (services/chessLogic.ts:119, 155-157). Modelling them as values therefore changes no result of the core; only the sharing itself is not represented.
- ChessLogic.ApplyMove: requires both ends of the move on the board. The source's behaviour for an off-board end (a `TypeError`, or a write past the end of a row) is not modelled; every generated move meets this.
- ChessLogic.RevertMove: requires both ends of the move on the board, for the same reason.
- The previous move, when given, must end on the board (`LastOk`): the source reads the board there. Every recorded move does end on the board.
- Notation.AlgebraicToPosition: requires the rank part to be decimal digits, and states its result only for a file letter followed by one rank digit. `parseInt` on other text (`NaN`, signs, spaces) is not modelled; the only caller passes a checked rank digit.
- Notation.PositionToAlgebraic: the `!pos` test for a null position is not modelled, since positions are never null here.
- Notation.ToUpper: upper-cases ASCII letters only. That is exact for deciding whether the result is Q, R, B or N, but not a model of `toUpperCase` in general.
- Characters are Unicode code points. `charCodeAt` on UTF-16 surrogate pairs is not modelled.
- TransitionProps.RevertUndoesApply: requires that the previous move did not leave a piece of the mover's colour on its destination. Otherwise en passant would remove an own pawn that `revertMove` does not put back. This cannot happen in a game, but the source does not check it.
- GenerationProps.PromotionsComplete: the "never a bare move onto the promotion row" part excludes en-passant moves. En passant cannot reach the promotion row in a game, but the generator does not rule it out.
- JavaScript numbers are modelled as unbounded integers. Every value the engine computes is a small board coordinate.

## Findings

| source | as written | input that shows it | evidently intended | confidence | as-written member | corrected member |
|---|---|---|---|---|---|---|
| services/chessLogic.ts:456-459, 478; services/geminiService.ts:64 | `moveToAlgebraic` writes squares with the Hebrew letters of `HEBREW_FILES`. `parseAlgebraicMove` accepts only `a`-`h`, and the move-suggestion prompt lists the legal moves in the first form while asking for a reply in the second. | The move e2-e4, `{from: (6,4), to: (4,4)}`, prints as `"ה2ה4"`, and `parseAlgebraicMove("ה2ה4")` is null. The same holds for every move. | Moves are written with Latin files (`e2e4`), so a reply copied from the list is read back as the listed move. | high, not executed | Notation.PrintedMoveRejected | Notation.MoveToLatin / Notation.LatinRoundTrip |
