# Chess rules engine: a Dafny model

This project models the rules core of a browser chess game written in TypeScript:

- the board store, in `src/game.ts`;
- the legality engine and the click-driven turn state machine, in `src/controller.ts`.

Each source file becomes one Dafny module: `Game` (game.dfy) and `Controller` (controller.dfy).

## What is modelled, and how

**Board store (`Game`).**
- A piece is a `class Piece`. Its ruleset and colour are constants; `x` and `y` are fields, moved in place.
- A `Player` is a class: a king, a `subjects` sequence and two castling-rights flags.
- `ChessBoard` holds an `array2<Square>` and the two players. A `Square` is `Empty` or `Occupied(piece)`.
- The store's invariant is `ChessBoard.Valid`:
  - every subject stands on the cell its coordinates name;
  - every occupant of a cell belongs to its colour's player and records that cell;
  - each side has one king of its colour with in-range coordinates;
  - subject lists have no repetitions.
- `commitMove` is proved to keep this invariant. Its contract also states:
  - the origin cell is emptied;
  - the piece lands on the destination and takes its coordinates;
  - every other cell is unchanged;
  - a captured occupant is removed from its owner's list, the other entries keeping their order;
  - the other player's list and all castling flags are unchanged.
- The constructor is proved to build the standard opening position cell by cell, with 15 subjects per side.

**Movespace (`Controller`).**
- Each movement generator fills a fresh 8x8 `array2<bool>` with loops, as the source does.
- Each is proved equal, cell by cell, to a specification predicate that reads only the board:
  - `KnightReaches`;
  - `KingReaches`;
  - `RayReaches` / `RaysReach` for bishops, rooks and queens;
  - `PawnThreatens` and `PawnAdvances` for pawns.
- `GetMovespaceOf` dispatches on the ruleset. Its grid is `InMovespace` cell by cell.

**Legality.**
- `AvoidsCheck` states what `moveAvoidsCheck` decides. It takes as a value the positions of both sides (`Forces`, a snapshot of `getAllPiecesOf` for both colours).
- `InducedCheckFilter` is proved to keep exactly the candidate cells that avoid check.
- `GetLegalMovesOf` returns exactly `Legal`, that is: in the movespace and avoids check.
- `CalcLegalMoves` builds the map from each piece, by identity, to its legal grid.

**Turn state.**
- `ChessController` keeps these fields: `selection`, `whoseTurn`, `enPassantTarget` and the legal-move map.
- Its invariant, `ChessController.Valid`, says:
  - a selection is a piece of the side to move, standing on its cell;
  - the map holds, for exactly the pieces of the side to move, their legal grids.
- `ProcessInput` is proved to keep the invariant. Its three branches:
  - with nothing selected, it selects a piece of the side to move, or nothing;
  - on a legal destination, it commits the move, clears the selection, passes the turn and recomputes the map;
  - otherwise, it clears the selection and changes nothing else.
- After a commit, the outcome is stated against the rules, not against the map. It is:
  - `NoResult` when the side now to move has a legal move;
  - `Win(side to move)` when it has none and is in check;
  - `Stalemate` otherwise.

**Behaviour of the source that the model keeps as written.**
- **Castling is computed but never offered.** The two castle checks run for a king holding the right. Their results are dropped, and no castling destination is ever marked (src/controller.ts:162-172). `CastlingChecks` states what they compute; `GetLegalMovesOf` ignores it.
- **En passant never fires.** `enPassantTarget` starts as "none" and is never assigned (src/controller.ts:11). The invariant records that it stays `NoTarget`. `PawnThreatens` still honours a target, as `pawnThreats` does.
- **The check test reads the live board.** `moveAvoidsCheck` fills a test board with the move played (src/controller.ts:214-217). Nothing reads it afterwards. The opponents' movespaces come from `getMovespaceOf`, which reads `this.game` (src/controller.ts:225, 413). So a piece that moves off a line still blocks that line. A captured piece takes no part, because it stands on the target and the filter below always drops it (`OffLinesDrops`).
- **The opponent filter drops too much.** Before the threat test, the opponents are filtered (src/controller.ts:212). The filter keeps only those that share neither the target's column nor its row. So it discards every opponent on the target's row OR column, not just the captured piece. `OffLines` and `AvoidsCheck` keep that. `CheckOnlyFromOffLines` shows the consequence: a rook or queen attacking along the king's own row or column never counts as check.
- **Sliding rays take at most 6 steps.** Because of `length < 7` (src/controller.ts:279), `RayReaches` requires a Chebyshev distance between 1 and 6.
- **`pawnMoves` writes off the board.** It writes the one-ahead cell without checking that it lies on the board (src/controller.ts:351-355). In JavaScript that write lands outside every `0..7` index and no reader sees it. The model writes only when the cell is in bounds, which gives the same 8x8 grid.
- **A pawn's movespace mixes captures and advances.** `getMovespaceOf` for a pawn ORs diagonal threats with forward moves, both read on the live board. A king standing in front of an enemy pawn is not attacked, since an occupied square is no advance (`PawnMovespaceAt`). Nor do a pawn's advance squares ever restrict a king's step: a pawn advances only along its own column, and the filter below drops every opponent on the target's column (`PawnAdvancesNeverCount`). So for a king's step only a pawn's diagonal captures can count.
- **handleWin names the side to move.** That is the mated side (src/controller.ts:74-75, 106). `Outcome.Win(named)` records that colour.
- **A captured king stays listed.** Nothing forbids capturing a king. The store's invariant does not require the kings to stand on the board, and `getAllPiecesOf` still returns a captured king with its old coordinates. `CommitMove`, `CommitSelected`, `PlayMove` and `ProcessInput` state that every listed piece other than the mover keeps its position, the captured king included.
- There is no promotion, and no guard against moves after checkmate or stalemate.

**Structural splits.**
Several inner loops or branches of one source function are separate Dafny methods. Each keeps the source's statements in order:
- the inner loop of `directionalThreatSearch` is `SearchDirection`;
- the final loop of `moveAvoidsCheck` is `KingLocationSafe`;
- its test-board lines are `TestBoardWithMove`;
- the inner loop of `inducedCheckFilter` is `FilterColumn`;
- the castling part of `getLegalMovesOf` is `CastlingChecks`;
- the pushed entry of `intermediateSquaresCheck` is `KingCanTraverse`;
- the commit branch of `processInput` is `PlayMove`, with its state change in `CommitSelected`;
- the map recomputation shared with the constructor is `RecomputeMoves`;
- the end-of-game part (src/controller.ts:73-80) is `EndOfTurn`;
- the `forEach` callback of `makeSoldiers` is `PlaceMinorPair`;
- the writes of `commitMove` are `MovePiece`.

`initPlayer`, `makeSoldiers` and `createPieceAt` are static methods that take the board array. The source's constructor assigns `this.board` and then calls them as instance methods (src/game.ts:55-57). A Dafny constructor cannot call instance methods before its object is complete, so here the constructor fills a local array through the static methods and then assigns the fields. The writes and their order are the same.

## Model

| member | source | states |
|---|---|---|
| Game.Without | src/game.ts:27 | the filter keeps exactly the entries other than the removed piece, and never grows the list |
| Game.WithoutAbsent | src/game.ts:26-28 | removing a piece that is not in the list leaves the list unchanged |
| Game.WithoutAt | src/game.ts:26-28 | in a list without repetitions, removing the piece at index i deletes exactly that entry and keeps the others in order |
| Game.WithoutDistinct | src/game.ts:26-28 | removal keeps a list free of repetitions |
| Game.Player.constructor | src/game.ts:19-24 | the player holds the given king and subjects, and both castling rights |
| Game.Player.RemovePiece | src/game.ts:26-28 | subjects become the old subjects without the piece, in order; the piece is no longer present; the castling flags are kept |
| Game.Player.AddPiece | src/game.ts:30-34 | afterwards the piece is present; it is appended only when absent, otherwise nothing changes; a list without repetitions stays so |
| Game.ChessBoard.constructor | src/game.ts:54-58 | the store is valid; the position is the standard opening (king on column 4, queen on 3, rooks 0/7, knights 1/6, bishops 2/5, pawns on row 1 or 6); 15 subjects per side; all castling rights held |
| Game.ChessBoard.OpeningIsValid | src/game.ts:54-88 | the layout left by the two initPlayer calls satisfies the store invariant and matches the opening cell by cell |
| Game.ChessBoard.InitPlayer | src/game.ts:62-67 | a fresh player whose king is on column 4 of its home row, with 15 distinct subjects on its two rows in the standard layout; no other cell changes |
| Game.ChessBoard.MakeSoldiers | src/game.ts:70-88 | 15 distinct pieces fill the queen, pawn and minor-piece cells of the colour with the opening rulesets; every other cell is unchanged |
| Game.ChessBoard.PlaceMinorPair | src/game.ts:82-85 | one callback of the forEach adds the ruleset's pieces on columns index and 7-index of the piece row, keeping the cells placed so far |
| Game.ChessBoard.CreatePieceAt | src/game.ts:153-157 | a fresh piece with the given ruleset, colour and coordinates is written there; no other cell changes |
| Game.ChessBoard.GetTestBoard | src/game.ts:94-106 | a fresh 8x8 grid; each cell has the live cell's occupancy, and each occupant is a fresh piece, other than the original, with the same ruleset, colour and coordinates, so writes to the copy cannot reach the live board |
| Game.ChessBoard.PlayerLookup | src/game.ts:109-114 | getPlayer returns one of the two players, the white one exactly for W (the lookup itself; PlayerOfColour holds the content) |
| Game.ChessBoard.PlayerOfColour | src/game.ts:109-114 | in a valid store the player the switch picks holds a king of that colour, and the two colours pick different players; with PlayerLookup this is what getPlayer promises |
| Game.ChessBoard.AllPiecesShape | src/game.ts:116-123 | getAllPiecesOf has one entry per subject of that colour's player and the king last; getAllPiecesButKingOf is getAllPiecesOf without that last entry (the shape of the lookup; AllPiecesOf holds the content) |
| Game.ChessBoard.AllPiecesOf | src/game.ts:109-123 | getAllPiecesOf(c) is the subjects followed by the king; every piece in it has colour c; every piece of colour c on the board is in it; the subjects hold no king |
| Game.ChessBoard.GetKingOf | src/game.ts:125-127 | a fresh piece equal in value to the king, so moving it cannot move the live king |
| Game.ChessBoard.GetEmptyMoveBoard | src/game.ts:129-131 | a fresh 8x8 grid, all false |
| Game.ChessBoard.GetSquareAt | src/game.ts:134-136 | the cell read is empty exactly when squareIsEmpty says so (the lookup itself; OccupantRecordsCell holds the content) |
| Game.ChessBoard.OccupantRecordsCell | src/game.ts:134-136 | in a valid store the occupant read from a cell records that cell as its coordinates and is listed by getAllPiecesOf for its colour |
| Game.ChessBoard.CommitMove | src/game.ts:144-151 | the store stays valid; the origin is emptied, the piece is on the destination with its coordinates; every other cell is unchanged; a captured occupant leaves only its owner's subjects; every other piece keeps its coordinates, whether listed or not; castling flags are unchanged |
| Game.ChessBoard.MovePiece | src/game.ts:145-150 | the writes of commitMove: the board, the coordinates and the subject lists end as Moved describes |
| Game.ChessBoard.MoveKeepsValid | src/game.ts:144-151 | after such a move the store invariant holds again |
| Game.ChessBoard.SetPieceAt | src/game.ts:159-162 | the cell holds the piece; the piece's coordinates are the cell's; no other cell changes |
| Game.ChessBoard.ClearPiece | src/game.ts:164-168 | the piece leaves its owner's subjects and its cell becomes empty; the other player and every other cell are unchanged |
| Game.ChessBoard.SquareIsEmpty | src/game.ts:171-173 | an empty square holds an enemy of neither side |
| Game.ChessBoard.SquareHasEnemy | src/game.ts:175-182 | a square holding an enemy is occupied (the full characterisation is EnemyMeansOtherColour) |
| Game.ChessBoard.EnemyMeansOtherColour | src/game.ts:171-182 | an empty square holds no enemy of either side; an occupied square holds an enemy of exactly one side, the occupant's opponent |
| Controller.InBounds | src/controller.ts:307-309 | the negated test holds exactly when 0 <= x <= 7 and 0 <= y <= 7 |
| Controller.PawnHasNotMoved | src/controller.ts:367-374 | true exactly when the pawn is on its starting row, 1 for white and 6 for black |
| Controller.OffLines | src/controller.ts:212 | keeps exactly the opponents that share neither the target's column nor its row |
| Controller.OffLinesDrops | src/controller.ts:212 | every piece on the target's row or column, the captured piece included, is dropped |
| Controller.ChessController.constructor | src/controller.ts:19-28 | the opening position, white to move, nothing selected, and the legal-move map of white's pieces (the controller invariant holds) |
| Controller.ChessController.CanMoveToOrCaptureOn | src/controller.ts:412-419 | true exactly when the square is empty or holds an enemy of the colour |
| Controller.ChessController.EPCheck | src/controller.ts:333-341 | true exactly when the en-passant target is set and is that square |
| Controller.ChessController.CombineBoolArrays | src/controller.ts:252-258 | a fresh grid whose every cell is the OR of the two given cells |
| Controller.ChessController.SearchDirection | src/controller.ts:278-301 | one direction sets exactly the squares of its ray (consecutive empty squares, then the first occupied one if it holds an enemy, at most 6 steps) and keeps every other cell |
| Controller.ChessController.RayCut | src/controller.ts:285-296 | where a ray stops (off the board, an occupied square, or step 7), it holds exactly the squares before it, plus the stopping square if that holds an enemy |
| Controller.ChessController.WalkMarksRay | src/controller.ts:278-299 | a walk that stopped where a ray stops has added to the grid exactly the squares of that ray |
| Controller.ChessController.RayPrefix | src/controller.ts:279-298 | the ray is consecutive: when it reaches step k, every earlier step is empty and reached |
| Controller.ChessController.DirectionalThreatSearch | src/controller.ts:272-305 | a fresh grid that is, cell by cell, the union of the rays along the given directions |
| Controller.ChessController.BishopThreats | src/controller.ts:260-263 | the union of the four diagonal rays |
| Controller.ChessController.RookThreats | src/controller.ts:265-268 | the union of the four straight rays |
| Controller.ChessController.QueenThreats | src/controller.ts:248-250 | cell by cell, the bishop's grid OR the rook's grid |
| Controller.ChessController.PawnThreats | src/controller.ts:313-331 | exactly the in-bounds forward diagonals that hold an enemy or equal the en-passant target |
| Controller.ChessController.PawnMoves | src/controller.ts:343-365 | one ahead exactly when it is on the board and empty; two ahead exactly when the pawn is on its starting row and both squares are empty |
| Controller.ChessController.KnightThreats | src/controller.ts:376-392 | exactly the in-bounds (2,1)/(1,2) jumps that are empty or hold an enemy |
| Controller.ChessController.KingThreats | src/controller.ts:394-410 | exactly the in-bounds neighbours, never the king's own square, that are empty or hold an enemy |
| Controller.ChessController.GetMovespaceOf | src/controller.ts:236-246 | the grid of the piece's ruleset; for a pawn, its threats OR its advances |
| Controller.ChessController.MovespaceSparesOwnSide | src/controller.ts:412-419 | no movespace holds a square occupied by the mover's own side (unless it is the en-passant target) |
| Controller.ChessController.PawnAdvancesNeverCount | src/controller.ts:205-233 | no opponent that the filter keeps for a king's step has the target among its pawn advances |
| Controller.ChessController.PawnMovespaceAt | src/controller.ts:313-365 | an occupied square is never a pawn advance; on an empty square other than the en-passant target the pawn's movespace is exactly its advances |
| Controller.ChessController.CurrentOpponent | src/controller.ts:125-128 | the colour that is not to move |
| Controller.ChessController.CheckOnlyFromOffLines | src/controller.ts:205-233 | check can come only from an opponent off both the king's row and column, which is in the king's movespace test |
| Controller.ChessController.KingLocationSafe | src/controller.ts:223-231 | true exactly when no listed opponent has the king's square in its movespace; it returns at the first one that has |
| Controller.ChessController.MoveAvoidsCheck | src/controller.ts:205-233 | the answer is AvoidsCheck: no opponent off the target's row and column has the king's square (the target, for a king) in its movespace on the live board |
| Controller.ChessController.TestBoardWithMove | src/controller.ts:213-217 | a fresh deep copy: the origin emptied; on the target a fresh copy of the piece with the target as its coordinates; every other cell a fresh copy of the live cell |
| Controller.ChessController.InducedCheckFilter | src/controller.ts:194-203 | every cell becomes its old value AND "the move there avoids check", so only true cells turn false |
| Controller.ChessController.FilterColumn | src/controller.ts:196-200 | the same for one column; the other columns are unchanged |
| Controller.ChessController.AllOf | src/controller.ts:190 | the left fold of AND over a non-empty list is true exactly when every entry is |
| Controller.ChessController.KingCanTraverse | src/controller.ts:188 | the square is empty and the king moved there avoids check |
| Controller.ChessController.IntermediateSquaresCheck | src/controller.ts:185-191 | true exactly when every listed square is empty and the king moved there avoids check |
| Controller.ChessController.PathClearListed | src/controller.ts:177-183 | the listed squares clear is the same as the king's row clear from column lo to hi |
| Controller.ChessController.KingsideCastleCheck | src/controller.ts:177-179 | columns 5 and 6 of the king's row are empty and avoid check |
| Controller.ChessController.QueensideCastleCheck | src/controller.ts:181-183 | columns 1 to 3 of the king's row are empty and avoid check |
| Controller.ChessController.CastlingChecks | src/controller.ts:162-172 | each check is true exactly when the side holds that right and the path is clear |
| Controller.ChessController.GetLegalMovesOf | src/controller.ts:155-175 | a fresh grid holding exactly the legal destinations: in the movespace and avoiding check; the castling checks add nothing |
| Controller.ChessController.CalcLegalMoves | src/controller.ts:89-95 | the map's keys are exactly the given pieces, and each maps to its legal grid |
| Controller.ChessController.RecomputeMoves | src/controller.ts:71-72 | the map becomes the legal-move map of the side to move, re-establishing the controller invariant |
| Controller.ChessController.MoveIsLegal | src/controller.ts:97-103 | false for a piece that is not in the map; otherwise the map's cell |
| Controller.ChessController.MoveIsLegalMeans | src/controller.ts:97-103 | under the invariant, the map allows a move exactly when the piece belongs to the side to move and the destination is legal for it |
| Controller.ChessController.LegalMoveSparesOwnSide | src/controller.ts:97-103 | a move the map allows never lands on a piece of the side to move |
| Controller.ChessController.ColumnHasMove | src/controller.ts:135 | the inner reduce of OR over one `moves[x]`, which is a column, is true exactly when some cell of the column is |
| Controller.ChessController.GridHasMove | src/controller.ts:135-136 | the outer reduce is true exactly when some cell of the grid is |
| Controller.ChessController.CurrentPlayerHasLegalMoves | src/controller.ts:130-141 | true exactly when some cell of some grid of the map is true |
| Controller.ChessController.HasLegalMovesMeans | src/controller.ts:130-141 | under the invariant, the map has a true cell exactly when the side to move has a legal move |
| Controller.ChessController.MapMoveIsLegal | src/controller.ts:130-141 | a true cell of the map is a legal move of the side to move |
| Controller.ChessController.LegalMoveInMap | src/controller.ts:130-141 | a legal move of the side to move is a true cell of the map |
| Controller.ChessController.CurPlayerInCheck | src/controller.ts:117-122 | exactly the negation of the induced-check test for a copy of the king staying on its square |
| Controller.ChessController.EndOfTurn | src/controller.ts:73-80 | no result when the side to move has a legal move; otherwise a win named after that side when it is in check, and a stalemate when it is not |
| Controller.ChessController.SelectSquare | src/controller.ts:143-152 | the selection becomes the square's occupant when that is a piece of the side to move, and is otherwise unchanged |
| Controller.ChessController.CommitSelected | src/controller.ts:67-72 | the selected piece is committed as commitMove does (the cells, the capture from the owner's subjects, every other listed piece at its old position, every castling right kept), the selection is cleared, the turn passes and the new map is computed; the invariant holds |
| Controller.ChessController.PlayMove | src/controller.ts:66-81 | the commit branch: cells, capture, the other listed pieces' positions and castling rights as in commitMove, the selection cleared, the turn passed, the invariant kept, and the outcome as for EndOfTurn |
| Controller.ChessController.ProcessInput | src/controller.ts:57-87 | the invariant and every castling right are kept; with nothing selected only the selection may change, and only to a piece of the side to move; a legal destination commits as commitMove does (cells, capture, every other listed piece at its old position) and passes the turn; anything else clears the selection; outside the commit the board, the players, the pieces and the map are unchanged |

## Left out

- The canvas, DOM and sprite code (src/renderer.ts, src/renderers.ts, src/chessview.ts and src/page.ts) is not part of this model. It holds no rule logic.
- The pixel conversion of `processInput` (src/controller.ts:59-61) is floating-point division and `Math.floor`. `ProcessInput` takes the board coordinate directly, required to be in [0,7]².
- `display`, `printMoves`, the `view.draw` calls and `getAllGamePieces` only feed the drawing side or the console, so they are left out.
- `Player.color` (src/game.ts:36-38) is never called, so it is left out.
- `handleWin`, `handleStalemate`, `handleDrawByInsufficientMaterial` and the console message of `getLegalMovesOf` only print. The first two become the returned `Outcome`. The third is never called.
- `getPlayer`, `getAllPiecesOf` and `getAllPiecesButKingOf` are modelled as `GetPlayer`, `GetAllPiecesOf` and `GetAllPiecesButKingOf` without contracts of their own, because the proofs of the legal-move search read them at many heap states. `PlayerLookup`, `AllPiecesShape` and `AllPiecesOf` state their properties.
- The source does not implement several features, so the model does not invent them:
  - castling destinations, rook relocation and rights revocation;
  - setting or clearing the en-passant target;
  - the insufficient-material draw;
  - a guard against moves after the game has ended.
- Controller.ChessController.IntermediateSquaresCheck: it requires a non-empty list. The source's `reduce` without an initial value throws on an empty list, and both callers pass two or three squares.
- Controller.ChessController.PawnMoves: it requires the pawn to stand on the board. Every caller passes a piece of the store, and the store's invariant keeps pieces on the board.
- Controller.ChessController.KingThreats: it requires the king to stand on the board, for the same reason as PawnMoves.
- Controller.ChessController.GetMovespaceOf: it requires the piece to stand on the board, for the same reason as PawnMoves. The legality methods likewise require the store's pieces to be inside the board, which `ChessBoard.Valid` provides.
- JavaScript `Map` iteration order is not modelled. `currentPlayerHasLegalMoves` ORs the grids in that order, and the result does not depend on it.
