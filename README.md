# chess_backend position logic in Dafny

This project models the position logic of the `chess_backend` crate and proves properties about it. The model has three modules, one per source file:

- `Boards` (`board.dfy`) models `board.rs`:
  - the piece kinds, colours and pieces;
  - the 64-slot board with bounds-checked reads and writes;
  - the start layout built by `Board::new`;
  - the text grid built by `display`.
- `MoveGen` (`move_gen.dfy`) models `move_gen.rs`, the pseudo-legal move generator. Each per-piece generator is a method. It takes the caller's move list as a sequence `moves` and returns it extended as `moves'`. It is proved to append exactly what a specification function describes:
  - `Ray` for the sliding walks;
  - `PawnTargets` for pawns;
  - `OffsetTargets` over the knight and king tables;
  - `Moves` for `generate_moves`.

  The generator's promises are lemmas about those functions:
  - targets stay on the board;
  - no target holds a piece of the mover's side;
  - the source cell is never a target;
  - the pawn rules, cell by cell;
  - the shape of a ray;
  - the queen's order.
- `Engine` (`engine.dfy`) models `engine.rs`, the `ChessEngine` facade. It is a class owning a `Board`:
  - `GenerateAllLegalMoves` concatenates the generator's output over the 64 cells, rank-major, and is proved equal to `AllTargets`;
  - `Search` returns the first entry, or `None` when there is none;
  - `ApplyMove` relocates whatever stands on the source cell.

Coordinates are unbounded integers. The source computes `(x as i8 + d) as usize`, so a negative result wraps to a huge `usize` that then fails the `< 8` test. The model writes this as integer arithmetic followed by an explicit `0 <= x < 8` test. The two forms accept and reject the same cells.

Two behaviours of the code are worth stating outright:
- **Double push.** The double push (`move_gen.rs:50-55`) is nested inside the single-push branch (`move_gen.rs:47`), so both squares must be empty. `PawnPushTargets`, `PawnDoublePush` and `DoublePushNeedsSinglePush` state this.
- **Targets only.** The aggregate list holds target cells only (`engine.rs:29-33`), so `Search` returns a target cell, not a (from, to) pair.

## Model

| member | source | states |
|---|---|---|
| Boards.Board.constructor | chess_backend/src/modules/board.rs:29-67 | the new board holds exactly the start layout `StartCells()` |
| Boards.StartLayout | chess_backend/src/modules/board.rs:29-67 | rank 0 holds White's R N B Q K B N R and rank 7 holds Black's; ranks 1 and 6 hold the pawns; ranks 2 to 5 are empty; each piece has a mirror of the same kind and the other colour |
| Boards.Board.GetPiece | chess_backend/src/modules/board.rs:69-75 | the read is `PieceAt`: slot rank * 8 + file on the board, empty for any rank or file of 8 or more |
| Boards.IndexRoundTrip | chess_backend/src/modules/board.rs:70-71 | the slot rank * 8 + file gives back rank and file, so distinct cells use distinct slots among 0..63 |
| Boards.Board.SetPiece | chess_backend/src/modules/board.rs:77-81 | the new slots are `SetAt` of the old ones: one slot rewritten on the board, nothing changed off it |
| Boards.GetAfterSet | chess_backend/src/modules/board.rs:77-81 | after a write the written cell reads back the new piece when it is on the board; every other cell, and every cell when the write is off the board, reads as before |
| Boards.Glyph | chess_backend/src/modules/board.rs:88-102 | a cell shows '.' iff it is empty; White pieces show upper-case letters and Black pieces lower-case ones |
| Boards.GlyphInjective | chess_backend/src/modules/board.rs:88-102 | no two different slot contents share a character |
| Boards.Board.Display | chess_backend/src/modules/board.rs:83-109 | the grid is 136 characters long; character i is `DisplayChar(pieces, i)`: 8 lines, rank 7 first, each with 8 "glyph, space" pairs and a newline |
| Boards.DisplayIsLossless | chess_backend/src/modules/board.rs:83-109 | two boards with the same display are the same board |
| MoveGen.GenerateMoves | chess_backend/src/modules/move_gen.rs:3-38 | the result is `Moves` of the board at that cell; it is empty when rank or file is above 7 or the cell is empty |
| MoveGen.MovesSound | chess_backend/src/modules/move_gen.rs:3-38 | every target has a mover on the source cell, is on the board, is not held by the mover's side and is not the source cell |
| MoveGen.PieceTargetsSound | chess_backend/src/modules/move_gen.rs:16-35 | the same three facts hold for each piece kind's targets |
| MoveGen.GeneratePawnMoves | chess_backend/src/modules/move_gen.rs:40-70 | appends exactly `PawnTargets`: the pushes, then the capture on file - 1, then the capture on file + 1 |
| MoveGen.AddCapture | chess_backend/src/modules/move_gen.rs:59-68 | a capture cell is appended iff it holds a piece of the other side |
| MoveGen.PawnTargetsMembers | chess_backend/src/modules/move_gen.rs:40-70 | a cell is a pawn target iff it is the single push onto an empty cell one rank forward, the double push, or a capture of an opposing piece one rank forward on an adjacent file |
| MoveGen.PawnPushMembers | chess_backend/src/modules/move_gen.rs:45-56 | the pushes are exactly the single push and the double push; the double push needs the start rank and both squares empty |
| MoveGen.DoublePushNeedsSinglePush | chess_backend/src/modules/move_gen.rs:47-55 | a double-push target appears only from the start rank and only together with the single push |
| MoveGen.StartPawnAdvances | chess_backend/src/modules/move_gen.rs:40-56 | at the start the white pawn on (1, 0) has exactly the targets (2, 0) and (3, 0) |
| MoveGen.GenerateRookMoves | chess_backend/src/modules/move_gen.rs:72-77 | appends the four orthogonal walks in the order +rank, -rank, +file, -file |
| MoveGen.StartRookBlocked | chess_backend/src/modules/move_gen.rs:72-77 | at the start the white rook on (0, 0) has no target |
| MoveGen.GenerateBishopMoves | chess_backend/src/modules/move_gen.rs:79-84 | appends the four diagonal walks in the order (1, 1), (1, -1), (-1, 1), (-1, -1) |
| MoveGen.GenerateQueenMoves | chess_backend/src/modules/move_gen.rs:86-95 | appends the rook's targets followed by the bishop's targets |
| MoveGen.GenerateKingMoves | chess_backend/src/modules/move_gen.rs:97-117 | the nested loops over -1..=1 with (0, 0) skipped append `OffsetTargets` of the king table, in loop order |
| MoveGen.AddStep | chess_backend/src/modules/move_gen.rs:103-114 | the cell one offset away is appended iff it is on the board and not held by the mover's side |
| MoveGen.GenerateKnightMoves | chess_backend/src/modules/move_gen.rs:119-140 | appends `OffsetTargets` of the knight table, in table order |
| MoveGen.OffsetTargetsMembers | chess_backend/src/modules/move_gen.rs:125-139 | a cell is a knight or king target iff some offset reaches it and it is on the board and not held by the mover's side |
| MoveGen.OffsetTargetsCount | chess_backend/src/modules/move_gen.rs:125-139 | a table yields at most one target per offset, so at most 8 |
| MoveGen.OffsetTablesNonZero | chess_backend/src/modules/move_gen.rs:120-123 | neither the knight table nor the king table contains (0, 0) |
| MoveGen.StartKnightJumps | chess_backend/src/modules/move_gen.rs:119-140 | at the start the white knight on (0, 1) has exactly the targets (2, 0) and (2, 2), in that order |
| MoveGen.GenerateStraightMoves | chess_backend/src/modules/move_gen.rs:142-160 | the while loop appends exactly `RayFrom` in the given direction |
| MoveGen.GenerateDiagonalMoves | chess_backend/src/modules/move_gen.rs:162-188 | the while loop appends exactly `RayFrom` in the given direction |
| MoveGen.RayPositions | chess_backend/src/modules/move_gen.rs:142-160 | element k of a walk is k steps from its start along the direction |
| MoveGen.RayContents | chess_backend/src/modules/move_gen.rs:146-156 | every cell of a walk is on the board; every cell but the last is empty; the last is empty or held by the other side |
| MoveGen.RayStopsWhereBlocked | chess_backend/src/modules/move_gen.rs:149-153 | when a walk's last cell is empty, the next cell in the direction is off the board or held by the mover's side, so the walk stops only where it must |
| MoveGen.RayEmptyOnlyWhenBlocked | chess_backend/src/modules/move_gen.rs:143-153 | a walk is empty iff its first cell is off the board or held by the mover's side |
| MoveGen.RaySound | chess_backend/src/modules/move_gen.rs:142-160 | no walk target is off the board, held by the mover's side, or the piece's own cell |
| MoveGen.LoneRookWalks | chess_backend/src/modules/move_gen.rs:142-160 | a rook on (3, 3) with a black pawn on (3, 6) walks (3, 4), (3, 5), (3, 6) and stops; in the other three directions it walks to the edge |
| Engine.ChessEngine.constructor | chess_backend/src/modules/engine.rs:9-13 | a new engine owns a fresh board holding the start layout |
| Engine.ChessEngine.Search | chess_backend/src/modules/engine.rs:15-23 | returns `None` iff the aggregate list is empty; otherwise returns its first element, which is a target of some piece on the board |
| Engine.StartFirstTarget | chess_backend/src/modules/engine.rs:15-23 | from the start position the first entry of the aggregate list is (2, 0), the knight's first jump |
| Engine.EmptyBoardHasNoTargets | chess_backend/src/modules/engine.rs:66-71 | a board with no piece has an empty aggregate list, so `Search` returns `None` |
| Engine.ChessEngine.GenerateAllLegalMoves | chess_backend/src/modules/engine.rs:25-36 | the nested loops return `AllTargets`: the targets of the 64 cells, rank 0 to 7 and on each rank file 0 to 7 |
| Engine.ChessEngine.CollectCell | chess_backend/src/modules/engine.rs:29-33 | one pass of the inner loop appends the targets of that cell |
| Engine.PushAll | chess_backend/src/modules/engine.rs:31-33 | pushing the moves one by one appends them all, in order |
| Engine.CellMovesAt | chess_backend/src/modules/engine.rs:27-30 | entry 8 * rank + file of the scan is what `generate_moves` reports for (rank, file) |
| Engine.AllTargetsMembers | chess_backend/src/modules/engine.rs:25-36 | a cell is in the aggregate list iff it is a target of the piece on some cell |
| Engine.AllTargetsSound | chess_backend/src/modules/engine.rs:25-36 | every entry of the aggregate list is on the board and can be reached by some piece: it is not held by that piece's side and is not its own cell |
| Engine.ChessEngine.ApplyMove | chess_backend/src/modules/engine.rs:38-42 | the new board is `Relocate` of the old: the source is cleared, then the destination receives what the source held |
| Engine.RelocateCells | chess_backend/src/modules/engine.rs:38-42 | cell by cell: the destination holds the source's old piece; the source is empty unless it is the destination; every other cell is unchanged |
| Engine.RelocateOntoItself | chess_backend/src/modules/engine.rs:39-41 | moving a cell onto itself leaves the board unchanged |
| Engine.RelocateFromEmptyClears | chess_backend/src/modules/engine.rs:39-41 | moving from an empty or off-board cell clears the destination |
| Engine.StartRookOntoKnight | chess_backend/src/modules/engine.rs:74-84 | moving the start rook from (0, 0) onto (0, 1) puts the rook on (0, 1), empties (0, 0) and changes the board |

## Left out

- `uci.rs`, `main.rs`, `app.rs` and `lib.rs` are not part of this model. They hold the engine subprocess protocol, the HTTP/WebSocket server, the UI and module re-exports. All of it is I/O, process handling or concurrency.
- `println!` output and other logging are not modelled.
- Boards.Board: the source's `[Option<Piece>; 64]` is a fixed-size array that `Board` owns by value and copies on `clone`. The model holds it as a 64-element sequence field that `SetPiece` reassigns. The in-place write and the value semantics are kept; no other object can alias the slots, so no aliasing is lost.
- `get_board` and `get_board_mut` return a reference to the engine's board. In the model, callers read the `board` field of `ChessEngine` directly. The difference between a shared reference and a mutable one is not modelled.
- Engine.ChessEngine.Search: the method has no `modifies` clause, so it cannot change the board. This is stronger than the source's `&mut self` signature, which permits a change but makes none.
- The derived `Debug`, `Clone`, `Copy`, `PartialEq` and `Eq` implementations are Dafny's built-in value equality on datatypes and sequences.
- Integer widths: `usize` and `i8` are unbounded integers. The source's wrap-around on a negative coordinate is modelled as the bounds test it always fails. No `i8` overflow is reachable from coordinates below 8.
- MoveGen.GenerateStraightMoves and MoveGen.GenerateDiagonalMoves require a unit direction. Every call site (`move_gen.rs:73-76`, `80-83`, `87-94`) passes one, so the model does not cover other steps. A zero step would loop forever only from an empty cell.
- Check, pins, castling, en passant, promotion and real search are absent from the source and absent from the model.
