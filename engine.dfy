/** The engine of chess_backend/src/modules/engine.rs: it owns one board, lists the
    targets of every piece on it in scan order, proposes the first of them, and
    applies a move by relocating whatever stands on the source cell. */
module Engine {
  import opened Boards
  import opened MoveGen

  // ---------------------------------------------------------------- the scan

  /** The targets of each cell, in scan order: cell k is rank k / 8, file k % 8, so
      rank 0 comes first and each rank runs from file 0 to file 7. */
  function CellMoves(cells: Cells): (perCell: seq<seq<Cell>>)
    ensures |perCell| == 64
  {
    seq(64, k requires 0 <= k < 64 => Moves(cells, k / 8, k % 8))
  }

  /** The entries of the first n cells, concatenated in order. */
  function Flatten(perCell: seq<seq<Cell>>, n: nat): seq<Cell>
    requires n <= |perCell|
    decreases n
  {
    if n == 0 then [] else Flatten(perCell, n - 1) + perCell[n - 1]
  }

  /** Every target of every piece on the board, in the order the engine scans the
      cells: rank 0 to 7, and on each rank file 0 to 7. */
  function AllTargets(cells: Cells): seq<Cell> {
    Flatten(CellMoves(cells), 64)
  }

  /** Entry 8 * rank + file holds what generate_moves reports for (rank, file). */
  lemma CellMovesAt(cells: Cells, rank: nat, file: nat)
    requires InBounds(rank, file)
    ensures CellMoves(cells)[8 * rank + file] == Moves(cells, rank, file)
  {
    IndexRoundTrip(rank, file);
    assert Index(rank, file) == 8 * rank + file;
  }

  /** The concatenation holds a target iff one of its first n entries does. */
  lemma {:induction false} FlattenMembers(perCell: seq<seq<Cell>>, n: nat, t: Cell)
    requires n <= |perCell|
    decreases n
    ensures t in Flatten(perCell, n) <==> exists k: nat :: k < n && t in perCell[k]
  {
    if n > 0 {
      FlattenMembers(perCell, n - 1, t);
      if exists k: nat :: k < n && t in perCell[k] {
        var k: nat :| k < n && t in perCell[k];
        if k < n - 1 {
          assert t in Flatten(perCell, n - 1);
        }
      }
    }
  }

  /** generate_all_legal_moves reports exactly the targets of the pieces on the board. */
  lemma AllTargetsMembers(cells: Cells, t: Cell)
    ensures t in AllTargets(cells) <==> exists r: nat, f: nat :: r < 8 && f < 8 && t in Moves(cells, r, f)
  {
    var perCell := CellMoves(cells);
    FlattenMembers(perCell, 64, t);
    if t in AllTargets(cells) {
      var k: nat :| k < 64 && t in perCell[k];
      SlotRoundTrip(k);
      CellMovesAt(cells, k / 8, k % 8);
      assert t in Moves(cells, k / 8, k % 8);
    }
    if exists r: nat, f: nat :: r < 8 && f < 8 && t in Moves(cells, r, f) {
      var r: nat, f: nat :| r < 8 && f < 8 && t in Moves(cells, r, f);
      CellMovesAt(cells, r, f);
      assert t in perCell[8 * r + f];
    }
  }

  /** Every reported target can be reached by some piece: it is on the board, not held
      by that piece's side, and not the piece's own cell. */
  lemma AllTargetsSound(cells: Cells, t: Cell)
    requires t in AllTargets(cells)
    ensures exists r: nat, f: nat :: r < 8 && f < 8 && PieceAt(cells, r, f).Some? &&
              IsFreeFor(cells, t.0, t.1, PieceAt(cells, r, f).value.color) && t != (r, f)
  {
    AllTargetsMembers(cells, t);
    var r: nat, f: nat :| r < 8 && f < 8 && t in Moves(cells, r, f);
    MovesSound(cells, r, f);
  }

  /** Concatenating empty entries gives nothing. */
  lemma {:induction false} FlattenOfNothing(perCell: seq<seq<Cell>>, n: nat)
    requires n <= |perCell|
    requires forall k :: 0 <= k < |perCell| ==> perCell[k] == []
    decreases n
    ensures Flatten(perCell, n) == []
  {
    if n > 0 {
      FlattenOfNothing(perCell, n - 1);
    }
  }

  /** A board with no piece has no target, so the search finds nothing. */
  lemma EmptyBoardHasNoTargets()
    ensures AllTargets(EmptyCells()) == []
  {
    var perCell := CellMoves(EmptyCells());
    forall k | 0 <= k < 64
      ensures perCell[k] == []
    {
      SlotRoundTrip(k);
      CellMovesAt(EmptyCells(), k / 8, k % 8);
      assert PieceAt(EmptyCells(), k / 8, k % 8) == None;
    }
    FlattenOfNothing(perCell, 64);
  }

  /** Concatenating more entries only extends the result. */
  lemma {:induction false} FlattenPrefix(perCell: seq<seq<Cell>>, n: nat, m: nat)
    requires n <= m <= |perCell|
    decreases m
    ensures Flatten(perCell, n) <= Flatten(perCell, m)
  {
    if n < m {
      FlattenPrefix(perCell, n, m - 1);
    }
  }

  /** From the start position the scan first meets the knight on (0, 1): the rook on
      (0, 0) has no target, and the knight's first is (2, 0). */
  lemma StartFirstTarget()
    ensures |AllTargets(StartCells())| > 0 && AllTargets(StartCells())[0] == (2, 0)
  {
    var perCell := CellMoves(StartCells());
    CellMovesAt(StartCells(), 0, 0);
    CellMovesAt(StartCells(), 0, 1);
    StartRookBlocked();
    StartKnightJumps();
    FlattenPrefix(perCell, 2, 64);
    assert Flatten(perCell, 2) == [(2, 0), (2, 2)];
  }

  // ---------------------------------------------------------------- applying a move

  /** The slots after apply_move: the source cell is cleared, then the destination
      receives what the source held (nothing, when the source was empty or off the
      board); a cell off the board is never written. */
  function Relocate(cells: Cells, from: Cell, to: Cell): Cells {
    SetAt(SetAt(cells, from.0, from.1, None), to.0, to.1, PieceAt(cells, from.0, from.1))
  }

  /** Cell by cell: the destination holds the source's old piece, the source is empty
      unless it is also the destination, and every other cell is unchanged. */
  lemma RelocateCells(cells: Cells, from: Cell, to: Cell, r: int, f: int)
    ensures PieceAt(Relocate(cells, from, to), r, f)
         == if InBounds(to.0, to.1) && (r, f) == to then PieceAt(cells, from.0, from.1)
            else if InBounds(from.0, from.1) && (r, f) == from then None
            else PieceAt(cells, r, f)
  {
    var cleared := SetAt(cells, from.0, from.1, None);
    GetAfterSet(cleared, to.0, to.1, PieceAt(cells, from.0, from.1), r, f);
    GetAfterSet(cells, from.0, from.1, None, r, f);
  }

  /** Moving a cell onto itself changes nothing. */
  lemma RelocateOntoItself(cells: Cells, c: Cell)
    ensures Relocate(cells, c, c) == cells
  {
    forall r, f | InBounds(r, f)
      ensures PieceAt(Relocate(cells, c, c), r, f) == PieceAt(cells, r, f)
    {
      RelocateCells(cells, c, c, r, f);
    }
    CellsExtensional(Relocate(cells, c, c), cells);
  }

  /** Moving from an empty cell does not leave the destination alone: it empties it. */
  lemma RelocateFromEmptyClears(cells: Cells, from: Cell, to: Cell)
    requires PieceAt(cells, from.0, from.1) == None
    ensures Relocate(cells, from, to) == SetAt(cells, to.0, to.1, None)
  {
    forall r, f | InBounds(r, f)
      ensures PieceAt(Relocate(cells, from, to), r, f) == PieceAt(SetAt(cells, to.0, to.1, None), r, f)
    {
      RelocateCells(cells, from, to, r, f);
      GetAfterSet(cells, to.0, to.1, None, r, f);
    }
    CellsExtensional(Relocate(cells, from, to), SetAt(cells, to.0, to.1, None));
  }

  /** The scenario of the engine's apply-move test: moving the white rook from (0, 0)
      onto the knight at (0, 1) puts the rook on (0, 1), empties (0, 0), and changes
      the board. */
  lemma StartRookOntoKnight()
    ensures PieceAt(Relocate(StartCells(), (0, 0), (0, 1)), 0, 1) == Some(Piece(Rook, White))
    ensures PieceAt(Relocate(StartCells(), (0, 0), (0, 1)), 0, 0) == None
    ensures Relocate(StartCells(), (0, 0), (0, 1)) != StartCells()
  {
    StartLayout(0, 0);
    RelocateCells(StartCells(), (0, 0), (0, 1), 0, 1);
    RelocateCells(StartCells(), (0, 0), (0, 1), 0, 0);
  }

  // ---------------------------------------------------------------- the engine

  /** Push the moves onto the list one by one, in order. */
  method PushAll(list: seq<Cell>, moves: seq<Cell>) returns (list': seq<Cell>)
    ensures list' == list + moves
  {
    list' := list;
    for k := 0 to |moves|
      invariant list' == list + moves[..k]
    {
      SliceGrow(moves, k);
      AppendAssoc(list, moves[..k], [moves[k]]);
      list' := list' + [moves[k]];
    }
    assert moves[..|moves|] == moves;
  }

  class ChessEngine {
    var board: Board

    constructor ()
      ensures fresh(board) && board.pieces == StartCells()
    {
      board := new Board();
    }

    /** The first target of the scan, or None when no piece has a target. */
    method Search() returns (best: Option<Cell>)
      ensures best.None? <==> AllTargets(board.pieces) == []
      ensures best.Some? ==> best.value == AllTargets(board.pieces)[0]
      ensures best.Some? ==> exists r: nat, f: nat :: r < 8 && f < 8 && best.value in Moves(board.pieces, r, f)
    {
      var legalMoves := GenerateAllLegalMoves();
      if legalMoves == [] {
        return None;
      }
      best := Some(legalMoves[0]);
      AllTargetsMembers(board.pieces, legalMoves[0]);
    }

    /** Scan ranks 0 to 7 and files 0 to 7, pushing each cell's targets in turn. */
    method GenerateAllLegalMoves() returns (all: seq<Cell>)
      ensures all == AllTargets(board.pieces)
    {
      all := [];
      ghost var perCell := CellMoves(board.pieces);
      for rank := 0 to 8
        invariant all == Flatten(perCell, 8 * rank)
      {
        for file := 0 to 8
          invariant all == Flatten(perCell, 8 * rank + file)
        {
          all := CollectCell(rank, file, all);
        }
      }
    }

    /** One step of the scan: the targets of (rank, file) pushed onto the list. */
    method CollectCell(rank: nat, file: nat, all: seq<Cell>) returns (all': seq<Cell>)
      requires InBounds(rank, file)
      ensures all' == all + CellMoves(board.pieces)[8 * rank + file]
    {
      var moves := GenerateMoves(board, rank, file);
      CellMovesAt(board.pieces, rank, file);
      all' := PushAll(all, moves);
    }

    /** Relocate the piece on `from` to `to`, through two writes to the board. */
    method ApplyMove(from: Cell, to: Cell)
      modifies board
      ensures board.pieces == Relocate(old(board.pieces), from, to)
    {
      var piece := board.GetPiece(from.0, from.1);
      board.SetPiece(from.0, from.1, None);
      board.SetPiece(to.0, to.1, piece);
    }
  }
}
