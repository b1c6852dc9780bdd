/** The pseudo-legal move generator of chess_backend/src/modules/move_gen.rs. Every
    generator appends target cells to a caller-owned list; here the list is passed in
    as `moves` and returned extended as `moves'`, and each method is proved to append
    exactly what a specification function (Ray, PawnTargets, OffsetTargets, Moves)
    describes. The properties of the generator are lemmas about those functions. */
module MoveGen {
  import opened Boards

  /** A unit step along a rank, a file or a diagonal. */
  predicate IsDirection(dr: int, df: int) {
    -1 <= dr <= 1 && -1 <= df <= 1 && (dr != 0 || df != 0)
  }

  predicate IsEmpty(cells: Cells, rank: int, file: int) {
    PieceAt(cells, rank, file).None?
  }

  predicate IsOpponent(cells: Cells, rank: int, file: int, color: Color) {
    PieceAt(cells, rank, file).Some? && PieceAt(cells, rank, file).value.color != color
  }

  predicate IsOwn(cells: Cells, rank: int, file: int, color: Color) {
    PieceAt(cells, rank, file).Some? && PieceAt(cells, rank, file).value.color == color
  }

  /** A cell a piece of colour `color` may move to: on the board and not held by its own side. */
  predicate IsFreeFor(cells: Cells, rank: int, file: int, color: Color) {
    InBounds(rank, file) && !IsOwn(cells, rank, file, color)
  }

  // ---------------------------------------------------------------- ray walks

  /** How many steps in direction (dr, df) remain before the walk leaves the board. */
  function RayMeasure(cr: int, cf: int, dr: int, df: int): int {
    (if dr == 1 then 8 - cr else if dr == -1 then cr + 1 else 0) +
    (if df == 1 then 8 - cf else if df == -1 then cf + 1 else 0)
  }

  /** The cells a sliding piece of colour `color` reaches by walking from (cr, cf) in
      direction (dr, df): empty cells are taken and the walk goes on; a cell of the
      other side is taken and the walk stops; a cell of its own side stops the walk. */
  function Ray(cells: Cells, color: Color, cr: int, cf: int, dr: int, df: int): seq<Cell>
    requires IsDirection(dr, df)
    decreases RayMeasure(cr, cf, dr, df)
  {
    if !InBounds(cr, cf) then []
    else match PieceAt(cells, cr, cf)
      case Some(target) => if target.color != color then [(cr, cf)] else []
      case None => [(cr, cf)] + Ray(cells, color, cr + dr, cf + df, dr, df)
  }

  /** The walk of a piece on (rank, file): it starts one step away. */
  function RayFrom(cells: Cells, rank: int, file: int, color: Color, dr: int, df: int): seq<Cell>
    requires IsDirection(dr, df)
  {
    Ray(cells, color, rank + dr, file + df, dr, df)
  }

  /** The coordinate k steps away from c along a direction component d. */
  function Along(c: int, k: int, d: int): int {
    if d == 1 then c + k else if d == -1 then c - k else c
  }

  /** Element k of a walk is k steps from its start. */
  lemma {:induction false} RayPositions(cells: Cells, color: Color, cr: int, cf: int, dr: int, df: int)
    requires IsDirection(dr, df)
    decreases RayMeasure(cr, cf, dr, df)
    ensures forall k :: 0 <= k < |Ray(cells, color, cr, cf, dr, df)| ==>
              Ray(cells, color, cr, cf, dr, df)[k] == (Along(cr, k, dr), Along(cf, k, df))
  {
    var ray := Ray(cells, color, cr, cf, dr, df);
    if InBounds(cr, cf) && PieceAt(cells, cr, cf).None? {
      RayPositions(cells, color, cr + dr, cf + df, dr, df);
      var rest := Ray(cells, color, cr + dr, cf + df, dr, df);
      assert ray == [(cr, cf)] + rest;
      forall k | 0 <= k < |ray|
        ensures ray[k] == (Along(cr, k, dr), Along(cf, k, df))
      {
        if k > 0 {
          assert ray[k] == rest[k - 1];
          assert rest[k - 1] == (Along(cr + dr, k - 1, dr), Along(cf + df, k - 1, df));
        }
      }
    } else {
      assert |ray| > 0 ==> ray == [(cr, cf)];
    }
  }

  /** Cell k of a walk is on the board and empty, or it is the walk's last cell and
      held by the other side. */
  predicate WalkCell(cells: Cells, color: Color, ray: seq<Cell>, k: int)
    requires 0 <= k < |ray|
  {
    InBounds(ray[k].0, ray[k].1) &&
    (IsEmpty(cells, ray[k].0, ray[k].1) || (k == |ray| - 1 && IsOpponent(cells, ray[k].0, ray[k].1, color)))
  }

  /** A walk runs over empty cells on the board and ends, at most, on one cell of
      the other side: every element is on the board, every element but the last is
      empty, and the last is empty or held by the other side. */
  lemma {:induction false} RayContents(cells: Cells, color: Color, cr: int, cf: int, dr: int, df: int)
    requires IsDirection(dr, df)
    decreases RayMeasure(cr, cf, dr, df)
    ensures forall k :: 0 <= k < |Ray(cells, color, cr, cf, dr, df)| ==>
              WalkCell(cells, color, Ray(cells, color, cr, cf, dr, df), k)
  {
    var ray := Ray(cells, color, cr, cf, dr, df);
    if InBounds(cr, cf) && PieceAt(cells, cr, cf).None? {
      RayContents(cells, color, cr + dr, cf + df, dr, df);
      var rest := Ray(cells, color, cr + dr, cf + df, dr, df);
      assert ray == [(cr, cf)] + rest;
      forall k | 0 <= k < |ray|
        ensures WalkCell(cells, color, ray, k)
      {
        if k > 0 {
          assert ray[k] == rest[k - 1];
          assert WalkCell(cells, color, rest, k - 1);
        }
      }
    } else {
      assert |ray| > 0 ==> ray == [(cr, cf)];
    }
  }

  /** A walk is empty only when its first cell is off the board or held by the
      walker's own side. */
  lemma RayEmptyOnlyWhenBlocked(cells: Cells, color: Color, cr: int, cf: int, dr: int, df: int)
    requires IsDirection(dr, df)
    ensures |Ray(cells, color, cr, cf, dr, df)| == 0 <==> !IsFreeFor(cells, cr, cf, color)
  {
  }

  /** The walk ends on an empty cell whose next cell is off the board or held by
      the walker's own side. */
  predicate EndsBeforeBlock(cells: Cells, color: Color, ray: seq<Cell>, dr: int, df: int) {
    |ray| > 0 && IsEmpty(cells, ray[|ray| - 1].0, ray[|ray| - 1].1) ==>
      !IsFreeFor(cells, ray[|ray| - 1].0 + dr, ray[|ray| - 1].1 + df, color)
  }

  /** A walk that does not end on a capture stops only where it must. */
  lemma {:induction false} RayStopsWhereBlocked(cells: Cells, color: Color, cr: int, cf: int, dr: int, df: int)
    requires IsDirection(dr, df)
    decreases RayMeasure(cr, cf, dr, df)
    ensures EndsBeforeBlock(cells, color, Ray(cells, color, cr, cf, dr, df), dr, df)
  {
    var ray := Ray(cells, color, cr, cf, dr, df);
    if InBounds(cr, cf) && PieceAt(cells, cr, cf).None? {
      var rest := Ray(cells, color, cr + dr, cf + df, dr, df);
      assert ray == [(cr, cf)] + rest;
      if |rest| == 0 {
        RayEmptyOnlyWhenBlocked(cells, color, cr + dr, cf + df, dr, df);
        assert ray == [(cr, cf)];
        assert ray[|ray| - 1] == (cr, cf) && IsEmpty(cells, cr, cf);
        assert !IsFreeFor(cells, cr + dr, cf + df, color);
      } else {
        RayStopsWhereBlocked(cells, color, cr + dr, cf + df, dr, df);
        assert EndsBeforeBlock(cells, color, rest, dr, df);
        assert ray[|ray| - 1] == rest[|rest| - 1];
      }
    } else {
      assert |ray| > 0 ==> !IsEmpty(cells, cr, cf) && ray == [(cr, cf)];
    }
  }

  /** Every cell of a walk from a piece's neighbour is on the board, not held by the
      walker's side, and not the piece's own cell. */
  lemma {:induction false} RaySound(cells: Cells, rank: int, file: int, color: Color, dr: int, df: int)
    requires IsDirection(dr, df)
    ensures forall t :: t in RayFrom(cells, rank, file, color, dr, df) ==>
              IsFreeFor(cells, t.0, t.1, color) && t != (rank, file)
  {
    var ray := RayFrom(cells, rank, file, color, dr, df);
    RayPositions(cells, color, rank + dr, file + df, dr, df);
    RayContents(cells, color, rank + dr, file + df, dr, df);
    forall t | t in ray
      ensures IsFreeFor(cells, t.0, t.1, color) && t != (rank, file)
    {
      var k :| 0 <= k < |ray| && ray[k] == t;
      assert WalkCell(cells, color, ray, k);
      assert t == (Along(rank + dr, k, dr), Along(file + df, k, df));
    }
  }

  /** The four orthogonal walks, in the order the source takes them. */
  function RookTargets(cells: Cells, rank: int, file: int, color: Color): seq<Cell> {
    RayFrom(cells, rank, file, color, 1, 0) + RayFrom(cells, rank, file, color, -1, 0) +
    RayFrom(cells, rank, file, color, 0, 1) + RayFrom(cells, rank, file, color, 0, -1)
  }

  /** The four diagonal walks, in the order the source takes them. */
  function BishopTargets(cells: Cells, rank: int, file: int, color: Color): seq<Cell> {
    RayFrom(cells, rank, file, color, 1, 1) + RayFrom(cells, rank, file, color, 1, -1) +
    RayFrom(cells, rank, file, color, -1, 1) + RayFrom(cells, rank, file, color, -1, -1)
  }

  // ---------------------------------------------------------------- fixed offsets

  const KnightOffsets: seq<(int, int)> :=
    [(-2, -1), (-2, 1), (-1, -2), (-1, 2), (1, -2), (1, 2), (2, -1), (2, 1)]

  /** The king's offsets in the order of the source's nested loops over -1..=1,
      with (0, 0) skipped. */
  const KingOffsets: seq<(int, int)> :=
    [(-1, -1), (-1, 0), (-1, 1), (0, -1), (0, 1), (1, -1), (1, 0), (1, 1)]

  /** The target reached by one offset, when it is free for the mover. */
  function StepTarget(cells: Cells, rank: int, file: int, color: Color, d: (int, int)): seq<Cell> {
    if IsFreeFor(cells, rank + d.0, file + d.1, color) then [(rank + d.0, file + d.1)] else []
  }

  /** The targets of a table of offsets, in table order. */
  function OffsetTargets(cells: Cells, rank: int, file: int, color: Color, offsets: seq<(int, int)>): seq<Cell>
    decreases |offsets|
  {
    if offsets == [] then []
    else OffsetTargets(cells, rank, file, color, offsets[..|offsets| - 1]) +
         StepTarget(cells, rank, file, color, offsets[|offsets| - 1])
  }

  lemma SliceGrow<T>(s: seq<T>, k: nat)
    requires k < |s|
    ensures s[..k + 1] == s[..k] + [s[k]]
  {
  }

  lemma OffsetTargetsSnoc(cells: Cells, rank: int, file: int, color: Color, offsets: seq<(int, int)>, d: (int, int))
    ensures OffsetTargets(cells, rank, file, color, offsets + [d])
         == OffsetTargets(cells, rank, file, color, offsets) + StepTarget(cells, rank, file, color, d)
  {
    assert (offsets + [d])[..|offsets|] == offsets;
  }

  lemma OffsetTargetsGrow(cells: Cells, rank: int, file: int, color: Color, offsets: seq<(int, int)>, k: nat)
    requires k < |offsets|
    ensures OffsetTargets(cells, rank, file, color, offsets[..k + 1])
         == OffsetTargets(cells, rank, file, color, offsets[..k]) + StepTarget(cells, rank, file, color, offsets[k])
  {
    assert offsets[..k + 1][..k] == offsets[..k];
  }

  /** Offset `d` from (rank, file) lands on `t`, and `t` is free for the mover. */
  predicate ReachedBy(cells: Cells, rank: int, file: int, color: Color, d: (int, int), t: Cell) {
    t == (rank + d.0, file + d.1) && IsFreeFor(cells, t.0, t.1, color)
  }

  /** A table of n offsets yields at most n targets. */
  lemma {:induction false} OffsetTargetsCount(cells: Cells, rank: int, file: int, color: Color, offsets: seq<(int, int)>)
    decreases |offsets|
    ensures |OffsetTargets(cells, rank, file, color, offsets)| <= |offsets|
  {
    if offsets != [] {
      OffsetTargetsCount(cells, rank, file, color, offsets[..|offsets| - 1]);
    }
  }

  /** An offset target is produced iff it is on the board and not held by the
      mover's side. */
  lemma {:induction false} OffsetTargetsMembers(cells: Cells, rank: int, file: int, color: Color, offsets: seq<(int, int)>)
    decreases |offsets|
    ensures forall t :: t in OffsetTargets(cells, rank, file, color, offsets) <==>
              exists k :: 0 <= k < |offsets| && ReachedBy(cells, rank, file, color, offsets[k], t)
  {
    if offsets != [] {
      var n := |offsets| - 1;
      var init := offsets[..n];
      var last := offsets[n];
      OffsetTargetsMembers(cells, rank, file, color, init);
      var before := OffsetTargets(cells, rank, file, color, init);
      var step := StepTarget(cells, rank, file, color, last);
      assert OffsetTargets(cells, rank, file, color, offsets) == before + step;
      forall t
        ensures t in before + step <==>
                exists k :: 0 <= k < |offsets| && ReachedBy(cells, rank, file, color, offsets[k], t)
      {
        if t in before {
          var k :| 0 <= k < |init| && ReachedBy(cells, rank, file, color, init[k], t);
          assert offsets[k] == init[k];
        } else if t in step {
          assert ReachedBy(cells, rank, file, color, offsets[n], t);
        }
        if exists k :: 0 <= k < |offsets| && ReachedBy(cells, rank, file, color, offsets[k], t) {
          var k :| 0 <= k < |offsets| && ReachedBy(cells, rank, file, color, offsets[k], t);
          if k < n {
            assert init[k] == offsets[k];
            assert t in before;
          } else {
            assert t in step;
          }
        }
      }
    }
  }

  /** No offset of either table is (0, 0), so no piece targets its own cell. */
  lemma OffsetTablesNonZero()
    ensures forall k :: 0 <= k < |KnightOffsets| ==> KnightOffsets[k] != (0, 0)
    ensures forall k :: 0 <= k < |KingOffsets| ==> KingOffsets[k] != (0, 0)
  {
  }

  // ---------------------------------------------------------------- pawns

  /** The rank direction a pawn moves in. */
  function Forward(color: Color): int {
    match color
    case White => 1
    case Black => -1
  }

  /** The rank from which a pawn may advance two cells. */
  function PawnStartRank(color: Color): nat {
    match color
    case White => 1
    case Black => 6
  }

  /** Single push onto an empty cell, followed, from the start rank, by a double push
      onto an empty cell; the double push is looked at only once the single push
      has been taken. */
  function PawnPushTargets(cells: Cells, rank: nat, file: nat, color: Color): seq<Cell>
    requires InBounds(rank, file)
  {
    var r1 := rank + Forward(color);
    if InBounds(r1, file) && IsEmpty(cells, r1, file) then
      var r2 := rank + 2 * Forward(color);
      [(r1, file)] +
      (if rank == PawnStartRank(color) && IsEmpty(cells, r2, file) then [(r2, file)] else [])
    else []
  }

  /** A diagonal capture onto file `cf`, one rank forward. */
  function PawnCaptureTarget(cells: Cells, rank: nat, color: Color, cf: int): seq<Cell> {
    var cr := rank + Forward(color);
    if 0 <= cf < 8 && 0 <= cr < 8 && IsOpponent(cells, cr, cf, color) then [(cr, cf)] else []
  }

  function PawnTargets(cells: Cells, rank: nat, file: nat, color: Color): seq<Cell>
    requires InBounds(rank, file)
  {
    PawnPushTargets(cells, rank, file, color) +
    PawnCaptureTarget(cells, rank, color, file - 1) + PawnCaptureTarget(cells, rank, color, file + 1)
  }

  /** The pawn rules, stated cell by cell. */
  predicate PawnSinglePush(cells: Cells, rank: int, file: int, color: Color, t: Cell) {
    t.0 == rank + Forward(color) && t.1 == file && InBounds(t.0, t.1) && IsEmpty(cells, t.0, t.1)
  }

  predicate PawnDoublePush(cells: Cells, rank: int, file: int, color: Color, t: Cell) {
    rank == PawnStartRank(color) && t.0 == rank + 2 * Forward(color) && t.1 == file &&
    IsEmpty(cells, rank + Forward(color), file) && IsEmpty(cells, t.0, t.1)
  }

  predicate PawnCapture(cells: Cells, rank: int, file: int, color: Color, t: Cell) {
    t.0 == rank + Forward(color) && (t.1 == file - 1 || t.1 == file + 1) &&
    InBounds(t.0, t.1) && IsOpponent(cells, t.0, t.1, color)
  }

  /** A pawn reaches exactly the cells the three rules allow. */
  lemma PawnTargetsMembers(cells: Cells, rank: nat, file: nat, color: Color)
    requires InBounds(rank, file)
    ensures forall t :: t in PawnTargets(cells, rank, file, color) <==>
              PawnSinglePush(cells, rank, file, color, t) ||
              PawnDoublePush(cells, rank, file, color, t) ||
              PawnCapture(cells, rank, file, color, t)
  {
    var push := PawnPushTargets(cells, rank, file, color);
    var left := PawnCaptureTarget(cells, rank, color, file - 1);
    var right := PawnCaptureTarget(cells, rank, color, file + 1);
    assert PawnTargets(cells, rank, file, color) == push + left + right;
    forall t
      ensures t in push + left + right <==>
                PawnSinglePush(cells, rank, file, color, t) ||
                PawnDoublePush(cells, rank, file, color, t) ||
                PawnCapture(cells, rank, file, color, t)
    {
      PawnPushMembers(cells, rank, file, color, t);
      assert t in left <==> PawnCapture(cells, rank, file, color, t) && t.1 == file - 1;
      assert t in right <==> PawnCapture(cells, rank, file, color, t) && t.1 == file + 1;
    }
  }

  /** The pushes are the single push and the double push. */
  lemma PawnPushMembers(cells: Cells, rank: nat, file: nat, color: Color, t: Cell)
    requires InBounds(rank, file)
    ensures t in PawnPushTargets(cells, rank, file, color) <==>
              PawnSinglePush(cells, rank, file, color, t) || PawnDoublePush(cells, rank, file, color, t)
  {
    if rank == PawnStartRank(color) {
      assert InBounds(rank + Forward(color), file);
    }
  }

  /** The double push is produced only together with the single push before it. */
  lemma DoublePushNeedsSinglePush(cells: Cells, rank: nat, file: nat, color: Color)
    requires InBounds(rank, file)
    requires (rank + 2 * Forward(color), file) in PawnTargets(cells, rank, file, color)
    ensures (rank + Forward(color), file) in PawnTargets(cells, rank, file, color)
    ensures rank == PawnStartRank(color)
  {
    PawnTargetsMembers(cells, rank, file, color);
  }

  // ---------------------------------------------------------------- dispatch

  /** The targets of `piece` standing on (rank, file). */
  function PieceTargets(cells: Cells, rank: nat, file: nat, piece: Piece): seq<Cell>
    requires InBounds(rank, file)
  {
    match piece.pieceType
    case Pawn => PawnTargets(cells, rank, file, piece.color)
    case Rook => RookTargets(cells, rank, file, piece.color)
    case Knight => OffsetTargets(cells, rank, file, piece.color, KnightOffsets)
    case Bishop => BishopTargets(cells, rank, file, piece.color)
    case Queen => RookTargets(cells, rank, file, piece.color) + BishopTargets(cells, rank, file, piece.color)
    case King => OffsetTargets(cells, rank, file, piece.color, KingOffsets)
  }

  /** The targets generate_moves reports for (rank, file): none off the board or from
      an empty cell, otherwise those of the piece there. */
  function Moves(cells: Cells, rank: nat, file: nat): seq<Cell> {
    if rank > 7 || file > 7 then []
    else match PieceAt(cells, rank, file)
      case None => []
      case Some(piece) => PieceTargets(cells, rank, file, piece)
  }

  // ---------------------------------------------------------------- scenarios

  /** From the start position the white pawn on (1, 0) may advance one or two cells,
      and has nothing to capture. */
  lemma StartPawnAdvances()
    ensures Moves(StartCells(), 1, 0) == [(2, 0), (3, 0)]
  {
    StartLayout(1, 0);
    StartLayout(2, 0);
    StartLayout(3, 0);
    StartLayout(2, 1);
  }

  /** From the start position the white rook on (0, 0) has no target: its own pawn
      and knight block it and the other two walks leave the board at once. */
  lemma StartRookBlocked()
    ensures Moves(StartCells(), 0, 0) == []
  {
    StartLayout(0, 0);
    StartLayout(1, 0);
    StartLayout(0, 1);
  }

  /** From the start position the white knight on (0, 1) may jump to (2, 0) and
      (2, 2), in that order; its own pawn holds (1, 3) and the other jumps leave the
      board. */
  lemma StartKnightJumps()
    ensures Moves(StartCells(), 0, 1) == [(2, 0), (2, 2)]
  {
    StartLayout(0, 1);
    assert BackRank[1] == Knight;
    StartKnightOffsets();
  }

  lemma StartKnightOffsets()
    ensures OffsetTargets(StartCells(), 0, 1, White, KnightOffsets) == [(2, 0), (2, 2)]
  {
    var cells, c := StartCells(), White;
    StartLayout(1, 3);
    StartLayout(2, 0);
    StartLayout(2, 2);
    assert StepTarget(cells, 0, 1, c, (1, 2)) == [];
    assert StepTarget(cells, 0, 1, c, (2, -1)) == [(2, 0)];
    assert StepTarget(cells, 0, 1, c, (2, 1)) == [(2, 2)];
    OffsetTargetsGrow(cells, 0, 1, c, KnightOffsets, 0);
    OffsetTargetsGrow(cells, 0, 1, c, KnightOffsets, 1);
    OffsetTargetsGrow(cells, 0, 1, c, KnightOffsets, 2);
    OffsetTargetsGrow(cells, 0, 1, c, KnightOffsets, 3);
    OffsetTargetsGrow(cells, 0, 1, c, KnightOffsets, 4);
    OffsetTargetsGrow(cells, 0, 1, c, KnightOffsets, 5);
    OffsetTargetsGrow(cells, 0, 1, c, KnightOffsets, 6);
    OffsetTargetsGrow(cells, 0, 1, c, KnightOffsets, 7);
    assert KnightOffsets[..0] == [];
    assert KnightOffsets[..8] == KnightOffsets;
  }

  /** An otherwise empty board with a white rook on (3, 3) and a black pawn on (3, 6). */
  function LoneRookBoard(): Cells {
    SetAt(SetAt(EmptyCells(), 3, 3, Some(Piece(Rook, White))), 3, 6, Some(Piece(Pawn, Black)))
  }

  lemma LoneRookLayout(r: int, f: int)
    ensures PieceAt(LoneRookBoard(), r, f)
         == if (r, f) == (3, 6) then Some(Piece(Pawn, Black))
            else if (r, f) == (3, 3) then Some(Piece(Rook, White))
            else None
  {
    GetAfterSet(SetAt(EmptyCells(), 3, 3, Some(Piece(Rook, White))), 3, 6, Some(Piece(Pawn, Black)), r, f);
    GetAfterSet(EmptyCells(), 3, 3, Some(Piece(Rook, White)), r, f);
    if InBounds(r, f) {
      assert EmptyCells()[Index(r, f)] == None;
    }
  }

  /** The rook walks over the empty cells up to the pawn, takes it and stops; in the
      other three directions it walks to the edge of the board. */
  lemma LoneRookWalks()
    ensures RayFrom(LoneRookBoard(), 3, 3, White, 0, 1) == [(3, 4), (3, 5), (3, 6)]
    ensures RayFrom(LoneRookBoard(), 3, 3, White, 1, 0) == [(4, 3), (5, 3), (6, 3), (7, 3)]
    ensures RayFrom(LoneRookBoard(), 3, 3, White, -1, 0) == [(2, 3), (1, 3), (0, 3)]
    ensures RayFrom(LoneRookBoard(), 3, 3, White, 0, -1) == [(3, 2), (3, 1), (3, 0)]
  {
    LoneRookLayout(3, 4);
    LoneRookLayout(3, 5);
    LoneRookLayout(3, 6);
    LoneRookLayout(4, 3);
    LoneRookLayout(5, 3);
    LoneRookLayout(6, 3);
    LoneRookLayout(7, 3);
    LoneRookLayout(2, 3);
    LoneRookLayout(1, 3);
    LoneRookLayout(0, 3);
    LoneRookLayout(3, 2);
    LoneRookLayout(3, 1);
    LoneRookLayout(3, 0);
  }

  /** Every target of a piece is on the board, not held by its side, and not its
      own cell. */
  lemma PieceTargetsSound(cells: Cells, rank: nat, file: nat, piece: Piece)
    requires InBounds(rank, file)
    ensures forall t :: t in PieceTargets(cells, rank, file, piece) ==>
              IsFreeFor(cells, t.0, t.1, piece.color) && t != (rank, file)
  {
    var c := piece.color;
    var ts := PieceTargets(cells, rank, file, piece);
    match piece.pieceType
    case Pawn =>
      PawnTargetsMembers(cells, rank, file, c);
    case Knight =>
      OffsetTablesNonZero();
      OffsetTableSound(cells, rank, file, c, KnightOffsets);
    case King =>
      OffsetTablesNonZero();
      OffsetTableSound(cells, rank, file, c, KingOffsets);
    case Rook =>
      RookSound(cells, rank, file, c);
    case Bishop =>
      BishopSound(cells, rank, file, c);
    case Queen =>
      RookSound(cells, rank, file, c);
      BishopSound(cells, rank, file, c);
      assert ts == RookTargets(cells, rank, file, c) + BishopTargets(cells, rank, file, c);
  }

  lemma OffsetTableSound(cells: Cells, rank: nat, file: nat, color: Color, offsets: seq<(int, int)>)
    requires forall k :: 0 <= k < |offsets| ==> offsets[k] != (0, 0)
    ensures forall t :: t in OffsetTargets(cells, rank, file, color, offsets) ==>
              IsFreeFor(cells, t.0, t.1, color) && t != (rank, file)
  {
    OffsetTargetsMembers(cells, rank, file, color, offsets);
  }

  lemma RookSound(cells: Cells, rank: nat, file: nat, color: Color)
    ensures forall t :: t in RookTargets(cells, rank, file, color) ==>
              IsFreeFor(cells, t.0, t.1, color) && t != (rank, file)
  {
    RaySound(cells, rank, file, color, 1, 0);
    RaySound(cells, rank, file, color, -1, 0);
    RaySound(cells, rank, file, color, 0, 1);
    RaySound(cells, rank, file, color, 0, -1);
  }

  lemma BishopSound(cells: Cells, rank: nat, file: nat, color: Color)
    ensures forall t :: t in BishopTargets(cells, rank, file, color) ==>
              IsFreeFor(cells, t.0, t.1, color) && t != (rank, file)
  {
    RaySound(cells, rank, file, color, 1, 1);
    RaySound(cells, rank, file, color, 1, -1);
    RaySound(cells, rank, file, color, -1, 1);
    RaySound(cells, rank, file, color, -1, -1);
  }

  /** Every target generate_moves reports is on the board, not held by the mover's
      side, and not the mover's own cell; and there is a mover. */
  lemma MovesSound(cells: Cells, rank: nat, file: nat)
    ensures forall t :: t in Moves(cells, rank, file) ==>
              PieceAt(cells, rank, file).Some? &&
              IsFreeFor(cells, t.0, t.1, PieceAt(cells, rank, file).value.color) &&
              t != (rank, file)
  {
    if InBounds(rank, file) && PieceAt(cells, rank, file).Some? {
      PieceTargetsSound(cells, rank, file, PieceAt(cells, rank, file).value);
    }
  }

  // ---------------------------------------------------------------- the generators

  /** generate_moves: the targets of the piece on (rank, file), in the order the
      per-piece generators append them. */
  method GenerateMoves(board: Board, rank: nat, file: nat) returns (moves: seq<Cell>)
    ensures rank > 7 || file > 7 || board.GetPiece(rank, file).None? ==> moves == []
    ensures moves == Moves(board.pieces, rank, file)
  {
    moves := [];
    if rank > 7 || file > 7 {
      return;
    }
    var pieceOption := board.GetPiece(rank, file);
    if pieceOption.None? {
      return;
    }
    var piece := pieceOption.value;
    assert Moves(board.pieces, rank, file) == PieceTargets(board.pieces, rank, file, piece);
    match piece.pieceType
    case Pawn =>
      moves := GeneratePawnMoves(board, rank, file, piece.color, moves);
    case Rook =>
      moves := GenerateRookMoves(board, rank, file, piece.color, moves);
    case Knight =>
      moves := GenerateKnightMoves(board, rank, file, piece.color, moves);
    case Bishop =>
      moves := GenerateBishopMoves(board, rank, file, piece.color, moves);
    case Queen =>
      moves := GenerateQueenMoves(board, rank, file, piece.color, moves);
    case King =>
      moves := GenerateKingMoves(board, rank, file, piece.color, moves);
  }

  /** The pawn's capture check: a cell held by the other side is pushed. */
  method AddCapture(board: Board, captureRank: nat, captureFile: nat, color: Color, moves: seq<Cell>)
    returns (moves': seq<Cell>)
    requires InBounds(captureRank, captureFile)
    ensures moves' == moves + (if IsOpponent(board.pieces, captureRank, captureFile, color) then [(captureRank, captureFile)] else [])
  {
    moves' := moves;
    match board.GetPiece(captureRank, captureFile)
    case Some(capturedPiece) =>
      if capturedPiece.color != color {
        moves' := moves' + [(captureRank, captureFile)];
      }
    case None =>
  }

  method GeneratePawnMoves(board: Board, rank: nat, file: nat, color: Color, moves: seq<Cell>)
    returns (moves': seq<Cell>)
    requires InBounds(rank, file)
    ensures moves' == moves + PawnTargets(board.pieces, rank, file, color)
  {
    var direction := Forward(color);
    var newRank := rank + direction;
    moves' := moves;
    if 0 <= newRank < 8 && board.GetPiece(newRank, file).None? {
      moves' := moves' + [(newRank, file)];
      if (rank == 1 && color == White) || (rank == 6 && color == Black) {
        var doubleNewRank := rank + 2 * direction;
        if board.GetPiece(doubleNewRank, file).None? {
          moves' := moves' + [(doubleNewRank, file)];
        }
      }
    }
    ghost var afterPush := moves';
    assert afterPush == moves + PawnPushTargets(board.pieces, rank, file, color);
    var captureFiles := [file - 1, file + 1];
    ghost var left := PawnCaptureTarget(board.pieces, rank, color, file - 1);
    ghost var right := PawnCaptureTarget(board.pieces, rank, color, file + 1);
    for k := 0 to 2
      invariant k == 0 ==> moves' == afterPush
      invariant k == 1 ==> moves' == afterPush + left
      invariant k == 2 ==> moves' == afterPush + left + right
    {
      var captureFile := captureFiles[k];
      if 0 <= captureFile < 8 {
        var captureRank := rank + direction;
        if 0 <= captureRank < 8 {
          moves' := AddCapture(board, captureRank, captureFile, color, moves');
        }
      }
    }
    AppendAssoc(moves, PawnPushTargets(board.pieces, rank, file, color), left);
    AppendAssoc(moves, PawnPushTargets(board.pieces, rank, file, color) + left, right);
  }

  lemma AppendAssoc<T>(s: seq<T>, a: seq<T>, b: seq<T>)
    ensures s + a + b == s + (a + b)
  {
  }

  /** Appending four pieces one after another is appending their concatenation. */
  lemma AppendFour<T>(s: seq<T>, a: seq<T>, b: seq<T>, c: seq<T>, d: seq<T>)
    ensures s + a + b + c + d == s + (a + b + c + d)
  {
  }

  method GenerateRookMoves(board: Board, rank: nat, file: nat, color: Color, moves: seq<Cell>)
    returns (moves': seq<Cell>)
    requires InBounds(rank, file)
    ensures moves' == moves + RookTargets(board.pieces, rank, file, color)
  {
    AppendFour(moves, RayFrom(board.pieces, rank, file, color, 1, 0), RayFrom(board.pieces, rank, file, color, -1, 0),
                      RayFrom(board.pieces, rank, file, color, 0, 1), RayFrom(board.pieces, rank, file, color, 0, -1));
    moves' := GenerateStraightMoves(board, rank, file, color, moves, 1, 0);
    moves' := GenerateStraightMoves(board, rank, file, color, moves', -1, 0);
    moves' := GenerateStraightMoves(board, rank, file, color, moves', 0, 1);
    moves' := GenerateStraightMoves(board, rank, file, color, moves', 0, -1);
  }

  method GenerateBishopMoves(board: Board, rank: nat, file: nat, color: Color, moves: seq<Cell>)
    returns (moves': seq<Cell>)
    requires InBounds(rank, file)
    ensures moves' == moves + BishopTargets(board.pieces, rank, file, color)
  {
    AppendFour(moves, RayFrom(board.pieces, rank, file, color, 1, 1), RayFrom(board.pieces, rank, file, color, 1, -1),
                      RayFrom(board.pieces, rank, file, color, -1, 1), RayFrom(board.pieces, rank, file, color, -1, -1));
    moves' := GenerateDiagonalMoves(board, rank, file, color, moves, 1, 1);
    moves' := GenerateDiagonalMoves(board, rank, file, color, moves', 1, -1);
    moves' := GenerateDiagonalMoves(board, rank, file, color, moves', -1, 1);
    moves' := GenerateDiagonalMoves(board, rank, file, color, moves', -1, -1);
  }

  /** Appending the rook's four rays one by one, then the bishop's four, onto moves
      gives moves followed by the rook's targets and the bishop's. */
  lemma QueenRays(cells: Cells, rank: int, file: int, color: Color, moves: seq<Cell>)
    ensures moves + RayFrom(cells, rank, file, color, 1, 0) + RayFrom(cells, rank, file, color, -1, 0)
                  + RayFrom(cells, rank, file, color, 0, 1) + RayFrom(cells, rank, file, color, 0, -1)
                  + RayFrom(cells, rank, file, color, 1, 1) + RayFrom(cells, rank, file, color, 1, -1)
                  + RayFrom(cells, rank, file, color, -1, 1) + RayFrom(cells, rank, file, color, -1, -1)
         == moves + RookTargets(cells, rank, file, color) + BishopTargets(cells, rank, file, color)
  {
    var rook := RookTargets(cells, rank, file, color);
    AppendFour(moves, RayFrom(cells, rank, file, color, 1, 0), RayFrom(cells, rank, file, color, -1, 0),
                      RayFrom(cells, rank, file, color, 0, 1), RayFrom(cells, rank, file, color, 0, -1));
    AppendFour(moves + rook, RayFrom(cells, rank, file, color, 1, 1), RayFrom(cells, rank, file, color, 1, -1),
                             RayFrom(cells, rank, file, color, -1, 1), RayFrom(cells, rank, file, color, -1, -1));
  }

  /** The queen walks the four rook rays and then the four bishop rays, so it
      produces the rook's targets followed by the bishop's. */
  method GenerateQueenMoves(board: Board, rank: nat, file: nat, color: Color, moves: seq<Cell>)
    returns (moves': seq<Cell>)
    requires InBounds(rank, file)
    ensures moves' == moves + RookTargets(board.pieces, rank, file, color) + BishopTargets(board.pieces, rank, file, color)
  {
    QueenRays(board.pieces, rank, file, color, moves);
    moves' := GenerateStraightMoves(board, rank, file, color, moves, 1, 0);
    moves' := GenerateStraightMoves(board, rank, file, color, moves', -1, 0);
    moves' := GenerateStraightMoves(board, rank, file, color, moves', 0, 1);
    moves' := GenerateStraightMoves(board, rank, file, color, moves', 0, -1);
    moves' := GenerateDiagonalMoves(board, rank, file, color, moves', 1, 1);
    moves' := GenerateDiagonalMoves(board, rank, file, color, moves', 1, -1);
    moves' := GenerateDiagonalMoves(board, rank, file, color, moves', -1, 1);
    moves' := GenerateDiagonalMoves(board, rank, file, color, moves', -1, -1);
  }

  /** How many king offsets come before (i, j) in the order of the nested loops. */
  function KingCount(i: int, j: int): nat
    requires -1 <= i <= 2 && -1 <= j <= 2 && (i <= 1 || j == -1)
    ensures KingCount(i, j) <= 8
  {
    var n := 3 * (i + 1) + (j + 1);
    if n > 4 then n - 1 else n
  }

  /** Offset (i, j) sits at position KingCount(i, j) of the king's table. */
  lemma KingOffsetAt(i: int, j: int)
    requires -1 <= i <= 1 && -1 <= j <= 1 && (i != 0 || j != 0)
    ensures KingCount(i, j) < 8 && KingOffsets[KingCount(i, j)] == (i, j)
    ensures KingCount(i, j + 1) == KingCount(i, j) + 1
  {
    if i == -1 {
      if j == -1 {} else if j == 0 {} else {}
    } else if i == 0 {
      if j == -1 {} else {}
    } else {
      if j == -1 {} else if j == 0 {} else {}
    }
  }

  /** The square check shared by the king and knight loops: the cell one offset
      away is pushed when it is on the board and empty or held by the other side. */
  method AddStep(board: Board, rank: nat, file: nat, color: Color, delta: (int, int), moves: seq<Cell>)
    returns (moves': seq<Cell>)
    ensures moves' == moves + StepTarget(board.pieces, rank, file, color, delta)
  {
    moves' := moves;
    var newRank := rank + delta.0;
    var newFile := file + delta.1;
    if 0 <= newRank < 8 && 0 <= newFile < 8 {
      match board.GetPiece(newRank, newFile)
      case Some(targetPiece) =>
        if targetPiece.color != color {
          moves' := moves' + [(newRank, newFile)];
        }
      case None =>
        moves' := moves' + [(newRank, newFile)];
    }
  }

  /** One pass of the king's inner loop adds the target of offset (i, j) to the
      prefix of the table already covered; (0, 0) is not in the table. */
  lemma KingStep(cells: Cells, rank: int, file: int, color: Color, i: int, j: int)
    requires -1 <= i <= 1 && -1 <= j <= 1
    ensures i == 0 && j == 0 ==> KingCount(i, j + 1) == KingCount(i, j)
    ensures i != 0 || j != 0 ==>
              (OffsetTargets(cells, rank, file, color, KingOffsets[..KingCount(i, j + 1)])
               == OffsetTargets(cells, rank, file, color, KingOffsets[..KingCount(i, j)]) + StepTarget(cells, rank, file, color, (i, j)))
  {
    if i != 0 || j != 0 {
      KingOffsetAt(i, j);
      SliceGrow(KingOffsets, KingCount(i, j));
      OffsetTargetsSnoc(cells, rank, file, color, KingOffsets[..KingCount(i, j)], (i, j));
    }
  }

  method GenerateKingMoves(board: Board, rank: nat, file: nat, color: Color, moves: seq<Cell>)
    returns (moves': seq<Cell>)
    requires InBounds(rank, file)
    ensures moves' == moves + OffsetTargets(board.pieces, rank, file, color, KingOffsets)
  {
    moves' := moves;
    for i := -1 to 2
      invariant moves' == moves + OffsetTargets(board.pieces, rank, file, color, KingOffsets[..KingCount(i, -1)])
    {
      for j := -1 to 2
        invariant moves' == moves + OffsetTargets(board.pieces, rank, file, color, KingOffsets[..KingCount(i, j)])
      {
        KingStep(board.pieces, rank, file, color, i, j);
        if i == 0 && j == 0 {
          continue;
        }
        AppendAssoc(moves, OffsetTargets(board.pieces, rank, file, color, KingOffsets[..KingCount(i, j)]),
                    StepTarget(board.pieces, rank, file, color, (i, j)));
        moves' := AddStep(board, rank, file, color, (i, j), moves');
      }
    }
    assert KingOffsets[..8] == KingOffsets;
  }

  method GenerateKnightMoves(board: Board, rank: nat, file: nat, color: Color, moves: seq<Cell>)
    returns (moves': seq<Cell>)
    requires InBounds(rank, file)
    ensures moves' == moves + OffsetTargets(board.pieces, rank, file, color, KnightOffsets)
  {
    moves' := moves;
    for k := 0 to |KnightOffsets|
      invariant moves' == moves + OffsetTargets(board.pieces, rank, file, color, KnightOffsets[..k])
    {
      OffsetTargetsGrow(board.pieces, rank, file, color, KnightOffsets, k);
      AppendAssoc(moves, OffsetTargets(board.pieces, rank, file, color, KnightOffsets[..k]),
                  StepTarget(board.pieces, rank, file, color, KnightOffsets[k]));
      moves' := AddStep(board, rank, file, color, KnightOffsets[k], moves');
    }
    assert KnightOffsets[..|KnightOffsets|] == KnightOffsets;
  }

  /** Taking an empty cell moves it from the rest of the walk to the moves found. */
  lemma WalkOn(cells: Cells, color: Color, cr: int, cf: int, dr: int, df: int, found: seq<Cell>)
    requires IsDirection(dr, df) && InBounds(cr, cf) && PieceAt(cells, cr, cf).None?
    ensures found + Ray(cells, color, cr, cf, dr, df)
         == found + [(cr, cf)] + Ray(cells, color, cr + dr, cf + df, dr, df)
  {
    var rest := Ray(cells, color, cr + dr, cf + df, dr, df);
    assert Ray(cells, color, cr, cf, dr, df) == [(cr, cf)] + rest;
    assert found + ([(cr, cf)] + rest) == found + [(cr, cf)] + rest;
  }

  /** Walk one rank or file direction from (rank, file). */
  method GenerateStraightMoves(board: Board, rank: nat, file: nat, color: Color, moves: seq<Cell>,
                               rankDirection: int, fileDirection: int)
    returns (moves': seq<Cell>)
    requires InBounds(rank, file)
    requires IsDirection(rankDirection, fileDirection)
    ensures moves' == moves + RayFrom(board.pieces, rank, file, color, rankDirection, fileDirection)
  {
    moves' := moves;
    var currentRank := rank + rankDirection;
    var currentFile := file + fileDirection;
    while 0 <= currentRank < 8 && 0 <= currentFile < 8
      invariant moves' + Ray(board.pieces, color, currentRank, currentFile, rankDirection, fileDirection)
             == moves + RayFrom(board.pieces, rank, file, color, rankDirection, fileDirection)
      decreases RayMeasure(currentRank, currentFile, rankDirection, fileDirection)
    {
      match board.GetPiece(currentRank, currentFile)
      case Some(targetPiece) =>
        if targetPiece.color != color {
          moves' := moves' + [(currentRank, currentFile)];
        }
        break;
      case None => {
        WalkOn(board.pieces, color, currentRank, currentFile, rankDirection, fileDirection, moves');
        moves' := moves' + [(currentRank, currentFile)];
        currentRank := currentRank + rankDirection;
        currentFile := currentFile + fileDirection;
      }
    }
  }

  /** Walk one diagonal direction from (rank, file). */
  method GenerateDiagonalMoves(board: Board, rank: nat, file: nat, color: Color, moves: seq<Cell>,
                               rankDirection: int, fileDirection: int)
    returns (moves': seq<Cell>)
    requires InBounds(rank, file)
    requires IsDirection(rankDirection, fileDirection)
    ensures moves' == moves + RayFrom(board.pieces, rank, file, color, rankDirection, fileDirection)
  {
    moves' := moves;
    var currentRank := rank + rankDirection;
    var currentFile := file + fileDirection;
    while 0 <= currentRank < 8 && 0 <= currentFile < 8
      invariant moves' + Ray(board.pieces, color, currentRank, currentFile, rankDirection, fileDirection)
             == moves + RayFrom(board.pieces, rank, file, color, rankDirection, fileDirection)
      decreases RayMeasure(currentRank, currentFile, rankDirection, fileDirection)
    {
      match board.GetPiece(currentRank, currentFile)
      case Some(targetPiece) =>
        if targetPiece.color != color {
          moves' := moves' + [(currentRank, currentFile)];
        }
        break;
      case None => {
        WalkOn(board.pieces, color, currentRank, currentFile, rankDirection, fileDirection, moves');
        moves' := moves' + [(currentRank, currentFile)];
        currentRank := currentRank + rankDirection;
        currentFile := currentFile + fileDirection;
      }
    }
  }
}
