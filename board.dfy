/** The position model of chess_backend/src/modules/board.rs: piece kinds, colours,
    and a board of 64 optional pieces, held as a sequence of slots indexed by
    rank * 8 + file (the source's fixed-size array is a value it copies and compares).
    The value-level functions (PieceAt, SetAt, StartCells, DisplayChar) are the
    specification the class Board is proved against. */
module Boards {

  datatype Option<T> = None | Some(value: T)

  datatype PieceType = Pawn | Knight | Bishop | Rook | Queen | King

  datatype Color = White | Black

  datatype Piece = Piece(pieceType: PieceType, color: Color)

  /** A cell as the source reports it, a pair (rank, file) of unsigned integers. */
  type Cell = (nat, nat)

  /** The contents of the 64 slots, as a value. */
  type Cells = s: seq<Option<Piece>> | |s| == 64 witness seq(64, _ => None)

  /** The slots of a board with no piece on it. */
  function EmptyCells(): Cells {
    seq(64, _ => None)
  }

  predicate InBounds(rank: int, file: int) {
    0 <= rank < 8 && 0 <= file < 8
  }

  /** The slot that holds cell (rank, file). */
  function Index(rank: int, file: int): (i: nat)
    requires InBounds(rank, file)
    ensures i < 64
  {
    rank * 8 + file
  }

  /** Index is a bijection between the 64 cells and the slots 0..63. */
  lemma IndexRoundTrip(rank: int, file: int)
    requires InBounds(rank, file)
    ensures Index(rank, file) / 8 == rank && Index(rank, file) % 8 == file
  {
  }

  lemma SlotRoundTrip(i: nat)
    requires i < 64
    ensures InBounds(i / 8, i % 8) && Index(i / 8, i % 8) == i
  {
  }

  /** The piece on cell (rank, file); every cell off the board reads as empty.
      Coordinates are integers so that the wrap-around of a negative offset in the
      source (a huge unsigned value) is the same thing as a negative one here: off
      the board. */
  function PieceAt(cells: Cells, rank: int, file: int): Option<Piece> {
    if InBounds(rank, file) then cells[Index(rank, file)] else None
  }

  /** The slots after writing `piece` on (rank, file); a write off the board does nothing. */
  function SetAt(cells: Cells, rank: int, file: int, piece: Option<Piece>): Cells {
    if InBounds(rank, file) then cells[Index(rank, file) := piece] else cells
  }

  /** Every slot is read through exactly one cell. */
  lemma {:induction false} PieceAtSlot(cells: Cells, i: nat)
    requires i < 64
    ensures PieceAt(cells, i / 8, i % 8) == cells[i]
  {
    SlotRoundTrip(i);
  }

  /** Two slot sequences that agree on every cell are equal. */
  lemma {:induction false} CellsExtensional(c1: Cells, c2: Cells)
    requires forall r, f :: InBounds(r, f) ==> PieceAt(c1, r, f) == PieceAt(c2, r, f)
    ensures c1 == c2
  {
    forall i | 0 <= i < 64
      ensures c1[i] == c2[i]
    {
      PieceAtSlot(c1, i);
      PieceAtSlot(c2, i);
    }
  }

  /** Reading after a write: the written cell holds the new piece when it is on the
      board, and every other cell keeps what it held. */
  lemma {:induction false} GetAfterSet(cells: Cells, rank: int, file: int, piece: Option<Piece>, r: int, f: int)
    ensures PieceAt(SetAt(cells, rank, file, piece), r, f)
         == if InBounds(rank, file) && r == rank && f == file then piece else PieceAt(cells, r, f)
  {
    if InBounds(rank, file) && InBounds(r, f) {
      IndexRoundTrip(rank, file);
      IndexRoundTrip(r, f);
    }
  }

  /** The order of the pieces on each back rank, from file 0 to file 7. */
  const BackRank: seq<PieceType> := [Rook, Knight, Bishop, Queen, King, Bishop, Knight, Rook]

  /** What slot i holds in the start layout. */
  function StartPiece(i: nat): Option<Piece>
    requires i < 64
  {
    if i < 8 then Some(Piece(BackRank[i], White))
    else if i < 16 then Some(Piece(Pawn, White))
    else if i < 48 then None
    else if i < 56 then Some(Piece(Pawn, Black))
    else Some(Piece(BackRank[i - 56], Black))
  }

  function StartCells(): Cells {
    seq(64, i requires 0 <= i < 64 => StartPiece(i))
  }

  /** The start layout, cell by cell: White on ranks 0 and 1, Black on ranks 6 and 7,
      ranks 2 to 5 empty, and the two armies mirror each other across the board. */
  lemma {:induction false} StartLayout(rank: int, file: int)
    requires InBounds(rank, file)
    ensures rank == 0 ==> PieceAt(StartCells(), rank, file) == Some(Piece(BackRank[file], White))
    ensures rank == 1 ==> PieceAt(StartCells(), rank, file) == Some(Piece(Pawn, White))
    ensures 2 <= rank <= 5 ==> PieceAt(StartCells(), rank, file) == None
    ensures rank == 6 ==> PieceAt(StartCells(), rank, file) == Some(Piece(Pawn, Black))
    ensures rank == 7 ==> PieceAt(StartCells(), rank, file) == Some(Piece(BackRank[file], Black))
    ensures PieceAt(StartCells(), rank, file).Some? ==>
              PieceAt(StartCells(), 7 - rank, file).Some? &&
              PieceAt(StartCells(), 7 - rank, file).value.pieceType == PieceAt(StartCells(), rank, file).value.pieceType &&
              PieceAt(StartCells(), 7 - rank, file).value.color != PieceAt(StartCells(), rank, file).value.color
  {
    assert Index(rank, file) == rank * 8 + file;
    assert Index(7 - rank, file) == (7 - rank) * 8 + file;
  }

  /** The character display shows for a slot: upper case for White, lower case for
      Black, '.' for an empty cell. */
  function Glyph(p: Option<Piece>): (c: char)
    ensures c == '.' <==> p.None?
    ensures p.Some? && p.value.color == White ==> 'A' <= c <= 'Z'
    ensures p.Some? && p.value.color == Black ==> 'a' <= c <= 'z'
  {
    match p
    case None => '.'
    case Some(Piece(Pawn, White)) => 'P'
    case Some(Piece(Knight, White)) => 'N'
    case Some(Piece(Bishop, White)) => 'B'
    case Some(Piece(Rook, White)) => 'R'
    case Some(Piece(Queen, White)) => 'Q'
    case Some(Piece(King, White)) => 'K'
    case Some(Piece(Pawn, Black)) => 'p'
    case Some(Piece(Knight, Black)) => 'n'
    case Some(Piece(Bishop, Black)) => 'b'
    case Some(Piece(Rook, Black)) => 'r'
    case Some(Piece(Queen, Black)) => 'q'
    case Some(Piece(King, Black)) => 'k'
  }

  /** No two slot contents share a character. */
  lemma GlyphInjective(p: Option<Piece>, q: Option<Piece>)
    requires Glyph(p) == Glyph(q)
    ensures p == q
  {
  }

  /** Character i of the display of `cells`. The display has 8 lines of 17
      characters (8 pairs "glyph, space" and a newline), 136 in all. Line `row` shows rank 7 - row, column
      2 * file shows the glyph of (7 - row, file), the odd columns are spaces and the
      last column is a newline. */
  function DisplayChar(cells: Cells, i: nat): char
    requires i < 136
  {
    var row, col := i / 17, i % 17;
    if col == 16 then '\n'
    else if col % 2 == 1 then ' '
    else Glyph(PieceAt(cells, 7 - row, col / 2))
  }

  lemma DisplayCharAt(cells: Cells, row: nat, col: nat)
    requires row < 8 && col < 17
    ensures 17 * row + col < 136
    ensures DisplayChar(cells, 17 * row + col)
         == if col == 16 then '\n'
            else if col % 2 == 1 then ' '
            else Glyph(PieceAt(cells, 7 - row, col / 2))
  {
    var i := 17 * row + col;
    assert i / 17 == row && i % 17 == col;
  }

  /** Line 7 - rank of the display shows the glyph of (rank, file) at column 2 * file
      and a space after it. */
  lemma DisplayGlyphAt(cells: Cells, rank: nat, file: nat)
    requires rank < 8 && file < 8
    ensures 17 * (7 - rank) + 2 * file + 1 < 136
    ensures DisplayChar(cells, 17 * (7 - rank) + 2 * file) == Glyph(PieceAt(cells, rank, file))
    ensures DisplayChar(cells, 17 * (7 - rank) + 2 * file + 1) == ' '
  {
    var row, col := 7 - rank, 2 * file;
    var i := 17 * row + col;
    assert i / 17 == row && i % 17 == col;
    assert col / 2 == file && col % 2 == 0;
    assert (i + 1) / 17 == row && (i + 1) % 17 == col + 1;
    assert (col + 1) % 2 == 1;
  }

  lemma DisplayNewlineAt(cells: Cells, rank: nat)
    requires rank < 8
    ensures DisplayChar(cells, 17 * (7 - rank) + 16) == '\n'
  {
    DisplayCharAt(cells, 7 - rank, 16);
  }

  /** `s` is the first |s| characters of the display of `cells`. */
  predicate IsDisplayPrefix(cells: Cells, s: string) {
    |s| <= 136 && forall i :: 0 <= i < |s| ==> s[i] == DisplayChar(cells, i)
  }

  lemma DisplayPrefixGrows(cells: Cells, s: string, c: char)
    requires IsDisplayPrefix(cells, s) && |s| < 136 && c == DisplayChar(cells, |s|)
    ensures IsDisplayPrefix(cells, s + [c])
  {
  }

  /** The display loses nothing: two boards with the same display are the same board. */
  lemma {:induction false} DisplayIsLossless(c1: Cells, c2: Cells)
    requires forall i :: 0 <= i < 136 ==> DisplayChar(c1, i) == DisplayChar(c2, i)
    ensures c1 == c2
  {
    forall r, f | InBounds(r, f)
      ensures PieceAt(c1, r, f) == PieceAt(c2, r, f)
    {
      DisplayCharAt(c1, 7 - r, 2 * f);
      DisplayCharAt(c2, 7 - r, 2 * f);
      assert DisplayChar(c1, 17 * (7 - r) + 2 * f) == DisplayChar(c2, 17 * (7 - r) + 2 * f);
      GlyphInjective(PieceAt(c1, r, f), PieceAt(c2, r, f));
    }
    CellsExtensional(c1, c2);
  }

  /** The board. The source stores the slots in a fixed-size array held by value
      (no other board can alias it), so the field is a 64-slot sequence that new()
      builds and set_piece overwrites in place. */
  class Board {
    var pieces: Cells

    /** The start layout, written slot by slot into a board that starts out empty. */
    constructor ()
      ensures pieces == StartCells()
    {
      var slots: Cells := EmptyCells();
      slots := slots[0 := Some(Piece(Rook, White))];
      slots := slots[1 := Some(Piece(Knight, White))];
      slots := slots[2 := Some(Piece(Bishop, White))];
      slots := slots[3 := Some(Piece(Queen, White))];
      slots := slots[4 := Some(Piece(King, White))];
      slots := slots[5 := Some(Piece(Bishop, White))];
      slots := slots[6 := Some(Piece(Knight, White))];
      slots := slots[7 := Some(Piece(Rook, White))];
      slots := slots[8 := Some(Piece(Pawn, White))];
      slots := slots[9 := Some(Piece(Pawn, White))];
      slots := slots[10 := Some(Piece(Pawn, White))];
      slots := slots[11 := Some(Piece(Pawn, White))];
      slots := slots[12 := Some(Piece(Pawn, White))];
      slots := slots[13 := Some(Piece(Pawn, White))];
      slots := slots[14 := Some(Piece(Pawn, White))];
      slots := slots[15 := Some(Piece(Pawn, White))];

      slots := slots[48 := Some(Piece(Pawn, Black))];
      slots := slots[49 := Some(Piece(Pawn, Black))];
      slots := slots[50 := Some(Piece(Pawn, Black))];
      slots := slots[51 := Some(Piece(Pawn, Black))];
      slots := slots[52 := Some(Piece(Pawn, Black))];
      slots := slots[53 := Some(Piece(Pawn, Black))];
      slots := slots[54 := Some(Piece(Pawn, Black))];
      slots := slots[55 := Some(Piece(Pawn, Black))];
      slots := slots[56 := Some(Piece(Rook, Black))];
      slots := slots[57 := Some(Piece(Knight, Black))];
      slots := slots[58 := Some(Piece(Bishop, Black))];
      slots := slots[59 := Some(Piece(Queen, Black))];
      slots := slots[60 := Some(Piece(King, Black))];
      slots := slots[61 := Some(Piece(Bishop, Black))];
      slots := slots[62 := Some(Piece(Knight, Black))];
      slots := slots[63 := Some(Piece(Rook, Black))];
      assert forall i | 0 <= i < 16 :: slots[i] == StartPiece(i);
      assert forall i | 16 <= i < 48 :: slots[i] == StartPiece(i);
      assert forall i | 48 <= i < 64 :: slots[i] == StartPiece(i);
      pieces := slots;
    }

    /** Bounds-checked read. */
    function GetPiece(rank: nat, file: nat): (p: Option<Piece>)
      reads this
      ensures p == PieceAt(pieces, rank, file)
    {
      if rank < 8 && file < 8 then pieces[rank * 8 + file] else None
    }

    /** Bounds-checked write in place. */
    method SetPiece(rank: nat, file: nat, piece: Option<Piece>)
      modifies this
      ensures pieces == SetAt(old(pieces), rank, file, piece)
    {
      if rank < 8 && file < 8 {
        pieces := pieces[rank * 8 + file := piece];
      }
    }

    /** The 8 x 8 text grid, rank 7 first. */
    method Display() returns (s: string)
      ensures |s| == 136
      ensures forall i :: 0 <= i < |s| ==> s[i] == DisplayChar(pieces, i)
    {
      s := "";
      for rank := 8 downto 0
        invariant |s| == 17 * (8 - rank)
        invariant IsDisplayPrefix(pieces, s)
      {
        for file := 0 to 8
          invariant |s| == 17 * (7 - rank) + 2 * file
          invariant IsDisplayPrefix(pieces, s)
        {
          var piece := GetPiece(rank, file);
          var c := Glyph(piece);
          DisplayGlyphAt(pieces, rank, file);
          DisplayPrefixGrows(pieces, s, c);
          s := s + [c];
          DisplayPrefixGrows(pieces, s, ' ');
          s := s + [' '];
        }
        DisplayNewlineAt(pieces, rank);
        DisplayPrefixGrows(pieces, s, '\n');
        s := s + ['\n'];
      }
    }
  }
}
