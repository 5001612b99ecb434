/** The N × N grid with its placement and flip primitives (class Board). */
module Boards {
  import opened Cells
  import opened Geometry
  import opened Results

  /** The grid, row by row; `size` is fixed when the board is made. */
  datatype Board = Board(size: nat, grid: seq<seq<Cell>>)

  predicate WellFormed(b: Board) {
    |b.grid| == b.size && forall i :: 0 <= i < b.size ==> |b.grid[i]| == b.size
  }

  function Get(b: Board, p: Square): Cell
    requires WellFormed(b) && Inside(b.size, p)
  {
    b.grid[p.0][p.1]
  }

  /** The board with v written at p and every other square as before. */
  function Set(b: Board, p: Square, v: Cell): (r: Board)
    requires WellFormed(b) && Inside(b.size, p)
    ensures WellFormed(r) && r.size == b.size
    ensures Get(r, p) == v
    ensures forall q :: Inside(b.size, q) && q != p ==> Get(r, q) == Get(b, q)
  {
    Board(b.size, b.grid[p.0 := b.grid[p.0][p.1 := v]])
  }

  /** A size × size board of empty squares (the zero array the constructor starts from). */
  function Blank(size: nat): (b: Board)
    ensures WellFormed(b) && b.size == size
    ensures forall p :: Inside(size, p) ==> Get(b, p) == Empty
  {
    Board(size, seq(size, _ => seq(size, _ => Empty)))
  }

  /** Board.Place: checks row, then column, then colour, then occupancy, and only then writes.
      Negative coordinates are outside this model (the driver reads non-negative integers). */
  function Place(b: Board, color: Cell, row: nat, col: nat): (r: Result<Board>)
    requires WellFormed(b)
    ensures r.Success? <==> row < b.size && col < b.size && color != Empty && Get(b, (row, col)) == Empty
    ensures row >= b.size || col >= b.size ==> r == Failure(InvalidPosition)
    ensures row < b.size && col < b.size && color == Empty ==> r == Failure(InvalidColor)
    ensures row < b.size && col < b.size && color != Empty && Get(b, (row, col)) != Empty ==> r == Failure(OccupiedCell)
    ensures r.Success? ==> WellFormed(r.value) && r.value.size == b.size
    ensures r.Success? ==> Get(r.value, (row, col)) == color
    ensures r.Success? ==> forall q :: Inside(b.size, q) && q != (row, col) ==> Get(r.value, q) == Get(b, q)
  {
    if row >= b.size then Failure(InvalidPosition)
    else if col >= b.size then Failure(InvalidPosition)
    else if color == Empty then Failure(InvalidColor)
    else if Get(b, (row, col)) != Empty then Failure(OccupiedCell)
    else Success(Set(b, (row, col), color))
  }

  /** Board.FlipPiece: White becomes Black, Black becomes White, an empty square is an error.
      The source indexes the array without a bounds check; an index past the edge makes numpy
      raise, which is modelled as InvalidPosition. */
  function FlipPiece(b: Board, row: nat, col: nat): (r: Result<Board>)
    requires WellFormed(b)
    ensures r.Success? <==> row < b.size && col < b.size && Get(b, (row, col)) != Empty
    ensures row >= b.size || col >= b.size ==> r == Failure(InvalidPosition)
    ensures row < b.size && col < b.size && Get(b, (row, col)) == Empty ==> r == Failure(EmptyCell)
    ensures r.Success? ==> WellFormed(r.value) && r.value.size == b.size
    ensures r.Success? ==> Get(r.value, (row, col)) == Opp(Get(b, (row, col)))
    ensures r.Success? ==> forall q :: Inside(b.size, q) && q != (row, col) ==> Get(r.value, q) == Get(b, q)
  {
    if row >= b.size || col >= b.size then Failure(InvalidPosition)
    else
      match Get(b, (row, col))
      case White => Success(Set(b, (row, col), Black))
      case Black => Success(Set(b, (row, col), White))
      case Empty => Failure(EmptyCell)
  }

  /** Flipping an occupied square is writing the opposite colour there. */
  lemma FlipPieceTurns(b: Board, row: nat, col: nat)
    requires WellFormed(b) && row < b.size && col < b.size && Get(b, (row, col)) != Empty
    ensures FlipPiece(b, row, col) == Success(Set(b, (row, col), Opp(Get(b, (row, col)))))
  {
  }

  /** Flipping the same square twice gives back the board it started from. */
  lemma FlipTwiceRestores(b: Board, row: nat, col: nat)
    requires WellFormed(b) && row < b.size && col < b.size && Get(b, (row, col)) != Empty
    ensures FlipPiece(b, row, col).Success?
    ensures FlipPiece(FlipPiece(b, row, col).value, row, col) == Success(b)
  {
    var b1 := FlipPiece(b, row, col).value;
    var b2 := FlipPiece(b1, row, col).value;
    assert b2.grid[row] == b.grid[row];
    assert b2.grid == b.grid;
  }

  /** The standard opening position: Black on the two squares of the main centre diagonal,
      White on the other two centre squares, everything else empty. */
  function StartCell(size: nat, p: Square): Cell {
    var mid := size / 2;
    if p == (mid, mid) || p == (mid - 1, mid - 1) then Black
    else if p == (mid - 1, mid) || p == (mid, mid - 1) then White
    else Empty
  }

  /** Board.__init__: an odd size is rejected, then the four centre pieces are placed with
      Place. A size of 0 is even but the first placement is already off the board. */
  function NewBoard(size: nat): (r: Result<Board>)
    ensures r.Success? <==> size % 2 == 0 && size >= 2
    ensures size % 2 != 0 ==> r == Failure(OddSize)
    ensures size == 0 ==> r == Failure(InvalidPosition)
    ensures r.Success? ==> WellFormed(r.value) && r.value.size == size
    ensures r.Success? ==> forall p :: Inside(size, p) ==> Get(r.value, p) == StartCell(size, p)
  {
    if size % 2 != 0 then Failure(OddSize)
    else
      var mid := size / 2;
      match Place(Blank(size), Black, mid, mid)
      case Failure(e) => Failure(e)
      case Success(b1) =>
        match Place(b1, Black, mid - 1, mid - 1)
        case Failure(e) => Failure(e)
        case Success(b2) =>
          match Place(b2, White, mid - 1, mid)
          case Failure(e) => Failure(e)
          case Success(b3) => Place(b3, White, mid, mid - 1)
  }

  // ----- counting pieces ------------------------------------------------------

  function Ind(p: bool): nat {
    if p then 1 else 0
  }

  function CountRow(row: seq<Cell>, v: Cell): nat {
    if |row| == 0 then 0 else Ind(row[0] == v) + CountRow(row[1..], v)
  }

  function CountRows(rows: seq<seq<Cell>>, v: Cell): nat {
    if |rows| == 0 then 0 else CountRow(rows[0], v) + CountRows(rows[1..], v)
  }

  /** The number of squares of b holding v. */
  function Count(b: Board, v: Cell): nat {
    CountRows(b.grid, v)
  }

  lemma {:induction false} CountRowUpdate(row: seq<Cell>, j: nat, x: Cell, v: Cell)
    requires j < |row|
    ensures CountRow(row[j := x], v) == CountRow(row, v) - Ind(row[j] == v) + Ind(x == v)
  {
    if j == 0 {
      assert row[j := x][1..] == row[1..];
    } else {
      assert row[j := x][1..] == row[1..][j - 1 := x];
      CountRowUpdate(row[1..], j - 1, x, v);
    }
  }

  lemma {:induction false} CountRowsUpdate(rows: seq<seq<Cell>>, i: nat, newRow: seq<Cell>, v: Cell)
    requires i < |rows|
    ensures CountRows(rows[i := newRow], v) == CountRows(rows, v) - CountRow(rows[i], v) + CountRow(newRow, v)
  {
    if i == 0 {
      assert rows[i := newRow][1..] == rows[1..];
    } else {
      assert rows[i := newRow][1..] == rows[1..][i - 1 := newRow];
      CountRowsUpdate(rows[1..], i - 1, newRow, v);
    }
  }

  /** Writing x over the piece at p moves one square from the old value's count to x's. */
  lemma SetCount(b: Board, p: Square, x: Cell, v: Cell)
    requires WellFormed(b) && Inside(b.size, p)
    ensures Count(Set(b, p, x), v) == Count(b, v) - Ind(Get(b, p) == v) + Ind(x == v)
  {
    CountRowUpdate(b.grid[p.0], p.1, x, v);
    CountRowsUpdate(b.grid, p.0, b.grid[p.0][p.1 := x], v);
  }

  /** A successful placement adds one square to the placed colour and takes one from Empty. */
  lemma PlaceCount(b: Board, color: Cell, row: nat, col: nat, v: Cell)
    requires WellFormed(b) && Place(b, color, row, col).Success?
    ensures Count(Place(b, color, row, col).value, v) == Count(b, v) - Ind(v == Empty) + Ind(v == color)
  {
    SetCount(b, (row, col), color, v);
  }

  /** The three counts after a successful Place: one empty square fewer, one more of `color`. */
  lemma PlaceCounts(b: Board, color: Cell, row: nat, col: nat)
    requires WellFormed(b) && Place(b, color, row, col).Success?
    ensures Count(Place(b, color, row, col).value, Empty) == Count(b, Empty) - 1
    ensures Count(Place(b, color, row, col).value, Black) == Count(b, Black) + Ind(color == Black)
    ensures Count(Place(b, color, row, col).value, White) == Count(b, White) + Ind(color == White)
  {
    PlaceCount(b, color, row, col, Empty);
    PlaceCount(b, color, row, col, Black);
    PlaceCount(b, color, row, col, White);
  }

  lemma {:induction false} CountRowPartition(row: seq<Cell>)
    ensures CountRow(row, Empty) + CountRow(row, Black) + CountRow(row, White) == |row|
  {
    if |row| > 0 {
      CountRowPartition(row[1..]);
    }
  }

  lemma {:induction false} CountRowsPartition(rows: seq<seq<Cell>>, n: nat)
    requires forall i :: 0 <= i < |rows| ==> |rows[i]| == n
    ensures CountRows(rows, Empty) + CountRows(rows, Black) + CountRows(rows, White) == |rows| * n
  {
    if |rows| > 0 {
      CountRowPartition(rows[0]);
      CountRowsPartition(rows[1..], n);
      assert |rows| * n == n + (|rows| - 1) * n;
    }
  }

  /** Every square is Empty, Black or White: the three counts add up to N². */
  lemma CountPartition(b: Board)
    requires WellFormed(b)
    ensures Count(b, Empty) + Count(b, Black) + Count(b, White) == b.size * b.size
  {
    CountRowsPartition(b.grid, b.size);
  }

  lemma {:induction false} CountRowAbsent(row: seq<Cell>, v: Cell)
    requires forall j :: 0 <= j < |row| ==> row[j] != v
    ensures CountRow(row, v) == 0
  {
    if |row| > 0 {
      CountRowAbsent(row[1..], v);
    }
  }

  lemma {:induction false} CountRowsAbsent(rows: seq<seq<Cell>>, v: Cell)
    requires forall i, j :: 0 <= i < |rows| && 0 <= j < |rows[i]| ==> rows[i][j] != v
    ensures CountRows(rows, v) == 0
  {
    if |rows| > 0 {
      CountRowAbsent(rows[0], v);
      CountRowsAbsent(rows[1..], v);
    }
  }

  /** The empty board holds no pieces and N² empty squares. */
  lemma BlankCount(size: nat)
    ensures Count(Blank(size), Black) == 0 && Count(Blank(size), White) == 0
    ensures Count(Blank(size), Empty) == size * size
  {
    var b := Blank(size);
    CountRowsAbsent(b.grid, Black);
    CountRowsAbsent(b.grid, White);
    CountPartition(b);
  }

  /** A new board holds two Black pieces, two White pieces and N² − 4 empty squares. */
  lemma NewBoardCount(size: nat)
    requires NewBoard(size).Success?
    ensures Count(NewBoard(size).value, Black) == 2
    ensures Count(NewBoard(size).value, White) == 2
    ensures Count(NewBoard(size).value, Empty) == size * size - 4
  {
    var mid := size / 2;
    var b0 := Blank(size);
    BlankCount(size);
    var b1 := Place(b0, Black, mid, mid).value;
    PlaceCounts(b0, Black, mid, mid);
    var b2 := Place(b1, Black, mid - 1, mid - 1).value;
    PlaceCounts(b1, Black, mid - 1, mid - 1);
    var b3 := Place(b2, White, mid - 1, mid).value;
    PlaceCounts(b2, White, mid - 1, mid);
    PlaceCounts(b3, White, mid, mid - 1);
  }
}
