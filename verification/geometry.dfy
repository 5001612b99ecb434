/** Squares, the eight compass directions, and the rays the capture scan walks. */
module Geometry {

  /** A (row, column) pair. Rows grow southwards and columns eastwards. */
  type Square = (int, int)

  /** True when p is a square of a size × size board. */
  predicate Inside(size: int, p: Square) {
    0 <= p.0 < size && 0 <= p.1 < size
  }

  /** The compass directions, declared in the order the engine's enumeration declares them. */
  datatype Direction = N | NE | E | SE | S | SW | W | NW

  /** The enumeration value of each direction; `for d in Direction` visits them in this order. */
  function Ordinal(d: Direction): (t: nat)
    ensures t < 8
  {
    match d
    case N => 0
    case NE => 1
    case E => 2
    case SE => 3
    case S => 4
    case SW => 5
    case W => 6
    case NW => 7
  }

  /** The direction visited at position t of the loop over all directions. */
  function DirectionOf(t: nat): (d: Direction)
    requires t < 8
    ensures Ordinal(d) == t
  {
    if t == 0 then N
    else if t == 1 then NE
    else if t == 2 then E
    else if t == 3 then SE
    else if t == 4 then S
    else if t == 5 then SW
    else if t == 6 then W
    else NW
  }

  lemma DirectionOfOrdinal(d: Direction)
    ensures DirectionOf(Ordinal(d)) == d
  {
  }

  /** One step in direction d as a (row delta, column delta) pair. This table replaces the
      per-direction branches of the walk, of the first step of a flip and of the flip loop. */
  function Delta(d: Direction): (delta: (int, int))
    ensures -1 <= delta.0 <= 1 && -1 <= delta.1 <= 1
    ensures delta != (0, 0)
  {
    match d
    case N  => (-1,  0)
    case NE => (-1,  1)
    case E  => ( 0,  1)
    case SE => ( 1,  1)
    case S  => ( 1,  0)
    case SW => ( 1, -1)
    case W  => ( 0, -1)
    case NW => (-1, -1)
  }

  /** No two directions share a step. */
  lemma DeltaInjective(d: Direction, e: Direction)
    requires Delta(d) == Delta(e)
    ensures d == e
  {
  }

  /** k copies of a unit step u in {-1, 0, 1}; written without multiplication so that
      every fact about rays stays in linear arithmetic. */
  function Scale(k: int, u: int): int {
    if u == 0 then 0 else if u > 0 then k else -k
  }

  /** The square k steps from o in direction d. */
  function Pos(o: Square, d: Direction, k: int): Square {
    (o.0 + Scale(k, Delta(d).0), o.1 + Scale(k, Delta(d).1))
  }

  /** The number of steps from o to p in direction d, read off whichever coordinate moves. */
  function RayIndex(o: Square, d: Direction, p: Square): int {
    if Delta(d).0 != 0 then Scale(p.0 - o.0, Delta(d).0) else Scale(p.1 - o.1, Delta(d).1)
  }

  /** p lies on the ray from o in direction d, between step lo (included) and step hi (excluded). */
  predicate OnSegment(o: Square, d: Direction, lo: int, hi: int, p: Square) {
    var k := RayIndex(o, d, p);
    lo <= k < hi && Pos(o, d, k) == p
  }

  /** RayIndex recovers the step count of a square on the ray. */
  lemma RayIndexOfPos(o: Square, d: Direction, k: int)
    ensures RayIndex(o, d, Pos(o, d, k)) == k
  {
  }

  /** Distinct step counts reach distinct squares. */
  lemma PosInjective(o: Square, d: Direction, k: int, m: int)
    requires Pos(o, d, k) == Pos(o, d, m)
    ensures k == m
  {
    RayIndexOfPos(o, d, k);
    RayIndexOfPos(o, d, m);
  }

  /** Distinct step counts reach distinct squares; in particular no step leads back to o. */
  lemma PosDistinct(o: Square, d: Direction, k: int, m: int)
    requires k != m
    ensures Pos(o, d, k) != Pos(o, d, m)
    ensures k != 0 ==> Pos(o, d, k) != o
  {
    RayIndexOfPos(o, d, k);
    RayIndexOfPos(o, d, m);
    RayIndexOfPos(o, d, 0);
  }

  /** The eight rays leaving o share no square: a square at least one step away lies on
      one ray only, at one step count only. */
  lemma RaysDisjoint(o: Square, d: Direction, e: Direction, k: int, m: int)
    requires k >= 1 && m >= 1
    requires Pos(o, d, k) == Pos(o, e, m)
    ensures d == e && k == m
  {
    assert Delta(d) == Delta(e);
    DeltaInjective(d, e);
    PosInjective(o, d, k, m);
  }

  /** A ray starting inside the board leaves it in fewer than size steps. */
  lemma StepBound(size: int, o: Square, d: Direction, k: int)
    requires Inside(size, o) && Inside(size, Pos(o, d, k)) && k >= 0
    ensures k < size
  {
  }

  /** Squares between two inside squares of one ray are inside too. */
  lemma RayConvex(size: int, o: Square, d: Direction, lo: int, k: int, hi: int)
    requires lo <= k <= hi
    requires Inside(size, Pos(o, d, lo)) && Inside(size, Pos(o, d, hi))
    ensures Inside(size, Pos(o, d, k))
  {
  }
}
