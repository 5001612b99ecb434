/** The contents of one square. The engine stores 0, 1 and -1 in a float grid; here it is an enumeration. */
module Cells {

  datatype Cell = Empty | Black | White

  /** A piece colour: any cell value except Empty. */
  type Color = c: Cell | c != Empty witness Black

  /** The other player's colour. */
  function Opp(c: Color): (o: Color)
    ensures o != c
  {
    if c == Black then White else Black
  }

  /** Two distinct colours are each other's opposite: there are only two. */
  lemma DistinctColorsAreOpposite(a: Color, b: Color)
    requires a != b
    ensures b == Opp(a) && a == Opp(b)
  {
  }
}
