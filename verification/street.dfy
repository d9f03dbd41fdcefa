/** The betting rounds after the deal, in the order they are played. */
module StreetType {
  datatype Street = Flop | Turn | River

  /** Position of the street in the order flop, turn, river. */
  function Index(s: Street): nat {
    match s
    case Flop => 0
    case Turn => 1
    case River => 2
  }
}
