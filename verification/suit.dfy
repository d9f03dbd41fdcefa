/** The four suits; suits are not ordered. */
module SuitType {
  datatype Suit = Clubs | Diamonds | Hearts | Spades

  /** Every case, in declaration order. */
  const AllSuits: seq<Suit> := [Clubs, Diamonds, Hearts, Spades]
}
