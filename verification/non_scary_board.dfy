/**
  The minimum good hand on a board that is not scary, of
  Strategies/TightAggressive/BoardTypes/NonScary/NonScaryBoard.swift. Only
  the street matters: second pair on the flop, top pair on the turn and an
  overpair on the river.
*/
module NonScaryBoard {
  import opened StreetType
  import opened MinGoodHandType
  import BoardTypeFactory

  /** `minGoodHand(for:)`. */
  function MinGoodHandFor(context: BoardTypeFactory.BoardContext): (h: MinGoodHand)
    ensures Less(h, Trips)
    ensures context.street == Flop ==> h == SecondPair
    ensures context.street == Turn ==> h == TopPair
    ensures context.street == River ==> h == Overpair
  {
    match context.street
    case Flop => SecondPair
    case Turn => TopPair
    case River => Overpair
  }

  /** The features, the ace-high flag and the TJQK flag are ignored. */
  lemma OnlyTheStreetMatters(c: BoardTypeFactory.BoardContext, d: BoardTypeFactory.BoardContext)
    requires c.street == d.street
    ensures MinGoodHandFor(c) == MinGoodHandFor(d)
  {
  }

  /** The requirement rises strictly from flop to turn to river. */
  lemma RisesWithTheStreet(c: BoardTypeFactory.BoardContext, d: BoardTypeFactory.BoardContext)
    ensures Index(c.street) < Index(d.street) <==> Less(MinGoodHandFor(c), MinGoodHandFor(d))
    ensures Index(c.street) == Index(d.street) <==> MinGoodHandFor(c) == MinGoodHandFor(d)
  {
  }
}
