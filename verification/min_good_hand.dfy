/**
  The weakest made hand worth continuing with, of
  Strategies/TightAggressive/MinGoodHand.swift. The cases carry the raw values
  0 (second pair) up to 10 (full house) in declaration order, and `<`
  compares raw values.
*/
module MinGoodHandType {
  import opened Optional

  datatype MinGoodHand =
    | SecondPair
    | TopPair
    | TopPairTopKicker
    | Overpair
    | Trips
    | Straight
    | NutStraight
    | Flush
    | SecondNutFlush
    | NutFlush
    | FullHouse

  /** Every case, in declaration order. */
  const AllHands: seq<MinGoodHand> :=
    [SecondPair, TopPair, TopPairTopKicker, Overpair, Trips, Straight, NutStraight, Flush, SecondNutFlush, NutFlush, FullHouse]

  /** The raw value of a case. */
  function RawValue(h: MinGoodHand): (v: int)
    ensures 0 <= v <= 10
  {
    match h
    case SecondPair => 0
    case TopPair => 1
    case TopPairTopKicker => 2
    case Overpair => 3
    case Trips => 4
    case Straight => 5
    case NutStraight => 6
    case Flush => 7
    case SecondNutFlush => 8
    case NutFlush => 9
    case FullHouse => 10
  }

  /** Each case sits in `AllHands` at its raw value. */
  lemma RawValueIndex(h: MinGoodHand)
    ensures |AllHands| == 11
    ensures h == AllHands[RawValue(h)]
  {
  }

  /** The failable initialiser `MinGoodHand(rawValue:)` that a raw-value enum provides. */
  function FromRawValue(v: int): (r: Option<MinGoodHand>)
    ensures r.Some? <==> 0 <= v <= 10
    ensures r.Some? ==> RawValue(r.value) == v
  {
    if 0 <= v <= 10 then Some(AllHands[v]) else None
  }

  /** `lhs < rhs` compares raw values. */
  predicate Less(lhs: MinGoodHand, rhs: MinGoodHand) {
    RawValue(lhs) < RawValue(rhs)
  }

  /** `FromRawValue` inverts `RawValue`, so distinct cases have distinct raw values. */
  lemma RawValueRoundTrip(h: MinGoodHand, k: MinGoodHand)
    ensures FromRawValue(RawValue(h)) == Some(h)
    ensures RawValue(h) == RawValue(k) ==> h == k
  {
    RawValueIndex(h);
    RawValueIndex(k);
  }

  /** `<` is a strict total order. */
  lemma LessIsStrictTotalOrder(a: MinGoodHand, b: MinGoodHand, c: MinGoodHand)
    ensures !Less(a, a)
    ensures Less(a, b) ==> !Less(b, a)
    ensures Less(a, b) && Less(b, c) ==> Less(a, c)
    ensures a == b || Less(a, b) || Less(b, a)
  {
    RawValueRoundTrip(a, b);
  }

  /** `<` is the declaration order: the earlier case in `AllHands` is the smaller one. */
  lemma LessIsDeclarationOrder(i: int, j: int)
    requires 0 <= i < |AllHands| && 0 <= j < |AllHands|
    ensures Less(AllHands[i], AllHands[j]) <==> i < j
  {
    RawValueIndex(AllHands[i]);
    RawValueIndex(AllHands[j]);
    RawValueRoundTrip(AllHands[i], AllHands[j]);
  }

  /** Second pair is the least demanding requirement and a full house the most. */
  lemma Extremes(h: MinGoodHand)
    ensures h == SecondPair || Less(SecondPair, h)
    ensures h == FullHouse || Less(h, FullHouse)
  {
    RawValueRoundTrip(h, SecondPair);
    RawValueRoundTrip(h, FullHouse);
  }

  /** The made hands above a pair come in the declared order. */
  lemma MadeHandChain()
    ensures Less(Trips, Straight) && Less(Straight, NutStraight) && Less(NutStraight, Flush)
    ensures Less(Flush, SecondNutFlush) && Less(SecondNutFlush, NutFlush)
  {
  }
}
