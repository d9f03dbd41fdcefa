/**
  Card ranks. The cases carry the raw values two = 2 up to ace = 14 in
  declaration order, and `<` compares raw values. There is no low-ace value:
  the ace is always 14.
*/
module RankType {
  import opened Optional

  datatype Rank = Two | Three | Four | Five | Six | Seven | Eight | Nine | Ten | Jack | Queen | King | Ace

  /** Every case, in declaration order. */
  const AllRanks: seq<Rank> := [Two, Three, Four, Five, Six, Seven, Eight, Nine, Ten, Jack, Queen, King, Ace]

  /** The raw value of a rank. */
  function RawValue(r: Rank): (v: int)
    ensures 2 <= v <= 14
  {
    match r
    case Two => 2
    case Three => 3
    case Four => 4
    case Five => 5
    case Six => 6
    case Seven => 7
    case Eight => 8
    case Nine => 9
    case Ten => 10
    case Jack => 11
    case Queen => 12
    case King => 13
    case Ace => 14
  }

  /** Each rank sits in `AllRanks` at its raw value less two. */
  lemma RawValueIndex(r: Rank)
    ensures r == AllRanks[RawValue(r) - 2]
  {
  }

  /** The failable initialiser `Rank(rawValue:)` that a raw-value enum provides. */
  function FromRawValue(v: int): (r: Option<Rank>)
    ensures r.Some? <==> 2 <= v <= 14
    ensures r.Some? ==> RawValue(r.value) == v
  {
    if 2 <= v <= 14 then Some(AllRanks[v - 2]) else None
  }

  /** `lhs < rhs` compares raw values. */
  predicate Less(lhs: Rank, rhs: Rank) {
    RawValue(lhs) < RawValue(rhs)
  }

  /** The raw values run contiguously from 2 to 14 over the 13 cases in declaration order. */
  lemma RawValuesContiguous()
    ensures |AllRanks| == 13
    ensures forall i :: 0 <= i < |AllRanks| ==> RawValue(AllRanks[i]) == i + 2
    ensures forall r :: r in AllRanks
  {
    forall r: Rank ensures r in AllRanks {
      RawValueIndex(r);
    }
  }

  /** Distinct ranks have distinct raw values, and `FromRawValue` inverts `RawValue`. */
  lemma RawValueRoundTrip(r: Rank, s: Rank)
    ensures FromRawValue(RawValue(r)) == Some(r)
    ensures RawValue(r) == RawValue(s) ==> r == s
  {
  }

  /** `<` is a strict total order. */
  lemma LessIsStrictTotalOrder(a: Rank, b: Rank, c: Rank)
    ensures !Less(a, a)
    ensures Less(a, b) ==> !Less(b, a)
    ensures Less(a, b) && Less(b, c) ==> Less(a, c)
    ensures a == b || Less(a, b) || Less(b, a)
  {
    RawValueRoundTrip(a, b);
  }

  /** Two is the least rank and ace the greatest. */
  lemma TwoLeastAceGreatest(r: Rank)
    ensures r == Two || Less(Two, r)
    ensures r == Ace || Less(r, Ace)
  {
  }
}
