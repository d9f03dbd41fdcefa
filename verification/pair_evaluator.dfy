/**
  The paired-hand evaluator of Evaluators/HandEvaluators/PairEvaluator.swift.
  Only top pair is implemented: some hole card matches the highest rank on
  the board. Neither the number of cards nor repeated cards are checked.
*/
module PairEvaluator {
  import opened Optional
  import opened RankType
  import opened CardType
  import opened CardArrays

  /** No card among `cards` outranks `r`. */
  predicate NoneAbove(cards: seq<Card>, r: Rank) {
    forall i :: 0 <= i < |cards| ==> !Less(r, cards[i].rank)
  }

  /** Some hole card has a board rank that no board card outranks. */
  ghost predicate HoldsTopRank(holeCards: seq<Card>, communityCards: seq<Card>) {
    exists i, j :: 0 <= i < |holeCards| && 0 <= j < |communityCards| &&
      holeCards[i].rank == communityCards[j].rank && NoneAbove(communityCards, holeCards[i].rank)
  }

  /**
    `highestRank(in:)`: the first rank after sorting the ranks in descending
    order, that is, the largest rank, and nothing for no cards.
  */
  function HighestRank(cards: seq<Card>): (r: Option<Rank>)
    ensures r.None? <==> |cards| == 0
    ensures r.Some? ==> HasRank(cards, r.value) && NoneAbove(cards, r.value)
  {
    if |cards| == 0 then None
    else
      var top := match HighestRank(cards[1..])
        case None => cards[0].rank
        case Some(m) => if Less(m, cards[0].rank) then cards[0].rank else m;
      assert forall i :: 0 < i < |cards| ==> cards[1..][i - 1] == cards[i];
      Some(top)
  }

  /** The highest rank is the only rank of the cards that nothing outranks. */
  lemma HighestRankUnique(cards: seq<Card>, r: Rank)
    requires HasRank(cards, r) && NoneAbove(cards, r)
    ensures HighestRank(cards) == Some(r)
  {
    var top := HighestRank(cards).value;
    var i :| 0 <= i < |cards| && cards[i].rank == r;
    var j :| 0 <= j < |cards| && cards[j].rank == top;
    assert !Less(r, top) && !Less(top, r);
    RawValueRoundTrip(r, top);
  }

  /** `hasTopPair`: some hole card has the highest rank on the board. */
  function HasTopPair(holeCards: seq<Card>, communityCards: seq<Card>): (b: bool)
    ensures b <==> HoldsTopRank(holeCards, communityCards)
  {
    match HighestRank(communityCards)
    case None => false
    case Some(highest) =>
      TopPairWith(holeCards, communityCards, highest);
      exists i | 0 <= i < |holeCards| :: holeCards[i].rank == highest
  }

  lemma TopPairWith(holeCards: seq<Card>, communityCards: seq<Card>, highest: Rank)
    requires HighestRank(communityCards) == Some(highest)
    ensures HasRank(holeCards, highest) <==> HoldsTopRank(holeCards, communityCards)
  {
    if HoldsTopRank(holeCards, communityCards) {
      var i :| 0 <= i < |holeCards| && NoneAbove(communityCards, holeCards[i].rank) &&
        HasRank(communityCards, holeCards[i].rank);
      HighestRankUnique(communityCards, holeCards[i].rank);
    }
  }

  // The unimplemented evaluators, which always answer false.

  function HasTopPairTopKicker(cards: seq<Card>, communityCards: seq<Card>): bool { false }
  function HasSecondPair(cards: seq<Card>, communityCards: seq<Card>): bool { false }
  function HasOverpair(cards: seq<Card>, communityCards: seq<Card>): bool { false }
  function HasTwoPair(cards: seq<Card>, communityCards: seq<Card>): bool { false }
  function HasSet(cards: seq<Card>, communityCards: seq<Card>): bool { false }
  function HasThreeOfAKind(cards: seq<Card>, communityCards: seq<Card>): bool { false }
  function HasFourOfAKind(cards: seq<Card>, communityCards: seq<Card>): bool { false }
  function HasFullHouse(cards: seq<Card>, communityCards: seq<Card>): bool { false }

  // Properties.

  /** Whatever the cards, none of the unimplemented evaluators holds. */
  lemma UnimplementedNeverHold(cards: seq<Card>, communityCards: seq<Card>)
    ensures !HasTopPairTopKicker(cards, communityCards) && !HasSecondPair(cards, communityCards)
    ensures !HasOverpair(cards, communityCards) && !HasTwoPair(cards, communityCards)
    ensures !HasSet(cards, communityCards) && !HasThreeOfAKind(cards, communityCards)
    ensures !HasFourOfAKind(cards, communityCards) && !HasFullHouse(cards, communityCards)
  {
  }

  /** An empty board has no top pair. */
  lemma EmptyBoardNoTopPair(holeCards: seq<Card>)
    ensures !HasTopPair(holeCards, [])
  {
  }

  /**
    No validation: the answer depends only on which ranks the hole cards
    have and on the highest board rank, not on suits, counts or repeats.
  */
  lemma OnlyRanksAndTopMatter(holeCards: seq<Card>, communityCards: seq<Card>,
                              holeCards': seq<Card>, communityCards': seq<Card>)
    requires forall r :: HasRank(holeCards, r) <==> HasRank(holeCards', r)
    requires HighestRank(communityCards) == HighestRank(communityCards')
    ensures HasTopPair(holeCards, communityCards) == HasTopPair(holeCards', communityCards')
  {
    match HighestRank(communityCards)
    case None =>
    case Some(highest) =>
      TopPairWith(holeCards, communityCards, highest);
      TopPairWith(holeCards', communityCards', highest);
  }

  /** A hole card matching the top board rank is top pair, however often that rank repeats on the board. */
  lemma MatchingTopRankIsTopPair(holeCards: seq<Card>, communityCards: seq<Card>, i: nat, j: nat)
    requires i < |holeCards| && j < |communityCards|
    requires holeCards[i].rank == communityCards[j].rank
    requires NoneAbove(communityCards, communityCards[j].rank)
    ensures HasTopPair(holeCards, communityCards)
  {
  }

  /** Hole cards matching no board rank, such as an overpair, are not top pair. */
  lemma OverpairIsNotTopPair(holeCards: seq<Card>, communityCards: seq<Card>)
    requires forall i, j :: 0 <= i < |holeCards| && 0 <= j < |communityCards| ==>
      holeCards[i].rank != communityCards[j].rank
    ensures !HasTopPair(holeCards, communityCards)
  {
  }
}
