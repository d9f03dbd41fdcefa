/**
  The per-predicate board evaluator of Evaluators/BoardEvaluators/BoardEvaluator.swift.
  Every public predicate first runs `check`: a board has three to five
  cards and no card twice; otherwise the predicate is false. Each predicate
  looks at one feature on its own, so several can hold on the same board.
*/
module BoardEvaluators {
  import opened RankType
  import opened SuitType
  import opened CardType
  import opened CardArrays
  import StraightWindows
  import SetFacts

  // Reference meanings, stated on the rank and suit counts.

  /** The ranks occurring exactly twice (a rank occurring three times is no pair). */
  ghost function RanksOccurringTwice(cards: seq<Card>): set<Rank> {
    set r | r in AllRanks && RankCount(cards, r) == 2
  }

  /** Some suit occurs exactly `n` times. */
  ghost predicate SomeSuitExactly(cards: seq<Card>, n: int) {
    exists s :: SuitCount(cards, s) == n
  }

  /** Some straight window lies entirely within the ranks of `cards`. */
  ghost predicate ContainsWindow(cards: seq<Card>) {
    exists i :: 0 <= i < |StraightWindows.PossibleStraights| && StraightWindows.PossibleStraights[i] <= RankSet(cards)
  }

  /** Some straight window shares at least `n` ranks with `cards`. */
  ghost predicate NearWindow(cards: seq<Card>, n: int) {
    exists i :: 0 <= i < |StraightWindows.PossibleStraights| && |RankSet(cards) * StraightWindows.PossibleStraights[i]| >= n
  }

  // The model of the source.

  /** `check`: three to five cards, all distinct. */
  predicate Check(cards: seq<Card>) {
    3 <= |cards| <= 5 && NoDuplicates(cards)
  }

  /** The private `isNToStraight`; its window table is the one of `StraightWindows`. */
  function IsNToStraight(n: int, ranks: set<Rank>): (b: bool)
    ensures b <==> exists i :: 0 <= i < |StraightWindows.PossibleStraights| && |ranks * StraightWindows.PossibleStraights[i]| >= n
  {
    StraightWindows.AnyWindowIff(n, ranks, StraightWindows.PossibleStraights);
    StraightWindows.AnyWindow(n, ranks, StraightWindows.PossibleStraights)
  }

  /** `isNToFlush`: some value of the suit histogram equals `n` (an exact count, not "at least"). */
  function IsNToFlush(n: int, cards: seq<Card>): (b: bool)
    ensures b <==> n >= 1 && SomeSuitExactly(cards, n)
  {
    var h := SuitHistogram(cards);
    assert n >= 1 && SomeSuitExactly(cards, n) ==> exists s :: s in h && h[s] == n;
    n in h.Values
  }

  /** `nPairs`: the number of histogram values equal to 2, one per rank occurring exactly twice. */
  function NPairs(cards: seq<Card>): (k: nat)
    ensures k == |RanksOccurringTwice(cards)|
  {
    PairedRanksMeaning(cards);
    |PairedRanks(cards)|
  }

  /** The keys of the rank histogram whose value is 2. */
  function PairedRanks(cards: seq<Card>): set<Rank> {
    var h := RankHistogram(cards);
    set r | r in h && h[r] == 2
  }

  lemma PairedRanksMeaning(cards: seq<Card>)
    ensures PairedRanks(cards) == RanksOccurringTwice(cards)
  {
    RawValuesContiguous();
  }

  /** Three of the board's ranks fit a straight window, and the board is not already a straight. */
  function HasThreeToStraight(cards: seq<Card>): (b: bool)
    ensures b <==> Check(cards) && !ContainsWindow(cards) && NearWindow(cards, 3)
  {
    WindowMeetsAllIffContained(RankSet(cards));
    Check(cards) && !IsNToStraight(5, RankSet(cards)) && IsNToStraight(3, RankSet(cards))
  }

  /** A stub: always false. */
  function HasThreeToOpenEndedStraight(cards: seq<Card>): (b: bool)
    ensures !b
  {
    false
  }

  /** Four of the board's ranks fit a straight window, and the board is not already a straight. */
  function HasFourToStraight(cards: seq<Card>): (b: bool)
    ensures b <==> Check(cards) && !ContainsWindow(cards) && NearWindow(cards, 4)
  {
    WindowMeetsAllIffContained(RankSet(cards));
    Check(cards) && !IsNToStraight(5, RankSet(cards)) && IsNToStraight(4, RankSet(cards))
  }

  /** Some suit occurs exactly three times. */
  function HasThreeToFlush(cards: seq<Card>): (b: bool)
    ensures b <==> Check(cards) && SomeSuitExactly(cards, 3)
  {
    Check(cards) && IsNToFlush(3, cards)
  }

  /** Some suit occurs exactly four times. */
  function HasFourToFlush(cards: seq<Card>): (b: bool)
    ensures b <==> Check(cards) && SomeSuitExactly(cards, 4)
  {
    Check(cards) && IsNToFlush(4, cards)
  }

  /** Exactly one rank is paired. */
  function HasOnePair(cards: seq<Card>): (b: bool)
    ensures b <==> Check(cards) && |RanksOccurringTwice(cards)| == 1
  {
    Check(cards) && NPairs(cards) == 1
  }

  /** Exactly two ranks are paired. */
  function HasTwoPair(cards: seq<Card>): (b: bool)
    ensures b <==> Check(cards) && |RanksOccurringTwice(cards)| == 2
  {
    Check(cards) && NPairs(cards) == 2
  }

  // Properties.

  /** A window shares all five of its ranks with `u` exactly when it lies within `u`. */
  lemma WindowMeetsAllIffContained(u: set<Rank>)
    ensures forall i :: 0 <= i < |StraightWindows.PossibleStraights| ==>
      (|u * StraightWindows.PossibleStraights[i]| >= 5 <==> StraightWindows.PossibleStraights[i] <= u)
  {
    StraightWindows.WindowCardinality();
    forall i | 0 <= i < |StraightWindows.PossibleStraights|
      ensures |u * StraightWindows.PossibleStraights[i]| >= 5 <==> StraightWindows.PossibleStraights[i] <= u
    {
      var w := StraightWindows.PossibleStraights[i];
      SetFacts.SubsetCardinality(u * w, w);
      if w <= u {
        assert u * w == w;
      }
    }
  }

  /** A board that fails `check` has none of the features. */
  lemma InvalidBoardHasNoFeature(cards: seq<Card>)
    requires !Check(cards)
    ensures !HasThreeToStraight(cards) && !HasFourToStraight(cards) && !HasThreeToOpenEndedStraight(cards)
    ensures !HasThreeToFlush(cards) && !HasFourToFlush(cards)
    ensures !HasOnePair(cards) && !HasTwoPair(cards)
  {
  }

  /** One pair and two pair never hold together. */
  lemma PairsExclusive(cards: seq<Card>)
    ensures !(HasOnePair(cards) && HasTwoPair(cards))
  {
  }

  /** On a board of at most five cards, three-to-flush and four-to-flush never hold together. */
  lemma FlushesExclusive(cards: seq<Card>)
    ensures !(HasThreeToFlush(cards) && HasFourToFlush(cards))
  {
    if HasThreeToFlush(cards) && HasFourToFlush(cards) {
      var s3 :| SuitCount(cards, s3) == 3;
      var s4 :| SuitCount(cards, s4) == 4;
      TwoSuitsBound(cards, s3, s4);
    }
  }

  /** A board whose ranks already contain a whole window has no straight draw. */
  lemma MadeStraightIsNoDraw(cards: seq<Card>)
    requires ContainsWindow(cards)
    ensures !HasThreeToStraight(cards) && !HasFourToStraight(cards)
  {
  }

  /** Four to a straight implies three to a straight. */
  lemma FourToStraightImpliesThree(cards: seq<Card>)
    requires HasFourToStraight(cards)
    ensures HasThreeToStraight(cards)
  {
  }
}
