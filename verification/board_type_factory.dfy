/**
  The board type factory of Strategies/TightAggressive/BoardTypes/BoardTypeFactory.swift.
  A board is very scary, scary or not scary, decided from the same six
  answers of the per-predicate board evaluator that the context builder reads.
*/
module BoardTypeFactory {
  import opened RankType
  import opened SuitType
  import opened CardType
  import opened CardArrays
  import opened StreetType
  import opened FeatureType
  import opened Optional
  import StraightWindows
  import BoardEvaluators
  import SetFacts
  import B = BoardContextBuilder

  /** The three board types `makeBoardType` can return. */
  datatype BoardType = VeryScary | Scary | NonScary

  /** `BoardContext` of this file: what a board type reads to name its minimum good hand. */
  datatype BoardContext = BoardContext(street: Street, features: set<BoardFeature>, isAceHigh: bool, isTJQK: bool)

  /** `isVeryScary` over the evaluator's answers. */
  predicate VeryScaryOf(a: B.Answers) {
    || (B.StraightPossible(a) && B.FlushPossible(a) && !a.onePair)
    || (a.fourToFlush && !a.onePair)
    || (a.fourToStraight && !B.FlushPossible(a) && !a.onePair)
    || (a.fourToStraight && a.onePair)
    || (B.FlushPossible(a) && a.onePair)
    || a.twoPair
  }

  /** The three answers `isScary` counts. */
  function ScaryFlags(a: B.Answers): seq<bool> {
    [a.onePair, a.threeToStraight && !a.fourToStraight, a.threeToFlush && !a.fourToFlush]
  }

  /** `filter { $0 }.count`. */
  function CountTrue(flags: seq<bool>): (n: nat)
    ensures n <= |flags|
    ensures n == |flags| <==> forall i :: 0 <= i < |flags| ==> flags[i]
    ensures n == 0 <==> forall i :: 0 <= i < |flags| ==> !flags[i]
  {
    if |flags| == 0 then 0
    else
      assert forall i :: 0 < i < |flags| ==> flags[1..][i - 1] == flags[i];
      (if flags[0] then 1 else 0) + CountTrue(flags[1..])
  }

  /** `isScary` over the evaluator's answers: exactly one of the three holds. */
  predicate ScaryOf(a: B.Answers) {
    CountTrue(ScaryFlags(a)) == 1
  }

  /** `makeBoardType` over the evaluator's answers: very scary first, then scary, else not scary. */
  function MakeBoardTypeOf(a: B.Answers): BoardType {
    if VeryScaryOf(a) then VeryScary
    else if ScaryOf(a) then Scary
    else NonScary
  }

  /** `makeBoardType(cards:)`. */
  function MakeBoardType(cards: seq<Card>): BoardType {
    MakeBoardTypeOf(B.Evaluate(cards))
  }

  // Over the answers.

  /** Exactly one of three flags, spelled out. */
  lemma ExactlyOneOfThree(x: bool, y: bool, z: bool)
    ensures CountTrue([x, y, z]) == 1 <==> (x && !y && !z) || (!x && y && !z) || (!x && !y && z)
  {
    assert [x, y, z][1..] == [y, z];
    assert [y, z][1..] == [z];
  }

  /**
    A board is very scary exactly when the context builder's cascade stops
    at one of its first six rules, the ones that do not fall through to one
    pair, three to a straight or three to a flush.
  */
  lemma VeryScaryIsEarlyCascade(a: B.Answers)
    ensures VeryScaryOf(a) <==> B.Cascade(a) in {
      Some(B.PossibleStraightPossibleFlush), Some(B.FourToFlush), Some(B.FourToStraight),
      Some(B.FourToStraightOnePair), Some(B.PossibleFlushOnePair), Some(B.TwoPair)}
  {
  }

  /** A scary board is one the cascade labels one pair, three to a straight or three to a flush, less one case. */
  lemma ScaryIsLateCascade(a: B.Answers)
    ensures MakeBoardTypeOf(a) == Scary <==>
      (B.Cascade(a) in {Some(B.OnePair), Some(B.ThreeToStraight), Some(B.ThreeToFlush)}
       && !(a.onePair && a.threeToStraight && !a.fourToStraight))
  {
    ExactlyOneOfThree(a.onePair, a.threeToStraight && !a.fourToStraight, a.threeToFlush && !a.fourToFlush);
  }

  /** Two pair, four to a flush (paired or not) and four to a straight each make a very scary board. */
  lemma StrongDrawsAreVeryScary(a: B.Answers)
    requires a.twoPair || a.fourToFlush || a.fourToStraight
    ensures MakeBoardTypeOf(a) == VeryScary
  {
  }

  /** One pair with three to a straight and no flush draw is two of the three, so not scary. */
  lemma PairWithThreeToStraightNotScary(a: B.Answers)
    requires a.onePair && a.threeToStraight && !a.fourToStraight
    requires !a.twoPair && !a.threeToFlush && !a.fourToFlush
    ensures MakeBoardTypeOf(a) == NonScary
  {
    ExactlyOneOfThree(true, true, false);
  }

  /** With every answer no the board is not scary. */
  lemma NothingIsNotScary(a: B.Answers)
    requires !a.onePair && !a.twoPair && !a.threeToStraight && !a.fourToStraight && !a.threeToFlush && !a.fourToFlush
    ensures MakeBoardTypeOf(a) == NonScary
  {
    ExactlyOneOfThree(false, false, false);
  }

  // On boards.

  /** A board of the wrong size or with a repeated card is not scary. */
  lemma InvalidBoardNotScary(cards: seq<Card>)
    requires !BoardEvaluators.Check(cards)
    ensures MakeBoardType(cards) == NonScary
  {
    BoardEvaluators.InvalidBoardHasNoFeature(cards);
    NothingIsNotScary(B.Evaluate(cards));
  }

  /** The board type agrees with the context builder's feature set, by `VeryScaryIsEarlyCascade`. */
  lemma VeryScaryBoardsHaveEarlyFeatureSets(cards: seq<Card>)
    ensures MakeBoardType(cards) == VeryScary <==> B.FeatureSet(cards) in {
      Some(B.PossibleStraightPossibleFlush), Some(B.FourToFlush), Some(B.FourToStraight),
      Some(B.FourToStraightOnePair), Some(B.PossibleFlushOnePair), Some(B.TwoPair)}
  {
    VeryScaryIsEarlyCascade(B.Evaluate(cards));
  }

  // Examples.

  /** Ace, queen, eight, six, three: no window holds three of them. */
  lemma NoThreeOfAWindow(u: set<Rank>)
    requires u == {Ace, Queen, Eight, Six, Three}
    ensures forall i :: 0 <= i < |StraightWindows.PossibleStraights| ==> |u * StraightWindows.PossibleStraights[i]| < 3
  {
    var w := StraightWindows.PossibleStraights;
    assert u * w[0] == {Ace, Three};
    assert u * w[1] == {Three, Six};
    assert u * w[2] == {Three, Six};
    assert u * w[3] == {Six, Eight};
    assert u * w[4] == {Six, Eight};
    assert u * w[5] == {Six, Eight};
    assert u * w[6] == {Eight};
    assert u * w[7] == {Eight, Queen};
    assert u * w[8] == {Queen};
    assert u * w[9] == {Queen, Ace};
  }

  /** No suit appears three or four times among two hearts and three single other suits. */
  lemma TwoHeartsAndSingles(cards: seq<Card>)
    requires |cards| == 5
    requires cards[0].suit == Hearts && cards[1].suit == Diamonds && cards[2].suit == Clubs
    requires cards[3].suit == Spades && cards[4].suit == Hearts
    ensures forall s :: SuitCount(cards, s) <= 2
  {
    ProjectionsOfFive(cards);
  }

  /** A♥ Q♦ 8♣ 6♠ 3♥: no pair, no straight draw, no flush draw, so not scary. */
  lemma AceQueenEightSixThreeNotScary(cards: seq<Card>)
    requires |cards| == 5
    requires cards[0] == Card(Ace, Hearts) && cards[1] == Card(Queen, Diamonds) && cards[2] == Card(Eight, Clubs)
    requires cards[3] == Card(Six, Spades) && cards[4] == Card(Three, Hearts)
    ensures MakeBoardType(cards) == NonScary
  {
    AceQueenEightSixThreeRanks(cards);
    NoThreeOfAWindow(RankSet(cards));
    TwoHeartsAndSingles(cards);
    assert !BoardEvaluators.HasOnePair(cards);
    assert !BoardEvaluators.HasTwoPair(cards);
    assert !BoardEvaluators.HasThreeToStraight(cards);
    assert !BoardEvaluators.HasFourToStraight(cards);
    assert !BoardEvaluators.HasThreeToFlush(cards);
    assert !BoardEvaluators.HasFourToFlush(cards);
    NothingIsNotScary(B.Evaluate(cards));
  }

  lemma AceQueenEightSixThreeRanks(cards: seq<Card>)
    requires |cards| == 5
    requires cards[0] == Card(Ace, Hearts) && cards[1] == Card(Queen, Diamonds) && cards[2] == Card(Eight, Clubs)
    requires cards[3] == Card(Six, Spades) && cards[4] == Card(Three, Hearts)
    ensures BoardEvaluators.RanksOccurringTwice(cards) == {}
    ensures RankSet(cards) == {Ace, Queen, Eight, Six, Three}
  {
    ProjectionsOfFive(cards);
    RawValuesContiguous();
  }

  /** A♥ A♦ K♥: one pair and nothing else, so scary. */
  lemma AceAceKingScary(cards: seq<Card>)
    requires |cards| == 3
    requires cards[0] == Card(Ace, Hearts) && cards[1] == Card(Ace, Diamonds) && cards[2] == Card(King, Hearts)
    ensures MakeBoardType(cards) == Scary
  {
    AceAceKingPair(cards);
    AceAceKingNoDraws(cards);
    NoDuplicatesIffDistinct(cards);
    assert BoardEvaluators.Check(cards);
    assert BoardEvaluators.HasOnePair(cards);
    assert !BoardEvaluators.HasTwoPair(cards);
    assert !BoardEvaluators.HasThreeToStraight(cards);
    assert !BoardEvaluators.HasFourToStraight(cards);
    assert !BoardEvaluators.HasThreeToFlush(cards);
    assert !BoardEvaluators.HasFourToFlush(cards);
    ExactlyOneOfThree(true, false, false);
  }

  lemma AceAceKingPair(cards: seq<Card>)
    requires |cards| == 3
    requires cards[0] == Card(Ace, Hearts) && cards[1] == Card(Ace, Diamonds) && cards[2] == Card(King, Hearts)
    ensures BoardEvaluators.RanksOccurringTwice(cards) == {Ace}
    ensures RankSet(cards) == {Ace, King}
  {
    ProjectionsOfThree(cards);
    RawValuesContiguous();
  }

  lemma AceAceKingNoDraws(cards: seq<Card>)
    requires |cards| == 3
    requires cards[0] == Card(Ace, Hearts) && cards[1] == Card(Ace, Diamonds) && cards[2] == Card(King, Hearts)
    ensures forall i :: 0 <= i < |StraightWindows.PossibleStraights| ==> |RankSet(cards) * StraightWindows.PossibleStraights[i]| < 3
    ensures forall s :: SuitCount(cards, s) <= 2
  {
    ProjectionsOfThree(cards);
    var u := RankSet(cards);
    assert u == {Ace, King};
    StraightWindows.WindowCardinality();
    forall i | 0 <= i < |StraightWindows.PossibleStraights|
      ensures |u * StraightWindows.PossibleStraights[i]| < 3
    {
      SetFacts.SubsetCardinality(u * StraightWindows.PossibleStraights[i], u);
    }
  }
}
