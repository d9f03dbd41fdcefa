/**
  The board context builder of Strategies/TightAggressive/BoardTypes/BoardContextBuilder.swift.
  It asks the per-predicate board evaluator six questions and picks one
  feature set by a priority cascade; it also records whether the board is
  ace-high and whether it holds ten, jack, queen and king.
*/
module BoardContextBuilder {
  import opened Optional
  import opened RankType
  import opened SuitType
  import opened CardType
  import opened CardArrays
  import StraightWindows
  import BoardEvaluators
  import SetFacts

  /** `BoardFeatureSet`: the textures the cascade can pick. */
  datatype BoardFeatureSet =
    | OnePair
    | TwoPair
    | ThreeToFlush
    | ThreeToStraight
    | FourToFlush
    | FourToStraight
    | PossibleStraightPossibleFlush
    | FourToStraightOnePair
    | PossibleFlushOnePair

  /** `BoardContext`. */
  datatype BoardContext = BoardContext(featureSet: Option<BoardFeatureSet>, isAceHigh: bool, hasTJQK: bool)

  /** The six answers of the board evaluator the cascade reads. */
  datatype Answers = Answers(
    onePair: bool,
    twoPair: bool,
    threeToStraight: bool,
    fourToStraight: bool,
    threeToFlush: bool,
    fourToFlush: bool)

  /** The evaluator's answers for `cards`. */
  function Evaluate(cards: seq<Card>): Answers {
    Answers(
      BoardEvaluators.HasOnePair(cards),
      BoardEvaluators.HasTwoPair(cards),
      BoardEvaluators.HasThreeToStraight(cards),
      BoardEvaluators.HasFourToStraight(cards),
      BoardEvaluators.HasThreeToFlush(cards),
      BoardEvaluators.HasFourToFlush(cards))
  }

  predicate StraightPossible(a: Answers) {
    a.threeToStraight || a.fourToStraight
  }

  predicate FlushPossible(a: Answers) {
    a.threeToFlush || a.fourToFlush
  }

  /** `featureSet(cards:)` over the evaluator's answers: the first rule that applies wins. */
  function Cascade(a: Answers): Option<BoardFeatureSet> {
    var threeToStraightOnly := a.threeToStraight && !a.fourToStraight;
    var threeToFlushOnly := a.threeToFlush && !a.fourToFlush;
    if StraightPossible(a) && FlushPossible(a) && !a.onePair then Some(PossibleStraightPossibleFlush)
    else if a.fourToFlush && !a.onePair then Some(FourToFlush)
    else if a.fourToStraight && !FlushPossible(a) && !a.onePair then Some(FourToStraight)
    else if a.fourToStraight && a.onePair then Some(FourToStraightOnePair)
    else if FlushPossible(a) && a.onePair then Some(PossibleFlushOnePair)
    else if a.twoPair then Some(TwoPair)
    else if a.onePair then Some(OnePair)
    else if threeToStraightOnly then Some(ThreeToStraight)
    else if threeToFlushOnly then Some(ThreeToFlush)
    else None
  }

  /** None of the six board predicates holds for `cards`. */
  predicate NoPredicateHolds(cards: seq<Card>) {
    && !BoardEvaluators.HasOnePair(cards) && !BoardEvaluators.HasTwoPair(cards)
    && !BoardEvaluators.HasThreeToStraight(cards) && !BoardEvaluators.HasFourToStraight(cards)
    && !BoardEvaluators.HasThreeToFlush(cards) && !BoardEvaluators.HasFourToFlush(cards)
  }

  /** `featureSet(cards:)`. */
  function FeatureSet(cards: seq<Card>): Option<BoardFeatureSet> {
    Cascade(Evaluate(cards))
  }

  /** `hasTJQK`: every rank above nine and below the ace is among the ranks; the board is not checked. */
  function HasTJQK(cards: seq<Card>): (b: bool)
    ensures b <==> forall r :: Less(Nine, r) && Less(r, Ace) ==> HasRank(cards, r)
  {
    BetweenNineAndAce();
    HasRankIff(cards, Ten);
    HasRankIff(cards, Jack);
    HasRankIff(cards, Queen);
    HasRankIff(cards, King);
    var ranks := Ranks(cards);
    Ten in ranks && Jack in ranks && Queen in ranks && King in ranks
  }

  /** The ranks above nine and below the ace are ten, jack, queen and king. */
  lemma BetweenNineAndAce()
    ensures forall r :: Less(Nine, r) && Less(r, Ace) <==> r in {Ten, Jack, Queen, King}
  {
  }

  /**
    `build(cards:)`. The evaluator's `isAceHigh` is not defined anywhere in
    the repository, so it is a parameter.
  */
  function Build(cards: seq<Card>, isAceHigh: seq<Card> -> bool): (context: BoardContext)
    ensures context.featureSet.None? <==> NoPredicateHolds(cards)
    ensures context.featureSet == FeatureSet(cards)
    ensures context.isAceHigh == isAceHigh(cards)
    ensures context.hasTJQK == HasTJQK(cards)
  {
    NoneIffNothingHolds(Evaluate(cards));
    BoardContext(FeatureSet(cards), isAceHigh(cards), HasTJQK(cards))
  }

  // The cascade.

  /** The cascade picks nothing exactly when none of the six answers is yes. */
  lemma NoneIffNothingHolds(a: Answers)
    ensures Cascade(a).None? <==>
      !(a.onePair || a.twoPair || a.threeToStraight || a.fourToStraight || a.threeToFlush || a.fourToFlush)
  {
  }

  /** A straight draw and a flush draw without one pair are a possible straight and flush, before any other rule. */
  lemma StraightAndFlushFirst(a: Answers)
    requires StraightPossible(a) && FlushPossible(a) && !a.onePair
    ensures Cascade(a) == Some(PossibleStraightPossibleFlush)
  {
  }

  /** Four to a straight with one pair is always that label, whatever the flush draws. */
  lemma FourToStraightWithPair(a: Answers)
    requires a.fourToStraight && a.onePair
    ensures Cascade(a) == Some(FourToStraightOnePair)
  {
  }

  /** A flush draw with one pair and no four to a straight is a possible flush with one pair. */
  lemma FlushDrawWithPair(a: Answers)
    requires FlushPossible(a) && a.onePair && !a.fourToStraight
    ensures Cascade(a) == Some(PossibleFlushOnePair)
  {
  }

  /** Three to a straight is picked exactly when it is the only answer that is yes, apart from three to a straight itself. */
  lemma ThreeToStraightOnlyAlone(a: Answers)
    ensures Cascade(a) == Some(ThreeToStraight) <==>
      (a.threeToStraight && !a.fourToStraight && !a.onePair && !a.twoPair && !FlushPossible(a))
  {
  }

  // The cascade on boards.

  /** On boards the cascade picks nothing exactly when none of the six predicates holds. */
  lemma FeatureSetNoneIff(cards: seq<Card>)
    ensures FeatureSet(cards).None? <==> NoPredicateHolds(cards)
  {
    NoneIffNothingHolds(Evaluate(cards));
  }

  /** A board of the wrong size or with a repeated card has no feature set. */
  lemma InvalidBoardNoFeatureSet(cards: seq<Card>)
    requires !BoardEvaluators.Check(cards)
    ensures FeatureSet(cards) == None
  {
    BoardEvaluators.InvalidBoardHasNoFeature(cards);
    NoneIffNothingHolds(Evaluate(cards));
  }

  /**
    On boards four to a straight always comes with three to a straight, so
    the three-to-straight label needs a board with no four to a straight.
  */
  lemma ThreeToStraightLabelOnBoards(cards: seq<Card>)
    ensures FeatureSet(cards) == Some(ThreeToStraight) <==>
      (BoardEvaluators.HasThreeToStraight(cards) && !BoardEvaluators.HasFourToStraight(cards)
       && !BoardEvaluators.HasOnePair(cards) && !BoardEvaluators.HasTwoPair(cards)
       && !BoardEvaluators.HasThreeToFlush(cards) && !BoardEvaluators.HasFourToFlush(cards))
  {
    ThreeToStraightOnlyAlone(Evaluate(cards));
  }

  // The ten-to-king test.

  /** More cards never lose ten, jack, queen and king. */
  lemma TJQKKeptByMoreCards(cards: seq<Card>, more: seq<Card>)
    requires HasTJQK(cards)
    ensures HasTJQK(cards + more)
  {
    forall r | Less(Nine, r) && Less(r, Ace)
      ensures HasRank(cards + more, r)
    {
      var i :| 0 <= i < |cards| && cards[i].rank == r;
      assert (cards + more)[i] == cards[i];
    }
  }

  // Example.

  /** The distinct ranks of king, queen, jack, ten, ten. */
  lemma KingDownToTenRanks(cards: seq<Card>)
    requires |cards| == 5
    requires cards[0].rank == King && cards[1].rank == Queen && cards[2].rank == Jack
    requires cards[3].rank == Ten && cards[4].rank == Ten
    ensures RankSet(cards) == {King, Queen, Jack, Ten}
  {
    ProjectionsOfFive(cards);
  }

  /** King, queen, jack, ten, ten: exactly one rank occurs twice. */
  lemma KingDownToTenOnePair(cards: seq<Card>)
    requires |cards| == 5
    requires cards[0].rank == King && cards[1].rank == Queen && cards[2].rank == Jack
    requires cards[3].rank == Ten && cards[4].rank == Ten
    ensures BoardEvaluators.RanksOccurringTwice(cards) == {Ten}
  {
    ProjectionsOfFive(cards);
    RawValuesContiguous();
  }

  /** King, queen, jack, ten: four ranks of the nine-to-king window, and no window complete. */
  lemma KingDownToTenFourToStraight(u: set<Rank>)
    requires u == {King, Queen, Jack, Ten}
    ensures forall i :: 0 <= i < |StraightWindows.PossibleStraights| ==> !(StraightWindows.PossibleStraights[i] <= u)
    ensures |u * StraightWindows.PossibleStraights[8]| >= 4
  {
    StraightWindows.WindowCardinality();
    forall i | 0 <= i < |StraightWindows.PossibleStraights|
      ensures !(StraightWindows.PossibleStraights[i] <= u)
    {
      if StraightWindows.PossibleStraights[i] <= u {
        SetFacts.SubsetCardinality(StraightWindows.PossibleStraights[i], u);
      }
    }
    assert u * StraightWindows.PossibleStraights[8] == u;
  }

  /**
    K♦ Q♦ J♥ T♥ T♣, or any suits that keep the two tens apart: four to a
    straight with one pair.
  */
  lemma KingDownToTenExample(cards: seq<Card>)
    requires |cards| == 5
    requires cards[0].rank == King && cards[1].rank == Queen && cards[2].rank == Jack
    requires cards[3].rank == Ten && cards[4].rank == Ten
    requires cards[3].suit != cards[4].suit
    ensures FeatureSet(cards) == Some(FourToStraightOnePair)
  {
    NoDuplicatesIffDistinct(cards);
    assert BoardEvaluators.Check(cards);
    KingDownToTenRanks(cards);
    KingDownToTenOnePair(cards);
    KingDownToTenFourToStraight(RankSet(cards));
    assert BoardEvaluators.HasOnePair(cards);
    assert BoardEvaluators.HasFourToStraight(cards);
    FourToStraightWithPair(Evaluate(cards));
  }
}
