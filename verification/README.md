# PokerKit board and hand evaluation, in Dafny

This project models the evaluation core of PokerKit, a Swift library behind a
tight-aggressive No-Limit Hold'em strategy. The model covers these parts:

- **Types.** `Rank` (raw values two = 2 up to ace = 14, ordered by raw value),
  `Suit`, `Card` (equal when rank and suit are equal), the three-street
  `Street`, and the rank and suit histograms of a card array.
- **Straight windows.** The table of the ten five-rank straight windows
  (ace-to-five up to ten-to-ace) and `isNToStraight`: some window shares at
  least `n` ranks with the given ranks.
- **Board evaluators.** There are two revisions of the board evaluator:
  - the per-predicate one, whose every predicate first checks that the board has
    three to five distinct cards;
  - the `getFeatures` one, which builds a set of `BoardFeature`s and does not
    reject duplicates.
- **Hand evaluators.**
  - straight (`hasStraight`, over sorted rank values cut into chunks of five);
  - flush and nut flush (suit histogram of hole plus community cards);
  - top pair (a hole card matches the board's highest rank), with the
    remaining pair evaluators as the stubs they are.
- **Board classification for the strategy.**
  - the board feature vector with its reduction and labelling;
  - the board context builder with its feature-set cascade and the ten-jack-queen-king test;
  - the board type factory: very scary, scary or not scary;
  - the ordered `MinGoodHand` enum;
  - the not-scary board's street-to-minimum-good-hand table.

Counts and memberships are stated against independent reference meanings:

- A count is a multiset multiplicity: `multiset(Ranks(cards))[r]`.
- "Contains a straight" means some window lies inside the set of ranks.
- A label means membership in an explicit table of the feature sets it names.

Each modelled function is proved equal to its reference meaning by an
all-inputs lemma or an `ensures` clause.

Where the behaviour of the code and its surrounding documentation or tests
differ, the model follows the code:

- The flush and pair tests expect boards with a duplicated card to be
  rejected. `FlushEvaluator.check` and `PairEvaluator.hasTopPair` do not
  reject them (`FlushEvaluator.DuplicatesNotRejected`).
- The `getFeatures` evaluator counts a duplicated card as a pair
  (`BoardFeatureEvaluator.DuplicateCardCounted`). The per-predicate evaluator
  rejects such a board.
- `hasThreeToOpenEndedStraight` of the per-predicate evaluator is a stub
  returning `false`, so the `threeToOpenEndedStraight` label is unreachable
  from real boards (`BoardFeatureVector.OpenEndedLabelUnreachable`).
- `BoardContextBuilder.build` calls `boardEvaluator.isAceHigh`, which the
  evaluator does not define. The model takes that test as a parameter.
- `hasNutFlush` picks the first histogram entry of five or more. Swift's
  dictionary order is unspecified, so the order is a parameter of
  `FlushEvaluator.HasNutFlushWith`. With at most seven cards the result is
  proved not to depend on it.
- The repository holds two structs called `BoardContext`, one in
  BoardContextBuilder.swift and one in BoardTypeFactory.swift. They are modelled
  separately, as `BoardContextBuilder.BoardContext` and
  `BoardTypeFactory.BoardContext`.
- The ace-high river test of the minimum-good-hand evaluator expects top pair
  top kicker on a non-scary board. The not-scary table ignores the ace-high
  flag and gives an overpair (`NonScaryBoard.OnlyTheStreetMatters`).
- `chunks(ofCount:)` of the Swift Algorithms package is not part of this
  model. It is modelled by its documented meaning: consecutive slices of five,
  the last possibly shorter.

## Model

| member | source | states |
|---|---|---|
| RankType.RawValue | Sources/Types/Rank.swift:12-13 | every rank's raw value lies between 2 and 14 |
| RankType.FromRawValue | Sources/Types/Rank.swift:9-13 | the raw-value initialiser succeeds exactly for 2 through 14 and yields the rank with that raw value |
| RankType.RawValuesContiguous | Sources/Types/Rank.swift:12-13 | the thirteen cases, in declaration order, carry the raw values 2, 3, …, 14, and every rank is among them |
| RankType.RawValueRoundTrip | Sources/Types/Rank.swift:9-13 | converting a rank to its raw value and back gives the rank again; distinct ranks have distinct raw values |
| RankType.LessIsStrictTotalOrder | Sources/Types/Rank.swift:15-17 | `<` on raw values is irreflexive, asymmetric, transitive and total |
| RankType.TwoLeastAceGreatest | Sources/Types/Rank.swift:12-13 | two is below every other rank and the ace above every other rank |
| CardType.EqualityIsRankAndSuit | Sources/Types/Card/Card.swift:9-22 | two cards are equal exactly when their ranks and their suits are equal |
| CardType.NoDuplicatesIffDistinct | Sources/Evaluators/BoardEvaluators/BoardEvaluator.swift:115 | the set of the cards being as large as the array means no two positions hold the same card |
| CardArrays.Ranks | Sources/Types/Card/Card+Array.swift:18-20 | `ranks()` has one entry per card, the rank of the card at the same position |
| CardArrays.RankHistogram | Sources/Types/Card/Card+Array.swift:10-16 | the keys are exactly the ranks present, and each value is the number of cards of that rank |
| CardArrays.SuitHistogram | Sources/Types/Card/Card+Array.swift:22-28 | the keys are exactly the suits present, and each value is the number of cards of that suit |
| CardArrays.HistogramsTotal | Sources/Types/Card/Card+Array.swift:10-28 | the values of either histogram add up to the number of cards |
| CardArrays.HistogramsPermutation | Sources/Types/Card/Card+Array.swift:10-28 | reordering the cards changes neither histogram |
| CardArrays.TwoSuitsBound | Sources/Types/Card/Card+Array.swift:22-28 | two different suits together count at most as many cards as there are |
| Histograms.HistogramCounts | Sources/Types/Card/Card+Array.swift:11-15 | counting with `histogram[key, default: 0] += 1` maps each key present to its multiplicity and nothing else |
| Histograms.HistogramPermutation | Sources/Types/Card/Card+Array.swift:11-15 | the counting loop gives the same dictionary for any order of its input |
| CardHistograms.RankHistogram | Sources/Types/Card.swift:20-26 | the loop builds exactly the rank histogram of the `Card+Array` extension |
| CardHistograms.SuitHistogram | Sources/Types/Card.swift:28-34 | the loop builds exactly the suit histogram of the `Card+Array` extension |
| StraightWindows.WindowCardinality | Sources/Evaluators/Utils.swift:11-22 | there are ten windows, each of five ranks |
| StraightWindows.WindowContents | Sources/Evaluators/Utils.swift:11-22 | window i holds the ranks with raw values i+1 to i+5, the ace standing for 1 in the first window; the ace is in the first and last windows |
| StraightWindows.IsNToStraightIff | Sources/Evaluators/Utils.swift:24-36 | `isNToStraight(n, ranks)` holds exactly when some window shares at least n distinct ranks with `ranks` |
| StraightWindows.DuplicatesIrrelevant | Sources/Evaluators/Utils.swift:28 | only the set of ranks matters, not repetitions or order |
| StraightWindows.Monotone | Sources/Evaluators/Utils.swift:29-33 | being n to a straight implies being m to a straight for every m ≤ n |
| StraightWindows.Extremes | Sources/Evaluators/Utils.swift:24-36 | every rank list is zero to a straight, and none is six to a straight |
| BoardEvaluators.IsNToStraight | Sources/Evaluators/BoardEvaluators/BoardEvaluator.swift:118-129 | the private scan holds exactly when some window meets the ranks in at least n places |
| BoardEvaluators.IsNToFlush | Sources/Evaluators/BoardEvaluators/BoardEvaluator.swift:131-137 | holds exactly when some suit occurs exactly n times (n ≥ 1) |
| BoardEvaluators.NPairs | Sources/Evaluators/BoardEvaluators/BoardEvaluator.swift:139-142 | the number of histogram values equal to 2 is the number of ranks occurring exactly twice |
| BoardEvaluators.HasThreeToStraight | Sources/Evaluators/BoardEvaluators/BoardEvaluator.swift:36-44 | a valid board, no window inside its ranks, and some window sharing three ranks |
| BoardEvaluators.HasThreeToOpenEndedStraight | Sources/Evaluators/BoardEvaluators/BoardEvaluator.swift:46-49 | never holds |
| BoardEvaluators.HasFourToStraight | Sources/Evaluators/BoardEvaluators/BoardEvaluator.swift:57-65 | a valid board, no window inside its ranks, and some window sharing four ranks |
| BoardEvaluators.HasThreeToFlush | Sources/Evaluators/BoardEvaluators/BoardEvaluator.swift:73-76 | a valid board on which some suit occurs exactly three times |
| BoardEvaluators.HasFourToFlush | Sources/Evaluators/BoardEvaluators/BoardEvaluator.swift:84-87 | a valid board on which some suit occurs exactly four times |
| BoardEvaluators.HasOnePair | Sources/Evaluators/BoardEvaluators/BoardEvaluator.swift:95-98 | a valid board on which exactly one rank occurs exactly twice |
| BoardEvaluators.HasTwoPair | Sources/Evaluators/BoardEvaluators/BoardEvaluator.swift:106-109 | a valid board on which exactly two ranks occur exactly twice |
| BoardEvaluators.WindowMeetsAllIffContained | Sources/Evaluators/BoardEvaluators/BoardEvaluator.swift:40 | a window meets the ranks in five places exactly when it lies inside them |
| BoardEvaluators.InvalidBoardHasNoFeature | Sources/Evaluators/BoardEvaluators/BoardEvaluator.swift:113-116 | a board failing `check` has none of the seven features |
| BoardEvaluators.PairsExclusive | Sources/Evaluators/BoardEvaluators/BoardEvaluator.swift:95-109 | one pair and two pair never hold together |
| BoardEvaluators.FlushesExclusive | Sources/Evaluators/BoardEvaluators/BoardEvaluator.swift:73-87 | three to a flush and four to a flush never hold together on a board |
| BoardEvaluators.MadeStraightIsNoDraw | Sources/Evaluators/BoardEvaluators/BoardEvaluator.swift:40-43 | a board already containing a straight reports no straight draw |
| BoardEvaluators.FourToStraightImpliesThree | Sources/Evaluators/BoardEvaluators/BoardEvaluator.swift:36-65 | four to a straight implies three to a straight |
| BoardFeatureEvaluator.SortedUniqueRanks | Sources/Evaluators/BoardEvaluator/BoardEvaluator.swift:108-112 | the result holds exactly the board's ranks, in strictly increasing order |
| BoardFeatureEvaluator.SortedUniqueRanksLength | Sources/Evaluators/BoardEvaluator/BoardEvaluator.swift:108-112 | it has one entry per distinct rank |
| BoardFeatureEvaluator.IsSequentialRanksIff | Sources/Evaluators/BoardEvaluator/BoardEvaluator.swift:55-62 | the nested `isSequential` holds exactly when each raw value is the first plus its position |
| BoardFeatureEvaluator.OpenEndedFromIff | Sources/Evaluators/BoardEvaluator/BoardEvaluator.swift:64-73 | the loop succeeds exactly when some three adjacent sorted ranks climb by one and end at or below the king |
| BoardFeatureEvaluator.OpenEndedMeaning | Sources/Evaluators/BoardEvaluator/BoardEvaluator.swift:47-76 | the scan finds adjacent triples exactly when the board holds three ranks of consecutive raw values whose highest is not the ace |
| BoardFeatureEvaluator.HasThreeToOpenEndedStraight | Sources/Evaluators/BoardEvaluator/BoardEvaluator.swift:47-76 | holds exactly when the board holds three consecutive ranks below the ace |
| BoardFeatureEvaluator.OneAwayFromSomeIff | Sources/Evaluators/BoardEvaluator/BoardEvaluator.swift:98-105 | the loop succeeds exactly when some window has a symmetric difference of one rank with the board's ranks |
| BoardFeatureEvaluator.SymmetricDifferenceOne | Sources/Evaluators/BoardEvaluator/BoardEvaluator.swift:99-100 | a window and a rank set differ in exactly one rank when the set is the window less one rank or plus one rank |
| BoardFeatureEvaluator.FourToStraightMeaning | Sources/Evaluators/BoardEvaluator/BoardEvaluator.swift:78-106 | the guard and the scan together hold exactly for four ranks of one window, or six ranks holding a whole window |
| BoardFeatureEvaluator.HasFourToStraight | Sources/Evaluators/BoardEvaluator/BoardEvaluator.swift:78-106 | holds exactly when the distinct ranks are four of one window, or six holding a window |
| BoardFeatureEvaluator.InsertAll | Sources/Evaluators/BoardEvaluator/BoardEvaluator.swift:16-42 | each feature is in the set exactly when its test held, and nothing else is |
| BoardFeatureEvaluator.GetFeatures | Sources/Evaluators/BoardEvaluator/BoardEvaluator.swift:13-43 | outside three to five cards the set is empty; otherwise it holds only the six reportable features |
| BoardFeatureEvaluator.StraightFeaturesMeaning | Sources/Evaluators/BoardEvaluator/BoardEvaluator.swift:18-24 | the straight features are reported exactly for three-to-five-card boards meeting their rank conditions |
| BoardFeatureEvaluator.FlushFeaturesMeaning | Sources/Evaluators/BoardEvaluator/BoardEvaluator.swift:26-32 | the flush features are reported exactly when some suit occurs exactly three, or four, times |
| BoardFeatureEvaluator.PairFeaturesMeaning | Sources/Evaluators/BoardEvaluator/BoardEvaluator.swift:34-40 | the pair features are reported exactly when one, or two, ranks occur exactly twice |
| BoardFeatureEvaluator.FourToStraightNeedsFourRanks | Sources/Evaluators/BoardEvaluator/BoardEvaluator.swift:78-106 | on a board, four to a straight means exactly four distinct ranks inside one window |
| BoardFeatureEvaluator.FiveRanksNoFourToStraight | Sources/Evaluators/BoardEvaluator/BoardEvaluator.swift:98-103 | five distinct ranks never report four to a straight |
| BoardFeatureEvaluator.FewRanksNoStraightFeature | Sources/Evaluators/BoardEvaluator/BoardEvaluator.swift:52-83 | fewer than three distinct ranks report no straight feature |
| BoardFeatureEvaluator.PairFeaturesExclusive | Sources/Evaluators/BoardEvaluator/BoardEvaluator.swift:128-136 | one pair and two pair are never reported together |
| BoardFeatureEvaluator.FlushFeaturesExclusive | Sources/Evaluators/BoardEvaluator/BoardEvaluator.swift:116-124 | three and four to a flush are never reported together |
| BoardFeatureEvaluator.DuplicateCardCounted | Sources/Evaluators/BoardEvaluator/BoardEvaluator.swift:14 | a repeated card is reported as a pair, though the per-predicate evaluator rejects the board |
| BoardFeatureEvaluator.MiddleRunIsOpenEnded | Sources/Evaluators/BoardEvaluator/BoardEvaluator.swift:64-73 | five-six-seven is three to an open-ended straight |
| BoardFeatureEvaluator.AceEndedRunIsNotOpenEnded | Sources/Evaluators/BoardEvaluator/BoardEvaluator.swift:67-69 | queen-king-ace is not three to an open-ended straight |
| FlushEvaluator.HasFlush | Sources/Evaluators/HandEvaluators/FlushEvaluator.swift:24-31 | two hole cards, three to five community cards, and some suit occurring at least five times among them all |
| FlushEvaluator.HistogramValueAtLeast | Sources/Evaluators/HandEvaluators/FlushEvaluator.swift:30 | some histogram value reaches n exactly when some suit occurs at least n times |
| FlushEvaluator.FirstSuitAtLeast | Sources/Evaluators/HandEvaluators/FlushEvaluator.swift:47 | the suit found has a count of at least n; nothing is found only when no listed suit reaches n |
| FlushEvaluator.HoldsAceOf | Sources/Evaluators/HandEvaluators/FlushEvaluator.swift:48 | the test holds exactly when the ace of that suit is among the cards |
| FlushEvaluator.FlushSuitUnique | Sources/Evaluators/HandEvaluators/FlushEvaluator.swift:47 | among at most seven cards, only one suit can reach five |
| FlushEvaluator.NutFlushOrderIrrelevant | Sources/Evaluators/HandEvaluators/FlushEvaluator.swift:41-49 | for any iteration order visiting every key, the nut flush means a five-card suit whose ace is a hole card |
| FlushEvaluator.HasNutFlush | Sources/Evaluators/HandEvaluators/FlushEvaluator.swift:41-49 | valid counts, some suit occurring at least five times, and the ace of that suit among the hole cards |
| FlushEvaluator.NutFlushIsFlush | Sources/Evaluators/HandEvaluators/FlushEvaluator.swift:17-49 | a nut flush is a flush |
| FlushEvaluator.BoardFlushCounts | Sources/Evaluators/HandEvaluators/FlushEvaluator.swift:17-30 | five community cards of one suit are a flush whatever the hole cards |
| FlushEvaluator.BoardAceDoesNotCount | Sources/Evaluators/HandEvaluators/FlushEvaluator.swift:33-48 | without an ace among the hole cards there is no nut flush |
| FlushEvaluator.DuplicatesNotRejected | Sources/Evaluators/HandEvaluators/FlushEvaluator.swift:53-59 | six cards of one suit are a flush even when a card repeats |
| FlushEvaluator.InvalidCountsNoFlush | Sources/Evaluators/HandEvaluators/FlushEvaluator.swift:53-59 | wrong card counts give neither flush |
| StraightEvaluator.Sort | Sources/Evaluators/HandEvaluators/StraightEvaluator.swift:32 | the result is sorted and a permutation of the input |
| StraightEvaluator.SortedUnique | Sources/Evaluators/HandEvaluators/StraightEvaluator.swift:32 | two sorted permutations of the same values are equal, so the sort is determined |
| StraightEvaluator.RawValues | Sources/Evaluators/HandEvaluators/StraightEvaluator.swift:31-32 | one raw value per card, at the card's position |
| StraightEvaluator.Chunks | Sources/Evaluators/HandEvaluators/StraightEvaluator.swift:34 | every chunk is non-empty and at most n long |
| StraightEvaluator.ChunksFlatten | Sources/Evaluators/HandEvaluators/StraightEvaluator.swift:34 | concatenating the chunks gives back the input |
| StraightEvaluator.ChunksOfFiveAt | Sources/Evaluators/HandEvaluators/StraightEvaluator.swift:34 | there are ⌈len/5⌉ chunks, and chunk k is the slice starting at 5k |
| StraightEvaluator.IsSequential | Sources/Evaluators/HandEvaluators/StraightEvaluator.swift:56-64 | holds exactly for a non-empty sequence whose entries are the first plus their position |
| StraightEvaluator.AnySequential | Sources/Evaluators/HandEvaluators/StraightEvaluator.swift:34-39 | the loop succeeds exactly when some chunk is sequential |
| StraightEvaluator.HasStraight | Sources/Evaluators/HandEvaluators/StraightEvaluator.swift:25-42 | a straight is only reported for valid, duplicate-free hole and community cards |
| StraightEvaluator.HasStraightMeaning | Sources/Evaluators/HandEvaluators/StraightEvaluator.swift:25-42 | `hasStraight` holds exactly when the cards are valid and some block of up to five sorted raw values, starting at a multiple of five, climbs by one |
| StraightEvaluator.HasStraightIntended | Sources/Evaluators/HandEvaluators/StraightEvaluator.swift:18-24 | the documented meaning: valid cards whose ranks contain some straight window |
| StraightEvaluator.FullChunkIsStraight | Sources/Evaluators/HandEvaluators/StraightEvaluator.swift:34-38 | a full chunk that climbs by one is a window, other than the wheel, inside the ranks held |
| StraightEvaluator.FiveCardWindowFound | Sources/Evaluators/HandEvaluators/StraightEvaluator.swift:25-42 | with five cards, holding a window other than the wheel makes `hasStraight` true |
| StraightEvaluator.FiveCardStraightIsWindow | Sources/Evaluators/HandEvaluators/StraightEvaluator.swift:25-42 | with five cards, `hasStraight` implies the ranks hold a window other than the wheel |
| StraightEvaluator.FiveCardsAgree | Sources/Evaluators/HandEvaluators/StraightEvaluator.swift:18-42 | with five cards, the code agrees with the documented meaning except that it misses the wheel |
| StraightEvaluator.SixCardsAlwaysStraight | Sources/Evaluators/HandEvaluators/StraightEvaluator.swift:34-39 | with six valid cards the single trailing value forms a chunk that counts as sequential, so a straight is always reported |
| StraightEvaluator.SixCardFalsePositive | Sources/Evaluators/HandEvaluators/StraightEvaluator.swift:34-39 | two-four with six-eight-ten-queen is reported as a straight but holds no window |
| StraightEvaluator.SevenCardFalsePositive | Sources/Evaluators/HandEvaluators/StraightEvaluator.swift:34-39 | two-three with five-seven-nine-ten-jack sorts to 2 3 5 7 9 and 10 11; the two-value tail climbs, so a straight is reported though no window is held |
| StraightEvaluator.SevenCardValues | Sources/Evaluators/HandEvaluators/StraightEvaluator.swift:31-32 | two-five with six-seven-eight-nine-queen sorts to 2, 5, 6, 7, 8, 9, 12 |
| StraightEvaluator.SevenCardStraightMissed | Sources/Evaluators/HandEvaluators/StraightEvaluator.swift:34-39 | two-five with six-seven-eight-nine-queen holds five to nine, yet no chunk climbs |
| StraightEvaluator.WheelMissed | Sources/Evaluators/HandEvaluators/StraightEvaluator.swift:31-32 | ace-two with three-four-five holds the wheel, yet the ace sorts as 14 and nothing is reported |
| PairEvaluator.HighestRank | Sources/Evaluators/HandEvaluators/PairEvaluator.swift:36-39 | absent exactly for no cards; otherwise a rank held with none above it |
| PairEvaluator.HighestRankUnique | Sources/Evaluators/HandEvaluators/PairEvaluator.swift:36-39 | any held rank with none above it is the one returned |
| PairEvaluator.HasTopPair | Sources/Evaluators/HandEvaluators/PairEvaluator.swift:28-34 | holds exactly when some hole card matches a community card that no community card outranks |
| PairEvaluator.TopPairWith | Sources/Evaluators/HandEvaluators/PairEvaluator.swift:32-33 | given the board's highest rank, top pair means a hole card of that rank |
| PairEvaluator.UnimplementedNeverHold | Sources/Evaluators/HandEvaluators/PairEvaluator.swift:43-111 | the eight other pair evaluators are stubs that never hold |
| PairEvaluator.EmptyBoardNoTopPair | Sources/Evaluators/HandEvaluators/PairEvaluator.swift:32 | an empty board gives no top pair |
| PairEvaluator.OnlyRanksAndTopMatter | Sources/Evaluators/HandEvaluators/PairEvaluator.swift:28-34 | top pair depends only on the hole ranks and the board's highest rank |
| PairEvaluator.MatchingTopRankIsTopPair | Sources/Evaluators/HandEvaluators/PairEvaluator.swift:20-34 | a hole card matching an unbeaten board rank is top pair, however many times that rank appears |
| PairEvaluator.OverpairIsNotTopPair | Sources/Evaluators/HandEvaluators/PairEvaluator.swift:20-34 | hole cards that match no board card give no top pair |
| BoardFeatureVector.Reduce | Sources/Strategies/TightAggressive/BoardTypes/BoardFeatureVector.swift:89-112 | a feature survives exactly when it was present and its stronger sibling was not |
| BoardFeatureVector.ReduceExclusions | Sources/Strategies/TightAggressive/BoardTypes/BoardFeatureVector.swift:93-109 | after reduction no weaker feature sits beside its stronger sibling |
| BoardFeatureVector.ReduceIdempotent | Sources/Strategies/TightAggressive/BoardTypes/BoardFeatureVector.swift:89-112 | reducing twice gives the same set as reducing once |
| BoardFeatureVector.LabelMatchesNamed | Sources/Strategies/TightAggressive/BoardTypes/BoardFeatureVector.swift:27-73 | the cascade gives a label exactly for the feature sets that label names |
| BoardFeatureVector.SingletonsKeepTheirName | Sources/Strategies/TightAggressive/BoardTypes/BoardFeatureVector.swift:30-52 | a single recorded feature is labelled with its own name |
| BoardFeatureVector.SomeSetsUnlabelled | Sources/Strategies/TightAggressive/BoardTypes/BoardFeatureVector.swift:72 | the empty set and two pair with a flush draw get no label |
| BoardFeatureVector.VectorFeatures | Sources/Strategies/TightAggressive/BoardTypes/BoardFeatureVector.swift:75-85 | a feature is true in the vector exactly when its board evaluator predicate holds |
| BoardFeatureVector.VectorOfFeatures | Sources/Strategies/TightAggressive/BoardTypes/BoardFeatureVector.swift:77-84 | the dictionary literal records each feature's flag and nothing else |
| BoardFeatureVector.ReductionInert | Sources/Strategies/TightAggressive/BoardTypes/BoardFeatureVector.swift:89-112 | without a subsumed pair the reduction changes nothing |
| BoardFeatureVector.ReductionInertOnBoards | Sources/Strategies/TightAggressive/BoardTypes/BoardFeatureVector.swift:75-112 | on vectors built from boards the reduction changes nothing |
| BoardFeatureVector.OpenEndedLabelUnreachable | Sources/Strategies/TightAggressive/BoardTypes/BoardFeatureVector.swift:42-70 | no board is labelled three to an open-ended straight; a possible-straight-possible-flush label needs four to a straight |
| BoardFeatureVector.NoOpenEndedLabel | Sources/Strategies/TightAggressive/BoardTypes/BoardFeatureVector.swift:42-70 | without the open-ended feature, that label never appears |
| BoardContextBuilder.HasTJQK | Sources/Strategies/TightAggressive/BoardTypes/BoardContextBuilder.swift:108-114 | holds exactly when every rank strictly between nine and ace is present |
| BoardContextBuilder.TJQKKeptByMoreCards | Sources/Strategies/TightAggressive/BoardTypes/BoardContextBuilder.swift:108-114 | adding cards never loses ten-jack-queen-king |
| BoardContextBuilder.Build | Sources/Strategies/TightAggressive/BoardTypes/BoardContextBuilder.swift:33-45 | the feature set is the cascade's answer, absent exactly when no evaluator predicate holds; the ace-high flag is the supplied test's answer; the TJQK flag is `HasTJQK` of the cards |
| BoardContextBuilder.NoneIffNothingHolds | Sources/Strategies/TightAggressive/BoardTypes/BoardContextBuilder.swift:47-106 | the cascade gives nothing exactly when no predicate holds |
| BoardContextBuilder.StraightAndFlushFirst | Sources/Strategies/TightAggressive/BoardTypes/BoardContextBuilder.swift:69-71 | a straight draw and a flush draw without a pair is possible-straight-possible-flush |
| BoardContextBuilder.FourToStraightWithPair | Sources/Strategies/TightAggressive/BoardTypes/BoardContextBuilder.swift:69-83 | four to a straight with one pair is four-to-straight-one-pair |
| BoardContextBuilder.FlushDrawWithPair | Sources/Strategies/TightAggressive/BoardTypes/BoardContextBuilder.swift:73-87 | a flush draw with one pair and no four to a straight is possible-flush-one-pair |
| BoardContextBuilder.ThreeToStraightOnlyAlone | Sources/Strategies/TightAggressive/BoardTypes/BoardContextBuilder.swift:97-99 | three to a straight is the answer exactly when it is the only thing that holds |
| BoardContextBuilder.FeatureSetNoneIff | Sources/Strategies/TightAggressive/BoardTypes/BoardContextBuilder.swift:47-106 | on a board, the feature set is absent exactly when no predicate holds |
| BoardContextBuilder.InvalidBoardNoFeatureSet | Sources/Strategies/TightAggressive/BoardTypes/BoardContextBuilder.swift:47-106 | an invalid board has no feature set |
| BoardContextBuilder.ThreeToStraightLabelOnBoards | Sources/Strategies/TightAggressive/BoardTypes/BoardContextBuilder.swift:50-99 | a board's feature set is three to a straight exactly when that is the only predicate holding |
| BoardContextBuilder.KingDownToTenExample | Tests/StrategiesTests/BoardContextBuilderTests.swift:138-148 | king-queen-jack-ten-ten on two suits is four-to-straight-one-pair |
| BoardTypeFactory.CountTrue | Sources/Strategies/TightAggressive/BoardTypes/BoardTypeFactory.swift:49-53 | the count is at most the length, equals it exactly when all flags hold, and is zero exactly when none does |
| BoardTypeFactory.ExactlyOneOfThree | Sources/Strategies/TightAggressive/BoardTypes/BoardTypeFactory.swift:49-55 | a count of one means exactly one of the three flags holds |
| BoardTypeFactory.VeryScaryIsEarlyCascade | Sources/Strategies/TightAggressive/BoardTypes/BoardTypeFactory.swift:58-79 | very scary holds exactly when the context builder's cascade stops at one of its first six answers |
| BoardTypeFactory.ScaryIsLateCascade | Sources/Strategies/TightAggressive/BoardTypes/BoardTypeFactory.swift:26-56 | scary means the cascade stops at one pair, three to a straight or three to a flush, unless a pair comes with a bare three to a straight |
| BoardTypeFactory.StrongDrawsAreVeryScary | Sources/Strategies/TightAggressive/BoardTypes/BoardTypeFactory.swift:73-78 | two pair, four to a flush or four to a straight is always very scary |
| BoardTypeFactory.PairWithThreeToStraightNotScary | Sources/Strategies/TightAggressive/BoardTypes/BoardTypeFactory.swift:38-56 | a pair plus a bare three to a straight, with no flush draw, is not scary |
| BoardTypeFactory.NothingIsNotScary | Sources/Strategies/TightAggressive/BoardTypes/BoardTypeFactory.swift:26-36 | a board with no feature is not scary |
| BoardTypeFactory.InvalidBoardNotScary | Sources/Strategies/TightAggressive/BoardTypes/BoardTypeFactory.swift:26-36 | a board failing `check` is not scary |
| BoardTypeFactory.VeryScaryBoardsHaveEarlyFeatureSets | Sources/Strategies/TightAggressive/BoardTypes/BoardTypeFactory.swift:58-79 | on a board, very scary holds exactly when the builder's feature set is one of the six strong answers |
| BoardTypeFactory.AceQueenEightSixThreeNotScary | Tests/StrategiesTests/TightAggressive/BoardTypeFactoryTests.swift:18-30 | A♥ Q♦ 8♣ 6♠ 3♥ is not scary |
| BoardTypeFactory.AceAceKingScary | Tests/StrategiesTests/TightAggressive/BoardTypeFactoryTests.swift:32-40 | A♥ A♦ K♥ is scary |
| MinGoodHandType.RawValue | Sources/Strategies/TightAggressive/MinGoodHand.swift:12-22 | every raw value lies between 0 and 10 |
| MinGoodHandType.FromRawValue | Sources/Strategies/TightAggressive/MinGoodHand.swift:9-22 | the raw-value initialiser succeeds exactly for 0 through 10 and yields the case with that raw value |
| MinGoodHandType.RawValueRoundTrip | Sources/Strategies/TightAggressive/MinGoodHand.swift:9-22 | raw value and initialiser invert each other; distinct cases have distinct raw values |
| MinGoodHandType.LessIsStrictTotalOrder | Sources/Strategies/TightAggressive/MinGoodHand.swift:24-26 | `<` on raw values is irreflexive, asymmetric, transitive and total |
| MinGoodHandType.LessIsDeclarationOrder | Sources/Strategies/TightAggressive/MinGoodHand.swift:12-26 | one case is below another exactly when it is declared earlier |
| MinGoodHandType.Extremes | Sources/Strategies/TightAggressive/MinGoodHand.swift:12-22 | second pair is the least requirement and a full house the greatest |
| MinGoodHandType.MadeHandChain | Sources/Strategies/TightAggressive/MinGoodHand.swift:16-21 | trips < straight < nut straight < flush < second nut flush < nut flush |
| NonScaryBoard.MinGoodHandFor | Sources/Strategies/TightAggressive/BoardTypes/NonScary/NonScaryBoard.swift:12-21 | the flop asks for second pair, the turn for top pair and the river for an overpair; none of these reaches trips |
| NonScaryBoard.OnlyTheStreetMatters | Sources/Strategies/TightAggressive/BoardTypes/NonScary/NonScaryBoard.swift:12-21 | contexts on the same street get the same answer, whatever their features and flags |
| NonScaryBoard.RisesWithTheStreet | Sources/Strategies/TightAggressive/BoardTypes/NonScary/NonScaryBoard.swift:13-20 | a later street asks for a strictly stronger hand, and equal answers mean the same street |

## Left out

- The street evaluators (flop, turn, river) and their factory are outside the evaluation core.
- `StrategyFactory` and `TightAggressiveStrategy` are also outside the core.
- `MinGoodHandEvaluator` is left out. Its call `minGoodHand(for: street)` does not match the protocol's `minGoodHand(for: BoardContext)`.
- The very-scary and scary board types are left out. Their `minGoodHand` bodies are `fatalError()`.
- The top-level `NonScaryBoard.swift` stub (`fatalError()`) is left out. Only the table in `NonScary/NonScaryBoard.swift` is modelled.
- `isAceHigh` of the board evaluator does not exist in the source. `BoardContextBuilder.Build` takes it as a function parameter.
- The `hasRoyalFlush` exercised by the flush tests does not exist in `FlushEvaluator`, so it is not modelled.
- `bestFullHouseUsingOneHoleCard` does not exist in `MinGoodHand`, so it is not modelled.
- Swift's hashing, and the iteration order of `Set` and `Dictionary`, are not modelled. Sets and dictionaries are mathematical sets and maps. The one order-dependent read, in `hasNutFlush`, takes the order as a parameter.
- `StraightEvaluator.Sort` is a functional insertion sort standing for Swift's `sorted()`. Only its result (sorted, a permutation) is relied on, and that result is unique.
- `StraightEvaluator.HasStraight` states only that a reported straight has valid cards. Its full meaning is the separate lemma `HasStraightMeaning`, and its relation to the intended meaning is `FiveCardsAgree` plus the counterexample lemmas of the Findings table.
- Integer width plays no part: every count is at most seven and every raw value at most 14.

## Findings

| source | as written | input that shows it | evidently intended | confidence | as-written member | corrected member |
|---|---|---|---|---|---|---|
| Sources/Evaluators/HandEvaluators/StraightEvaluator.swift:34-39 | the last chunk holds only one or two values and is still tested; a one-value chunk always counts as sequential, so every valid six-card hand is a straight, and a two-value tail of adjacent values is a straight with seven cards | 2♥ 4♥ with 6♥ 8♥ T♥ Q♥; 2♥ 3♥ with 5♣ 7♦ 9♠ T♥ J♣ | a straight only when five of the ranks form a window | not executed | StraightEvaluator.SixCardFalsePositive, StraightEvaluator.SevenCardFalsePositive | StraightEvaluator.HasStraightIntended |
| Sources/Evaluators/HandEvaluators/StraightEvaluator.swift:34-39 | chunks start at fixed positions 0 and 5, so a run straddling a chunk boundary is missed | 2, 5 with 6, 7, 8, 9, Q (five to nine held) | a straight whenever the ranks contain a window | not executed | StraightEvaluator.SevenCardStraightMissed | StraightEvaluator.HasStraightIntended |
| Sources/Evaluators/HandEvaluators/StraightEvaluator.swift:31-32 | the ace is only ever 14 when sorted, so ace-to-five is never reported | A, 2 with 3, 4, 5 | the wheel counts, as in the straight-window table of Evaluators/Utils.swift | not executed | StraightEvaluator.WheelMissed | StraightEvaluator.HasStraightIntended |
