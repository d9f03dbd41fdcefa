/**
  The `getFeatures` board evaluator of Evaluators/BoardEvaluator/BoardEvaluator.swift.
  Unlike the per-predicate evaluator it only checks the card count (three to
  five), never duplicates, and it reports the features it finds as a set.
*/
module BoardFeatureEvaluator {
  import opened RankType
  import opened CardType
  import opened CardArrays
  import opened FeatureType
  import opened SuitType
  import StraightWindows
  import BoardEvaluators
  import SetFacts

  // Sorted distinct ranks.

  /** Raw values strictly increase along `s`. */
  predicate StrictlyIncreasing(s: seq<Rank>) {
    forall i, j :: 0 <= i < j < |s| ==> RawValue(s[i]) < RawValue(s[j])
  }

  /** The members of `rs` that are in `keep`, in the order of `rs`. */
  function KeepRanks(rs: seq<Rank>, keep: set<Rank>): (out: seq<Rank>)
    ensures forall r :: r in out <==> r in rs && r in keep
  {
    if |rs| == 0 then []
    else (if rs[0] in keep then [rs[0]] else []) + KeepRanks(rs[1..], keep)
  }

  lemma {:induction false} KeepRanksIncreasing(rs: seq<Rank>, keep: set<Rank>)
    requires StrictlyIncreasing(rs)
    ensures StrictlyIncreasing(KeepRanks(rs, keep))
  {
    if |rs| > 0 {
      var tail := KeepRanks(rs[1..], keep);
      assert StrictlyIncreasing(rs[1..]);
      KeepRanksIncreasing(rs[1..], keep);
      forall j | 0 <= j < |tail|
        ensures RawValue(rs[0]) < RawValue(tail[j])
      {
        assert tail[j] in rs[1..];
      }
    }
  }

  /**
    `sortedUniqueRanks`: the distinct ranks of `cards` in increasing order.
    The ranks are put into a set and sorted; filtering the ranks in their
    declared order gives the same sequence.
  */
  function SortedUniqueRanks(cards: seq<Card>): (s: seq<Rank>)
    ensures forall r :: r in s <==> r in RankSet(cards)
    ensures StrictlyIncreasing(s)
  {
    RawValuesContiguous();
    KeepRanksIncreasing(AllRanks, RankSet(cards));
    KeepRanks(AllRanks, RankSet(cards))
  }

  /** A strictly increasing sequence is determined by its set of members. */
  lemma {:induction false} IncreasingUnique(s: seq<Rank>, t: seq<Rank>)
    requires StrictlyIncreasing(s) && StrictlyIncreasing(t)
    requires forall r :: r in s <==> r in t
    ensures s == t
  {
    assert |s| > 0 ==> s[0] in t;
    assert |t| > 0 ==> t[0] in s;
    if |s| > 0 {
      SameHead(s, t);
      SameTail(s, t);
      IncreasingUnique(s[1..], t[1..]);
      assert s == [s[0]] + s[1..];
      assert t == [t[0]] + t[1..];
    }
  }

  lemma SameHead(s: seq<Rank>, t: seq<Rank>)
    requires StrictlyIncreasing(s) && StrictlyIncreasing(t)
    requires forall r :: r in s <==> r in t
    requires |s| > 0 && |t| > 0
    ensures s[0] == t[0]
  {
    assert t[0] in s;
    assert s[0] in t;
    var i :| 0 <= i < |s| && s[i] == t[0];
    var j :| 0 <= j < |t| && t[j] == s[0];
    assert RawValue(s[0]) <= RawValue(s[i]);
    assert RawValue(t[0]) <= RawValue(t[j]);
    RawValueRoundTrip(s[0], t[0]);
  }

  lemma SameTail(s: seq<Rank>, t: seq<Rank>)
    requires StrictlyIncreasing(s) && StrictlyIncreasing(t)
    requires forall r :: r in s <==> r in t
    requires |s| > 0 && |t| > 0 && s[0] == t[0]
    ensures StrictlyIncreasing(s[1..]) && StrictlyIncreasing(t[1..])
    ensures forall r :: r in s[1..] <==> r in t[1..]
  {
    forall r
      ensures r in s[1..] <==> r in t[1..]
    {
      if r in s[1..] {
        var k :| 1 <= k < |s| && s[k] == r;
        assert r in t && r != t[0];
      }
      if r in t[1..] {
        var k :| 1 <= k < |t| && t[k] == r;
        assert r in s && r != s[0];
      }
    }
  }

  /** The distinct ranks, sorted, are exactly as many as the board's distinct ranks. */
  lemma SortedUniqueRanksLength(cards: seq<Card>)
    ensures |SortedUniqueRanks(cards)| == |RankSet(cards)|
  {
    var s := SortedUniqueRanks(cards);
    DistinctLength(s);
    assert (set r | r in s) == RankSet(cards);
  }

  lemma {:induction false} DistinctLength(s: seq<Rank>)
    requires StrictlyIncreasing(s)
    ensures |set r | r in s| == |s|
  {
    if |s| > 0 {
      assert StrictlyIncreasing(s[1..]);
      DistinctLength(s[1..]);
      assert s[0] !in s[1..];
      assert (set r | r in s) == {s[0]} + (set r | r in s[1..]);
    }
  }

  lemma IncreasingIndexOrder(s: seq<Rank>, i: int, j: int)
    requires StrictlyIncreasing(s)
    requires 0 <= i < |s| && 0 <= j < |s|
    ensures i < j <==> RawValue(s[i]) < RawValue(s[j])
    ensures i == j <==> RawValue(s[i]) == RawValue(s[j])
  {
  }

  // Three to an open-ended straight.

  /**
    The nested `isSequential`: every raw value is one more than the one
    before it. The source's loop range `0..<count - 1` traps on an empty
    array, hence the precondition.
  */
  function IsSequentialRanks(rs: seq<Rank>): bool
    requires |rs| >= 1
  {
    if |rs| == 1 then true
    else RawValue(rs[0]) == RawValue(rs[1]) - 1 && IsSequentialRanks(rs[1..])
  }

  /** Sequential ranks climb by exactly one from the first. */
  lemma {:induction false} IsSequentialRanksIff(rs: seq<Rank>)
    requires |rs| >= 1
    ensures IsSequentialRanks(rs) <==> forall i :: 0 <= i < |rs| ==> RawValue(rs[i]) == RawValue(rs[0]) + i
  {
    if |rs| > 1 {
      IsSequentialRanksIff(rs[1..]);
      if forall i :: 0 <= i < |rs| ==> RawValue(rs[i]) == RawValue(rs[0]) + i {
        assert RawValue(rs[1]) == RawValue(rs[0]) + 1;
        forall i | 0 <= i < |rs[1..]|
          ensures RawValue(rs[1..][i]) == RawValue(rs[1..][0]) + i
        {
          assert rs[1..][i] == rs[i + 1];
        }
      }
    }
  }

  /** The scan of `hasThreeToOpenEndedStraight` from slice `i` onwards. */
  function OpenEndedFrom(s: seq<Rank>, i: nat): bool
    decreases |s| - i
  {
    if i + 2 >= |s| then false
    else
      var isLowOpenEnded := !Less(s[i], Two);
      var isHighOpenEnded := !Less(King, s[i + 2]);
      (IsSequentialRanks(s[i..i + 3]) && isLowOpenEnded && isHighOpenEnded) || OpenEndedFrom(s, i + 1)
  }

  /** `a`, `b`, `c` have consecutive raw values and `c` is not the ace. */
  predicate ConsecutiveBelowAce(a: Rank, b: Rank, c: Rank) {
    RawValue(b) == RawValue(a) + 1 && RawValue(c) == RawValue(a) + 2 && c != Ace
  }

  /** Three adjacent entries at `j` climb by one and do not end at the ace. */
  ghost predicate OpenEndedAt(s: seq<Rank>, j: int)
    requires 0 <= j && j + 2 < |s|
  {
    ConsecutiveBelowAce(s[j], s[j + 1], s[j + 2])
  }

  lemma OpenEndedSlice(s: seq<Rank>, i: nat)
    requires i + 2 < |s|
    ensures (IsSequentialRanks(s[i..i + 3]) && !Less(s[i], Two) && !Less(King, s[i + 2])) <==> OpenEndedAt(s, i)
  {
    IsSequentialRanksIff(s[i..i + 3]);
    assert s[i..i + 3][1] == s[i + 1] && s[i..i + 3][2] == s[i + 2];
    assert RawValue(s[i + 2]) == 14 <==> s[i + 2] == Ace;
  }

  lemma {:induction false} OpenEndedFromIff(s: seq<Rank>, i: nat)
    ensures OpenEndedFrom(s, i) <==> exists j :: i <= j && j + 2 < |s| && OpenEndedAt(s, j)
    decreases |s| - i
  {
    if i + 2 < |s| {
      OpenEndedSlice(s, i);
      OpenEndedFromIff(s, i + 1);
      if exists j :: i <= j && j + 2 < |s| && OpenEndedAt(s, j) {
        var j :| i <= j && j + 2 < |s| && OpenEndedAt(s, j);
        assert j == i || (i + 1 <= j && j + 2 < |s| && OpenEndedAt(s, j));
      }
    }
  }

  /** Three ranks of `ranks` have consecutive raw values, and the highest is not the ace. */
  ghost predicate ThreeConsecutiveBelowAce(ranks: set<Rank>) {
    exists a, b, c :: a in ranks && b in ranks && c in ranks && ConsecutiveBelowAce(a, b, c)
  }

  /** In a strictly increasing sequence, three consecutive values sit at adjacent positions. */
  lemma ConsecutiveGivesAdjacent(s: seq<Rank>, u: set<Rank>) returns (j: int)
    requires StrictlyIncreasing(s)
    requires forall r :: r in u <==> r in s
    requires ThreeConsecutiveBelowAce(u)
    ensures 0 <= j && j + 2 < |s| && OpenEndedAt(s, j)
  {
    // Picking the witnesses one at a time keeps the solver's search small.
    var a :| a in u && exists b, c :: b in u && c in u && ConsecutiveBelowAce(a, b, c);
    var b :| b in u && exists c :: c in u && ConsecutiveBelowAce(a, b, c);
    var c :| c in u && ConsecutiveBelowAce(a, b, c);
    j := ConsecutiveAreAdjacent(s, a, b, c);
  }

  lemma AdjacentAreConsecutive(s: seq<Rank>, u: set<Rank>, j: int)
    requires forall r :: r in u <==> r in s
    requires 0 <= j && j + 2 < |s| && OpenEndedAt(s, j)
    ensures ThreeConsecutiveBelowAce(u)
  {
    assert s[j] in u && s[j + 1] in u && s[j + 2] in u;
  }

  lemma ConsecutiveAreAdjacent(s: seq<Rank>, a: Rank, b: Rank, c: Rank) returns (i: int)
    requires StrictlyIncreasing(s)
    requires a in s && b in s && c in s
    requires ConsecutiveBelowAce(a, b, c)
    ensures 0 <= i && i + 2 < |s| && OpenEndedAt(s, i)
  {
    i :| 0 <= i < |s| && s[i] == a;
    var j :| 0 <= j < |s| && s[j] == b;
    var k :| 0 <= k < |s| && s[k] == c;
    IncreasingIndexOrder(s, i, j);
    IncreasingIndexOrder(s, j, k);
    assert i + 1 <= j < k;
    IncreasingIndexOrder(s, i, i + 1);
    IncreasingIndexOrder(s, i + 1, j);
    assert i + 1 == j;
    IncreasingIndexOrder(s, j, j + 1);
    IncreasingIndexOrder(s, j + 1, k);
    assert j + 1 == k;
  }

  /** The scan over the sorted distinct ranks finds exactly the consecutive triples below the ace. */
  lemma OpenEndedMeaning(cards: seq<Card>)
    ensures (|SortedUniqueRanks(cards)| >= 3 && OpenEndedFrom(SortedUniqueRanks(cards), 0))
      <==> ThreeConsecutiveBelowAce(RankSet(cards))
  {
    var s := SortedUniqueRanks(cards);
    var u := RankSet(cards);
    OpenEndedFromIff(s, 0);
    if OpenEndedFrom(s, 0) {
      var j :| 0 <= j && j + 2 < |s| && OpenEndedAt(s, j);
      AdjacentAreConsecutive(s, u, j);
    }
    if ThreeConsecutiveBelowAce(u) {
      var j := ConsecutiveGivesAdjacent(s, u);
    }
  }

  /**
    `hasThreeToOpenEndedStraight`: some three adjacent sorted distinct ranks are
    consecutive and end below the ace. Its low-end test (`>= .two`) always holds.
  */
  function HasThreeToOpenEndedStraight(cards: seq<Card>): (b: bool)
    ensures b <==> ThreeConsecutiveBelowAce(RankSet(cards))
  {
    OpenEndedMeaning(cards);
    var sortedUniqueRanks := SortedUniqueRanks(cards);
    if |sortedUniqueRanks| < 3 then false
    else OpenEndedFrom(sortedUniqueRanks, 0)
  }

  // Four to a straight.

  /** The scan of `hasFourToStraight`: some window differs from `u` in exactly one rank. */
  function OneAwayFromSome(u: set<Rank>, windows: seq<set<Rank>>): bool {
    if |windows| == 0 then false
    else |(windows[0] - u) + (u - windows[0])| == 1 || OneAwayFromSome(u, windows[1..])
  }

  lemma {:induction false} OneAwayFromSomeIff(u: set<Rank>, windows: seq<set<Rank>>)
    ensures OneAwayFromSome(u, windows) <==>
      exists i :: 0 <= i < |windows| && |(windows[i] - u) + (u - windows[i])| == 1
  {
    if |windows| > 0 {
      OneAwayFromSomeIff(u, windows[1..]);
      if exists i :: 0 <= i < |windows| && |(windows[i] - u) + (u - windows[i])| == 1 {
        var i :| 0 <= i < |windows| && |(windows[i] - u) + (u - windows[i])| == 1;
        assert i == 0 || windows[1..][i - 1] == windows[i];
      }
      forall i | 0 <= i < |windows| - 1
        ensures windows[1..][i] == windows[i + 1]
      {
      }
    }
  }

  /**
    A five-rank window and `u` differ in exactly one rank when `u` is the
    window less one rank, or the window plus one rank.
  */
  lemma SymmetricDifferenceOne(w: set<Rank>, u: set<Rank>)
    requires |w| == 5
    ensures |(w - u) + (u - w)| == 1 <==> (|u| == 4 && u <= w) || (|u| == 6 && w <= u)
  {
    assert (w - u) * (u - w) == {};
    assert |(w - u) + (u - w)| == |w - u| + |u - w|;
    assert |w - u| + |w * u| == |w| by {
      assert w == (w - u) + (w * u);
      assert (w - u) * (w * u) == {};
    }
    assert |u - w| + |w * u| == |u| by {
      assert u == (u - w) + (w * u);
      assert (u - w) * (w * u) == {};
    }
    if u <= w {
      assert u - w == {};
    }
    if w <= u {
      assert w - u == {};
    }
    if |u - w| == 0 {
      assert u <= w by {
        forall r | r in u ensures r in w {
          assert r !in u - w;
        }
      }
    }
    if |w - u| == 0 {
      assert w <= u by {
        forall r | r in w ensures r in u {
          assert r !in w - u;
        }
      }
    }
  }

  /** The board's distinct ranks are four ranks of one window, or six ranks holding a whole window. */
  ghost predicate FourOfAWindow(u: set<Rank>) {
    (|u| == 4 && exists i :: 0 <= i < |StraightWindows.PossibleStraights| && u <= StraightWindows.PossibleStraights[i])
    || (|u| == 6 && exists i :: 0 <= i < |StraightWindows.PossibleStraights| && StraightWindows.PossibleStraights[i] <= u)
  }

  lemma FourToStraightMeaning(u: set<Rank>)
    ensures (|u| >= 3 && OneAwayFromSome(u, StraightWindows.PossibleStraights)) <==> FourOfAWindow(u)
  {
    StraightWindows.WindowCardinality();
    OneAwayFromSomeIff(u, StraightWindows.PossibleStraights);
    forall i | 0 <= i < |StraightWindows.PossibleStraights|
      ensures |(StraightWindows.PossibleStraights[i] - u) + (u - StraightWindows.PossibleStraights[i])| == 1
        <==> (|u| == 4 && u <= StraightWindows.PossibleStraights[i]) || (|u| == 6 && StraightWindows.PossibleStraights[i] <= u)
    {
      SymmetricDifferenceOne(StraightWindows.PossibleStraights[i], u);
    }
  }

  /**
    `hasFourToStraight`: at least three distinct ranks, and some window whose
    symmetric difference with them has exactly one rank.
  */
  function HasFourToStraight(cards: seq<Card>): (b: bool)
    ensures b <==> FourOfAWindow(RankSet(cards))
  {
    var sortedUniqueRanks := set r | r in SortedUniqueRanks(cards);
    assert sortedUniqueRanks == RankSet(cards);
    FourToStraightMeaning(sortedUniqueRanks);
    |sortedUniqueRanks| >= 3 && OneAwayFromSome(sortedUniqueRanks, StraightWindows.PossibleStraights)
  }

  // The feature set.

  /**
    The set built by the six `if … { features.insert(…) }` steps, given
    the outcome of each test.
  */
  function InsertAll(openEnded: bool, fourStraight: bool, threeFlush: bool, fourFlush: bool, onePair: bool, twoPair: bool)
    : (features: set<BoardFeature>)
    ensures features <= Reportable
    ensures ThreeToOpenEndedStraight in features <==> openEnded
    ensures FourToStraight in features <==> fourStraight
    ensures ThreeToFlush in features <==> threeFlush
    ensures FourToFlush in features <==> fourFlush
    ensures OnePair in features <==> onePair
    ensures TwoPair in features <==> twoPair
  {
    (if openEnded then {ThreeToOpenEndedStraight} else {})
    + (if fourStraight then {FourToStraight} else {})
    + (if threeFlush then {ThreeToFlush} else {})
    + (if fourFlush then {FourToFlush} else {})
    + (if onePair then {OnePair} else {})
    + (if twoPair then {TwoPair} else {})
  }

  /** The six features `getFeatures` can report. */
  const Reportable: set<BoardFeature> :=
    {ThreeToOpenEndedStraight, FourToStraight, ThreeToFlush, FourToFlush, OnePair, TwoPair}

  /**
    `getFeatures`: the empty set unless there are three to five cards;
    otherwise each feature whose test holds. Duplicated cards are not rejected.
  */
  function GetFeatures(cards: seq<Card>): (features: set<BoardFeature>)
    ensures !(3 <= |cards| <= 5) ==> features == {}
    ensures features <= Reportable
  {
    if !(3 <= |cards| <= 5) then {}
    else
      InsertAll(
        HasThreeToOpenEndedStraight(cards),
        HasFourToStraight(cards),
        BoardEvaluators.IsNToFlush(3, cards),
        BoardEvaluators.IsNToFlush(4, cards),
        BoardEvaluators.NPairs(cards) == 1,
        BoardEvaluators.NPairs(cards) == 2)
  }

  // Properties.

  /** What each reported straight feature means, in terms of the board's distinct ranks. */
  lemma StraightFeaturesMeaning(cards: seq<Card>)
    ensures ThreeToOpenEndedStraight in GetFeatures(cards) <==> 3 <= |cards| <= 5 && ThreeConsecutiveBelowAce(RankSet(cards))
    ensures FourToStraight in GetFeatures(cards) <==> 3 <= |cards| <= 5 && FourOfAWindow(RankSet(cards))
  {
    var b1 := HasThreeToOpenEndedStraight(cards);
    var b2 := HasFourToStraight(cards);
  }

  /** What each reported flush feature means: a suit occurring exactly three, or exactly four, times. */
  lemma FlushFeaturesMeaning(cards: seq<Card>)
    ensures ThreeToFlush in GetFeatures(cards) <==> 3 <= |cards| <= 5 && BoardEvaluators.SomeSuitExactly(cards, 3)
    ensures FourToFlush in GetFeatures(cards) <==> 3 <= |cards| <= 5 && BoardEvaluators.SomeSuitExactly(cards, 4)
  {
    var b1 := BoardEvaluators.IsNToFlush(3, cards);
    var b2 := BoardEvaluators.IsNToFlush(4, cards);
  }

  /** What each reported pair feature means: one, or two, ranks occurring exactly twice. */
  lemma PairFeaturesMeaning(cards: seq<Card>)
    ensures OnePair in GetFeatures(cards) <==> 3 <= |cards| <= 5 && |BoardEvaluators.RanksOccurringTwice(cards)| == 1
    ensures TwoPair in GetFeatures(cards) <==> 3 <= |cards| <= 5 && |BoardEvaluators.RanksOccurringTwice(cards)| == 2
  {
    var k := BoardEvaluators.NPairs(cards);
  }


  /** With five cards or fewer there are at most five distinct ranks, so four-to-straight means exactly four. */
  lemma FourToStraightNeedsFourRanks(cards: seq<Card>)
    ensures FourToStraight in GetFeatures(cards) <==> (3 <= |cards| <= 5 && |RankSet(cards)| == 4
      && exists i :: 0 <= i < |StraightWindows.PossibleStraights| && RankSet(cards) <= StraightWindows.PossibleStraights[i])
  {
    StraightFeaturesMeaning(cards);
    RankSetFacts(cards);
  }

  /** A board of five distinct ranks never reports four-to-straight. */
  lemma FiveRanksNoFourToStraight(cards: seq<Card>)
    requires |RankSet(cards)| == 5
    ensures FourToStraight !in GetFeatures(cards)
  {
    FourToStraightNeedsFourRanks(cards);
  }

  /** Fewer than three distinct ranks give neither straight feature. */
  lemma FewRanksNoStraightFeature(cards: seq<Card>)
    requires |RankSet(cards)| < 3
    ensures ThreeToOpenEndedStraight !in GetFeatures(cards) && FourToStraight !in GetFeatures(cards)
  {
    StraightFeaturesMeaning(cards);
    if ThreeConsecutiveBelowAce(RankSet(cards)) {
      ConsecutiveNeedsThree(RankSet(cards));
    }
  }

  lemma ConsecutiveNeedsThree(u: set<Rank>)
    requires ThreeConsecutiveBelowAce(u)
    ensures |u| >= 3
  {
    var a :| a in u && exists b, c :: b in u && c in u && ConsecutiveBelowAce(a, b, c);
    var b :| b in u && exists c :: c in u && ConsecutiveBelowAce(a, b, c);
    var c :| c in u && ConsecutiveBelowAce(a, b, c);
    assert |{a, b, c}| == 3;
    SetFacts.SubsetCardinality({a, b, c}, u);
  }

  /** One pair and two pair are never reported together. */
  lemma PairFeaturesExclusive(cards: seq<Card>)
    ensures !(OnePair in GetFeatures(cards) && TwoPair in GetFeatures(cards))
  {
    PairFeaturesMeaning(cards);
  }

  /** Three-to-flush and four-to-flush are never reported together: five cards cannot hold both. */
  lemma FlushFeaturesExclusive(cards: seq<Card>)
    ensures !(ThreeToFlush in GetFeatures(cards) && FourToFlush in GetFeatures(cards))
  {
    var features := GetFeatures(cards);
    FlushFeaturesMeaning(cards);
    if ThreeToFlush in features && FourToFlush in features {
      var s3 :| SuitCount(cards, s3) == 3;
      var s4 :| SuitCount(cards, s4) == 4;
      TwoSuitsBound(cards, s3, s4);
    }
  }

  // Examples, stated for any suits so that they cover every such board.

  /** A duplicated card is counted: c c d with two ranks reports one pair, though the per-predicate `check` rejects it. */
  lemma DuplicateCardCounted(cards: seq<Card>)
    requires |cards| == 3 && cards[0] == cards[1] && cards[2].rank != cards[0].rank
    ensures OnePair in GetFeatures(cards) && !BoardEvaluators.Check(cards)
  {
    PairFeaturesMeaning(cards);
    PairThenOtherRank(cards);
    NoDuplicatesIffDistinct(cards);
  }

  /** Two cards of one rank and a third of another: that rank alone occurs twice. */
  lemma PairThenOtherRank(cards: seq<Card>)
    requires |cards| == 3 && cards[0].rank == cards[1].rank && cards[2].rank != cards[0].rank
    ensures BoardEvaluators.RanksOccurringTwice(cards) == {cards[0].rank}
  {
    ProjectionsAt(cards);
    assert Ranks(cards) == [cards[0].rank, cards[0].rank, cards[2].rank];
    RawValuesContiguous();
  }

  /** Five, six, seven in any suits is three to an open-ended straight. */
  lemma MiddleRunIsOpenEnded(cards: seq<Card>)
    requires |cards| == 3 && cards[0].rank == Five && cards[1].rank == Six && cards[2].rank == Seven
    ensures ThreeToOpenEndedStraight in GetFeatures(cards)
  {
    StraightFeaturesMeaning(cards);
    RankSetFacts(cards);
    assert cards[0].rank in RankSet(cards) && cards[1].rank in RankSet(cards) && cards[2].rank in RankSet(cards);
    assert ConsecutiveBelowAce(Five, Six, Seven);
  }

  /** Queen, king, ace in any suits is not: the run ends at the ace. */
  lemma AceEndedRunIsNotOpenEnded(cards: seq<Card>)
    requires |cards| == 3 && cards[0].rank == Queen && cards[1].rank == King && cards[2].rank == Ace
    ensures ThreeToOpenEndedStraight !in GetFeatures(cards)
  {
    QueenKingAceRanks(cards);
    NoRunBelowAceAmong(RankSet(cards));
    StraightFeaturesMeaning(cards);
  }

  lemma QueenKingAceRanks(cards: seq<Card>)
    requires |cards| == 3 && cards[0].rank == Queen && cards[1].rank == King && cards[2].rank == Ace
    ensures RankSet(cards) <= {Queen, King, Ace}
  {
    RankSetFacts(cards);
    forall r | r in RankSet(cards)
      ensures r in {Queen, King, Ace}
    {
      var i :| 0 <= i < |cards| && cards[i].rank == r;
    }
  }

  lemma NoRunBelowAceAmong(u: set<Rank>)
    requires u <= {Queen, King, Ace}
    ensures !ThreeConsecutiveBelowAce(u)
  {
    forall a, b, c | a in u && b in u && c in u
      ensures !ConsecutiveBelowAce(a, b, c)
    {
    }
  }
}
