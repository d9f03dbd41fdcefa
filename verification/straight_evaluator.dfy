/**
  The straight hand evaluator of Evaluators/HandEvaluators/StraightEvaluator.swift.
  The raw rank values of the hole and community cards are sorted (without
  removing repeats, and with the ace only high), cut into consecutive chunks
  of five, and the hand is a straight when some chunk climbs by one.
*/
module StraightEvaluator {
  import opened RankType
  import opened CardType
  import opened CardArrays
  import StraightWindows
  import BoardEvaluators
  import SetFacts

  // Sorting.

  predicate Sorted(xs: seq<int>) {
    forall i, j :: 0 <= i < j < |xs| ==> xs[i] <= xs[j]
  }

  /** `x` placed into `ys` before the first element not smaller than it. */
  function Insert(x: int, ys: seq<int>): seq<int> {
    if |ys| == 0 then [x]
    else if x <= ys[0] then [x] + ys
    else [ys[0]] + Insert(x, ys[1..])
  }

  lemma {:induction false} InsertMultiset(x: int, ys: seq<int>)
    ensures multiset(Insert(x, ys)) == multiset(ys) + multiset{x}
  {
    if |ys| > 0 && x > ys[0] {
      InsertMultiset(x, ys[1..]);
      assert ys == [ys[0]] + ys[1..];
    }
  }

  lemma {:induction false} InsertSorted(x: int, ys: seq<int>)
    requires Sorted(ys)
    ensures Sorted(Insert(x, ys))
  {
    if |ys| > 0 && x > ys[0] {
      var rest := Insert(x, ys[1..]);
      InsertSorted(x, ys[1..]);
      InsertMultiset(x, ys[1..]);
      forall j | 0 <= j < |rest|
        ensures ys[0] <= rest[j]
      {
        assert rest[j] in multiset(rest);
        assert rest[j] == x || rest[j] in ys[1..];
      }
      SortedCons(ys[0], rest);
    }
  }

  lemma SortedCons(x: int, rest: seq<int>)
    requires Sorted(rest)
    requires forall j :: 0 <= j < |rest| ==> x <= rest[j]
    ensures Sorted([x] + rest)
  {
    var zs := [x] + rest;
    forall i, j | 0 <= i < j < |zs|
      ensures zs[i] <= zs[j]
    {
      if i > 0 {
        assert zs[i] == rest[i - 1] && zs[j] == rest[j - 1];
      }
    }
  }

  lemma InsertFacts(x: int, ys: seq<int>)
    requires Sorted(ys)
    ensures Sorted(Insert(x, ys))
    ensures multiset(Insert(x, ys)) == multiset(ys) + multiset{x}
  {
    InsertSorted(x, ys);
    InsertMultiset(x, ys);
  }

  /** A sequence whose every value is at least the one before it is sorted. */
  lemma {:induction false} SortedFromAdjacent(xs: seq<int>)
    requires forall i :: 0 < i < |xs| ==> xs[i - 1] <= xs[i]
    ensures Sorted(xs)
  {
    if |xs| > 1 {
      var rest := xs[1..];
      assert forall i :: 0 < i < |rest| ==> rest[i - 1] == xs[i] && rest[i] == xs[i + 1];
      SortedFromAdjacent(rest);
      assert forall j :: 0 <= j < |rest| ==> rest[0] <= rest[j];
      SortedCons(xs[0], rest);
      assert xs == [xs[0]] + rest;
    }
  }

  /** `sorted()`: an ascending arrangement of the same values. */
  function Sort(xs: seq<int>): (ys: seq<int>)
    ensures Sorted(ys)
    ensures multiset(ys) == multiset(xs)
  {
    if |xs| == 0 then []
    else
      assert xs == [xs[0]] + xs[1..];
      InsertFacts(xs[0], Sort(xs[1..]));
      Insert(xs[0], Sort(xs[1..]))
  }

  /** Two ascending arrangements of the same values are the same sequence, so `Sort` is `sorted()`. */
  lemma {:induction false} SortedUnique(a: seq<int>, b: seq<int>)
    requires Sorted(a) && Sorted(b)
    requires multiset(a) == multiset(b)
    ensures a == b
  {
    if |a| > 0 {
      SameLeast(a, b);
      SortedTail(a);
      SortedTail(b);
      SortedUnique(a[1..], b[1..]);
      SameHeadAndTail(a, b);
    } else {
      assert |b| == |multiset(b)| == 0;
    }
  }

  /** Two non-empty ascending arrangements of the same values start with the same value. */
  lemma SameLeast(a: seq<int>, b: seq<int>)
    requires Sorted(a) && Sorted(b)
    requires multiset(a) == multiset(b)
    requires |a| > 0
    ensures |b| == |a| && a[0] == b[0]
  {
    assert |b| == |multiset(b)| == |multiset(a)| == |a|;
    assert a[0] in multiset(b) && b[0] in multiset(a);
    var i :| 0 <= i < |b| && b[i] == a[0];
    var j :| 0 <= j < |a| && a[j] == b[0];
    assert b[0] <= b[i] && a[0] <= a[j];
  }

  lemma SameHeadAndTail(a: seq<int>, b: seq<int>)
    requires |a| > 0 && |b| > 0 && a[0] == b[0] && a[1..] == b[1..]
    ensures a == b
  {
    assert a == [a[0]] + a[1..];
    assert b == [b[0]] + b[1..];
  }

  /** The tail of an ascending sequence is ascending and holds the values less the head. */
  lemma SortedTail(a: seq<int>)
    requires Sorted(a) && |a| > 0
    ensures Sorted(a[1..])
    ensures multiset(a[1..]) == multiset(a) - multiset{a[0]}
  {
    assert a == [a[0]] + a[1..];
  }

  // Chunks.

  /**
    `chunks(ofCount: n)`: consecutive slices of `n` values, the last one
    possibly shorter.
  */
  function Chunks(xs: seq<int>, n: nat): (cs: seq<seq<int>>)
    requires n > 0
    ensures forall k :: 0 <= k < |cs| ==> 0 < |cs[k]| <= n
    decreases |xs|
  {
    if |xs| == 0 then []
    else if |xs| <= n then [xs]
    else [xs[..n]] + Chunks(xs[n..], n)
  }

  function Flatten(cs: seq<seq<int>>): seq<int> {
    if |cs| == 0 then [] else cs[0] + Flatten(cs[1..])
  }

  /** Putting the chunks back together gives the original sequence. */
  lemma {:induction false} ChunksFlatten(xs: seq<int>, n: nat)
    requires n > 0
    ensures Flatten(Chunks(xs, n)) == xs
    decreases |xs|
  {
    if |xs| > n {
      ChunksFlatten(xs[n..], n);
      assert Chunks(xs, n)[1..] == Chunks(xs[n..], n);
      assert xs == xs[..n] + xs[n..];
    }
  }

  /** Chunk `k` of five is the slice from `5k` to `5k + 5`, cut short at the end. */
  lemma {:induction false} ChunksOfFiveAt(xs: seq<int>)
    ensures |Chunks(xs, 5)| == (|xs| + 4) / 5
    ensures forall k :: 0 <= k < |Chunks(xs, 5)| ==>
      Chunks(xs, 5)[k] == xs[5 * k .. if 5 * k + 5 <= |xs| then 5 * k + 5 else |xs|]
    decreases |xs|
  {
    if |xs| > 5 {
      var cs := Chunks(xs, 5);
      var rest := Chunks(xs[5..], 5);
      ChunksOfFiveAt(xs[5..]);
      forall k | 0 < k < |cs|
        ensures cs[k] == xs[5 * k .. if 5 * k + 5 <= |xs| then 5 * k + 5 else |xs|]
      {
        assert cs[k] == rest[k - 1];
      }
    }
  }

  // Sequential chunks.

  /** Each value is one more than the one before it. */
  function Climbs(s: seq<int>): bool {
    if |s| <= 1 then true else s[0] == s[1] - 1 && Climbs(s[1..])
  }

  lemma {:induction false} ClimbsIff(s: seq<int>)
    ensures Climbs(s) <==> forall i :: 0 <= i < |s| ==> s[i] == s[0] + i
  {
    if |s| > 1 {
      ClimbsIff(s[1..]);
      if forall i :: 0 <= i < |s| ==> s[i] == s[0] + i {
        forall i | 0 <= i < |s[1..]|
          ensures s[1..][i] == s[1..][0] + i
        {
          assert s[1..][i] == s[i + 1];
        }
      }
    }
  }

  /** `isSequential`: a non-empty sequence climbing by one; the empty sequence is not sequential. */
  function IsSequential(s: seq<int>): (b: bool)
    ensures b <==> |s| > 0 && forall i :: 0 <= i < |s| ==> s[i] == s[0] + i
  {
    ClimbsIff(s);
    if |s| == 0 then false else Climbs(s)
  }

  function AnySequential(cs: seq<seq<int>>): (b: bool)
    ensures b <==> exists k :: 0 <= k < |cs| && IsSequential(cs[k])
  {
    if |cs| == 0 then false
    else
      assert forall k :: 0 < k < |cs| ==> cs[1..][k - 1] == cs[k];
      IsSequential(cs[0]) || AnySequential(cs[1..])
  }

  // The evaluator.

  /** `check`: two distinct hole cards, three to five distinct community cards; the two groups may overlap. */
  predicate Check(holeCards: seq<Card>, communityCards: seq<Card>) {
    |holeCards| == 2 && 3 <= |communityCards| <= 5 && NoDuplicates(holeCards) && NoDuplicates(communityCards)
  }

  /** `ranks().map(\.rawValue)`. */
  function RawValues(cards: seq<Card>): (vs: seq<int>)
    ensures |vs| == |cards|
    ensures forall i :: 0 <= i < |cards| ==> vs[i] == RawValue(cards[i].rank)
  {
    seq(|cards|, i requires 0 <= i < |cards| => RawValue(cards[i].rank))
  }

  /** The sorted raw values of all the cards. */
  function SortedRankValues(holeCards: seq<Card>, communityCards: seq<Card>): seq<int> {
    Sort(RawValues(holeCards + communityCards))
  }

  /** `hasStraight`. */
  function HasStraight(holeCards: seq<Card>, communityCards: seq<Card>): (b: bool)
    ensures b ==> Check(holeCards, communityCards)
  {
    Check(holeCards, communityCards) && AnySequential(Chunks(SortedRankValues(holeCards, communityCards), 5))
  }

  /** Chunk `k` of the sorted values, written out. */
  function ChunkOf(v: seq<int>, k: nat): seq<int>
    requires 5 * k < |v|
  {
    v[5 * k .. if 5 * k + 5 <= |v| then 5 * k + 5 else |v|]
  }

  /**
    A straight is a block of positions `5k` up to `5k + 4` of the sorted
    values (cut short at the end) whose values climb by one.
  */
  lemma HasStraightMeaning(holeCards: seq<Card>, communityCards: seq<Card>)
    ensures HasStraight(holeCards, communityCards) <==> (Check(holeCards, communityCards) &&
      var v := SortedRankValues(holeCards, communityCards);
      exists k: nat :: 5 * k < |v| && IsSequential(ChunkOf(v, k)))
  {
    var v := SortedRankValues(holeCards, communityCards);
    ChunksOfFiveAt(v);
    var cs := Chunks(v, 5);
    forall k: nat
      ensures (k < |cs| && IsSequential(cs[k])) <==> (5 * k < |v| && IsSequential(ChunkOf(v, k)))
    {
      if 5 * k < |v| {
        assert k < |cs|;
        assert cs[k] == ChunkOf(v, k);
      }
    }
  }

  // The straight the rest of the repository means.

  /**
    A straight as `possibleStraights` counts one: every rank of one of its
    ten windows is held, the ace-to-five window included.
  */
  function HasStraightIntended(holeCards: seq<Card>, communityCards: seq<Card>): (b: bool)
    ensures b <==> Check(holeCards, communityCards) && BoardEvaluators.ContainsWindow(holeCards + communityCards)
  {
    var cards := holeCards + communityCards;
    StraightWindows.IsNToStraightIff(5, Ranks(cards));
    BoardEvaluators.WindowMeetsAllIffContained(RankSet(cards));
    Check(holeCards, communityCards) && StraightWindows.IsNToStraight(5, Ranks(cards))
  }

  /** Every value of a rearrangement of the raw values is the raw value of one of the cards. */
  lemma ValueOfSomeCard(cards: seq<Card>, v: seq<int>, x: int) returns (m: nat)
    requires multiset(v) == multiset(RawValues(cards))
    requires x in v
    ensures m < |cards| && RawValue(cards[m].rank) == x
  {
    assert x in multiset(RawValues(cards));
    var j :| 0 <= j < |cards| && RawValues(cards)[j] == x;
    m := j;
  }

  /** Every card's raw value is somewhere in a rearrangement of the raw values. */
  lemma CardHasValue(cards: seq<Card>, v: seq<int>, m: nat) returns (p: nat)
    requires multiset(v) == multiset(RawValues(cards))
    requires m < |cards|
    ensures p < |v| && v[p] == RawValue(cards[m].rank)
  {
    var vs := RawValues(cards);
    assert vs[m] in multiset(vs);
    assert vs[m] in multiset(v);
    var j :| 0 <= j < |v| && v[j] == vs[m];
    p := j;
  }

  /** Membership in window `i` by raw value. */
  lemma WindowAt(i: int, r: Rank)
    requires 0 <= i < |StraightWindows.PossibleStraights|
    ensures r in StraightWindows.PossibleStraights[i] <==> i + 1 <= RawValue(r) <= i + 5 || (i == 0 && r == Ace)
  {
    StraightWindows.WindowContents();
  }

  lemma RankOfCardInSet(cards: seq<Card>, m: nat)
    requires m < |cards|
    ensures cards[m].rank in RankSet(cards)
  {
    ProjectionsAt(cards);
    assert Ranks(cards)[m] == cards[m].rank;
  }

  lemma CardOfRank(cards: seq<Card>, r: Rank) returns (m: nat)
    requires r in RankSet(cards)
    ensures m < |cards| && cards[m].rank == r
  {
    ProjectionsAt(cards);
    var j :| 0 <= j < |Ranks(cards)| && Ranks(cards)[j] == r;
    m := j;
  }

  /**
    Five positions of a rearrangement of the raw values climbing by one hold
    every rank of one of the nine windows above the ace-to-five one.
  */
  lemma RunIsWindow(cards: seq<Card>, v: seq<int>, start: nat) returns (i: nat)
    requires multiset(v) == multiset(RawValues(cards))
    requires start + 5 <= |v|
    requires forall j :: start <= j < start + 5 ==> v[j] == v[start] + (j - start)
    ensures 1 <= i < |StraightWindows.PossibleStraights|
    ensures StraightWindows.PossibleStraights[i] <= RankSet(cards)
  {
    var low := ValueOfSomeCard(cards, v, v[start]);
    assert v[start + 4] == v[start] + 4;
    var high := ValueOfSomeCard(cards, v, v[start + 4]);
    i := v[start] - 1;
    StraightWindows.WindowCardinality();
    forall r | r in StraightWindows.PossibleStraights[i]
      ensures r in RankSet(cards)
    {
      WindowAt(i, r);
      var j := RawValue(r) - v[start];
      assert v[start + j] == RawValue(r);
      var m := ValueOfSomeCard(cards, v, v[start + j]);
      RawValueRoundTrip(cards[m].rank, r);
      RankOfCardInSet(cards, m);
    }
  }

  /** A full chunk of five sorted values climbing by one is a real straight. */
  lemma FullChunkIsStraight(holeCards: seq<Card>, communityCards: seq<Card>, k: nat) returns (i: nat)
    requires 5 * k + 5 <= |SortedRankValues(holeCards, communityCards)|
    requires IsSequential(ChunkOf(SortedRankValues(holeCards, communityCards), k))
    ensures 1 <= i < |StraightWindows.PossibleStraights|
    ensures StraightWindows.PossibleStraights[i] <= RankSet(holeCards + communityCards)
  {
    var v := SortedRankValues(holeCards, communityCards);
    var chunk := ChunkOf(v, k);
    assert forall j :: 5 * k <= j < 5 * k + 5 ==> v[j] == chunk[j - 5 * k];
    i := RunIsWindow(holeCards + communityCards, v, 5 * k);
  }

  /** A sorted sequence of five values meeting each of `a` to `a + 4` climbs from `a`. */
  lemma SortedFiveRun(v: seq<int>, a: int, p0: nat, p1: nat, p2: nat, p3: nat, p4: nat)
    requires Sorted(v) && |v| == 5
    requires p0 < 5 && p1 < 5 && p2 < 5 && p3 < 5 && p4 < 5
    requires v[p0] == a && v[p1] == a + 1 && v[p2] == a + 2 && v[p3] == a + 3 && v[p4] == a + 4
    ensures IsSequential(v) && v[0] == a
  {
    assert p0 < p1 < p2 < p3 < p4;
  }

  /** Raw value `x` of a rank in window `i` held by the cards sits somewhere in a rearrangement of the raw values. */
  lemma WindowValuePresent(cards: seq<Card>, v: seq<int>, i: nat, x: int) returns (p: nat)
    requires multiset(v) == multiset(RawValues(cards))
    requires 1 <= i < |StraightWindows.PossibleStraights|
    requires StraightWindows.PossibleStraights[i] <= RankSet(cards)
    requires i + 1 <= x <= i + 5
    ensures p < |v| && v[p] == x
  {
    var r := FromRawValue(x).value;
    WindowAt(i, r);
    var m := CardOfRank(cards, r);
    p := CardHasValue(cards, v, m);
  }

  /**
    Five cards holding a window other than ace-to-five sort into exactly
    that window's raw values, which the single chunk reports.
  */
  lemma FiveCardWindowFound(holeCards: seq<Card>, communityCards: seq<Card>, i: nat)
    requires Check(holeCards, communityCards) && |communityCards| == 3
    requires 1 <= i < |StraightWindows.PossibleStraights|
    requires StraightWindows.PossibleStraights[i] <= RankSet(holeCards + communityCards)
    ensures HasStraight(holeCards, communityCards)
  {
    var cards := holeCards + communityCards;
    var v := SortedRankValues(holeCards, communityCards);
    assert |v| == |multiset(v)| == |multiset(RawValues(cards))| == 5;
    var p0 := WindowValuePresent(cards, v, i, i + 1);
    var p1 := WindowValuePresent(cards, v, i, i + 2);
    var p2 := WindowValuePresent(cards, v, i, i + 3);
    var p3 := WindowValuePresent(cards, v, i, i + 4);
    var p4 := WindowValuePresent(cards, v, i, i + 5);
    SortedFiveRun(v, i + 1, p0, p1, p2, p3, p4);
    assert ChunkOf(v, 0) == v;
    HasStraightMeaning(holeCards, communityCards);
  }

  /** On five cards, a reported straight is a window other than ace-to-five. */
  lemma FiveCardStraightIsWindow(holeCards: seq<Card>, communityCards: seq<Card>) returns (i: nat)
    requires |communityCards| == 3
    requires HasStraight(holeCards, communityCards)
    ensures 1 <= i < |StraightWindows.PossibleStraights|
    ensures StraightWindows.PossibleStraights[i] <= RankSet(holeCards + communityCards)
  {
    var v := SortedRankValues(holeCards, communityCards);
    assert |v| == |multiset(v)| == |multiset(RawValues(holeCards + communityCards))| == 5;
    HasStraightMeaning(holeCards, communityCards);
    var k: nat :| 5 * k < |v| && IsSequential(ChunkOf(v, k));
    assert k == 0;
    i := FullChunkIsStraight(holeCards, communityCards, 0);
  }

  /** Five distinct ranks holding a window other than ace-to-five do not hold the ace-to-five window. */
  lemma NotAlsoTheWheel(u: set<Rank>, i: nat)
    requires |u| <= 5
    requires 1 <= i < |StraightWindows.PossibleStraights|
    requires StraightWindows.PossibleStraights[i] <= u
    ensures !(StraightWindows.PossibleStraights[0] <= u)
  {
    var w := StraightWindows.PossibleStraights;
    StraightWindows.WindowCardinality();
    SetFacts.SubsetCardinality(w[i], u);
    WindowAt(i, Two);
    WindowAt(0, Two);
  }

  /**
    On five cards the chunked scan agrees with the windows except for the
    ace-to-five straight, which it never reports because the ace sorts high.
  */
  lemma FiveCardsAgree(holeCards: seq<Card>, communityCards: seq<Card>)
    requires Check(holeCards, communityCards) && |communityCards| == 3
    ensures HasStraight(holeCards, communityCards) <==>
      (HasStraightIntended(holeCards, communityCards) &&
       !(StraightWindows.PossibleStraights[0] <= RankSet(holeCards + communityCards)))
  {
    var u := RankSet(holeCards + communityCards);
    var w := StraightWindows.PossibleStraights;
    if HasStraight(holeCards, communityCards) {
      var i := FiveCardStraightIsWindow(holeCards, communityCards);
      RankSetFacts(holeCards + communityCards);
      NotAlsoTheWheel(u, i);
    }
    if HasStraightIntended(holeCards, communityCards) && !(w[0] <= u) {
      var i :| 0 <= i < |w| && w[i] <= u;
      FiveCardWindowFound(holeCards, communityCards, i);
    }
  }

  /** Six cards are always called a straight: the sixth sorted value is a chunk of its own. */
  lemma SixCardsAlwaysStraight(holeCards: seq<Card>, communityCards: seq<Card>)
    requires Check(holeCards, communityCards) && |communityCards| == 4
    ensures HasStraight(holeCards, communityCards)
  {
    var v := SortedRankValues(holeCards, communityCards);
    assert |v| == |multiset(v)| == |multiset(RawValues(holeCards + communityCards))| == 6;
    assert IsSequential(ChunkOf(v, 1));
    HasStraightMeaning(holeCards, communityCards);
  }

  // Inputs on which the chunked scan and the windows disagree.

  /** Window `i` holds a rank with an odd raw value. */
  lemma OddRankInWindow(i: nat) returns (r: Rank)
    requires i < |StraightWindows.PossibleStraights|
    ensures r in StraightWindows.PossibleStraights[i] && RawValue(r) % 2 == 1
  {
    var x := if i % 2 == 0 then i + 3 else i + 2;
    r := FromRawValue(x).value;
    WindowAt(i, r);
  }

  /** No window lies within a set of ranks whose raw values are all even. */
  lemma NoWindowAmongEvenRanks(u: set<Rank>)
    requires forall r :: r in u ==> RawValue(r) % 2 == 0
    ensures forall i :: 0 <= i < |StraightWindows.PossibleStraights| ==> !(StraightWindows.PossibleStraights[i] <= u)
  {
    forall i | 0 <= i < |StraightWindows.PossibleStraights|
      ensures !(StraightWindows.PossibleStraights[i] <= u)
    {
      var r := OddRankInWindow(i);
    }
  }

  /**
    Two, four, six, eight, ten and queen: the sixth value is a chunk of its
    own and is called a straight, though no five ranks run in sequence.
  */
  lemma SixCardFalsePositive(holeCards: seq<Card>, communityCards: seq<Card>)
    requires |holeCards| == 2 && |communityCards| == 4
    requires holeCards[0].rank == Two && holeCards[1].rank == Four
    requires communityCards[0].rank == Six && communityCards[1].rank == Eight
    requires communityCards[2].rank == Ten && communityCards[3].rank == Queen
    ensures HasStraight(holeCards, communityCards)
    ensures !HasStraightIntended(holeCards, communityCards)
  {
    NoDuplicatesIffDistinct(holeCards);
    NoDuplicatesIffDistinct(communityCards);
    SixCardsAlwaysStraight(holeCards, communityCards);
    var cards := holeCards + communityCards;
    forall r | r in RankSet(cards)
      ensures RawValue(r) % 2 == 0
    {
      var m := CardOfRank(cards, r);
      assert cards[m] in holeCards || cards[m] in communityCards;
    }
    NoWindowAmongEvenRanks(RankSet(cards));
  }

  /** Each window misses one of four, six, eight and queen. */
  lemma GapRankInWindow(i: nat) returns (r: Rank)
    requires i < |StraightWindows.PossibleStraights|
    ensures r in StraightWindows.PossibleStraights[i] && r in {Four, Six, Eight, Queen}
  {
    r := if i <= 3 then Four else if i <= 5 then Six else if i <= 7 then Eight else Queen;
    WindowAt(i, r);
  }

  /** Any chunk of the sorted values that climbs by one makes the scan call a straight. */
  lemma ClimbingChunkIsCalled(holeCards: seq<Card>, communityCards: seq<Card>, k: nat)
    requires Check(holeCards, communityCards)
    requires 5 * k < |SortedRankValues(holeCards, communityCards)|
    requires IsSequential(ChunkOf(SortedRankValues(holeCards, communityCards), k))
    ensures HasStraight(holeCards, communityCards)
  {
    HasStraightMeaning(holeCards, communityCards);
  }

  /** Seven values end in a chunk of their last two. */
  lemma ShortTailChunk(v: seq<int>)
    requires |v| == 7
    ensures ChunkOf(v, 1) == [v[5], v[6]]
  {
    assert ChunkOf(v, 1) == v[5..7];
  }

  /** The sorted raw values of two, three, five, seven, nine, ten and jack. */
  lemma ShortTailValues(holeCards: seq<Card>, communityCards: seq<Card>)
    requires |holeCards| == 2 && |communityCards| == 5
    requires holeCards[0].rank == Two && holeCards[1].rank == Three
    requires communityCards[0].rank == Five && communityCards[1].rank == Seven
    requires communityCards[2].rank == Nine && communityCards[3].rank == Ten
    requires communityCards[4].rank == Jack
    ensures SortedRankValues(holeCards, communityCards) == [2, 3, 5, 7, 9, 10, 11]
  {
    var sorted := [2, 3, 5, 7, 9, 10, 11];
    assert RawValues(holeCards + communityCards) == sorted;
    SortedFromAdjacent(sorted);
    SortedUnique(SortedRankValues(holeCards, communityCards), sorted);
  }

  /**
    Two and three in the hole, five, seven, nine, ten and jack on the board:
    the sorted values split as 2 3 5 7 9 and 10 11, and the two-value tail
    climbs by one, so a straight is called though no five ranks run in sequence.
  */
  lemma SevenCardFalsePositive(holeCards: seq<Card>, communityCards: seq<Card>)
    requires |holeCards| == 2 && |communityCards| == 5
    requires holeCards[0].rank == Two && holeCards[1].rank == Three
    requires communityCards[0].rank == Five && communityCards[1].rank == Seven
    requires communityCards[2].rank == Nine && communityCards[3].rank == Ten
    requires communityCards[4].rank == Jack
    ensures HasStraight(holeCards, communityCards)
    ensures !HasStraightIntended(holeCards, communityCards)
  {
    NoDuplicatesIffDistinct(holeCards);
    NoDuplicatesIffDistinct(communityCards);
    ShortTailCalled(holeCards, communityCards);
    var cards := holeCards + communityCards;
    forall r | r in RankSet(cards)
      ensures r !in {Four, Six, Eight, Queen}
    {
      var m := CardOfRank(cards, r);
      assert cards[m] in holeCards || cards[m] in communityCards;
    }
    forall i | 0 <= i < |StraightWindows.PossibleStraights|
      ensures !(StraightWindows.PossibleStraights[i] <= RankSet(cards))
    {
      var r := GapRankInWindow(i);
    }
  }

  lemma ShortTailCalled(holeCards: seq<Card>, communityCards: seq<Card>)
    requires Check(holeCards, communityCards)
    requires |holeCards| == 2 && |communityCards| == 5
    requires holeCards[0].rank == Two && holeCards[1].rank == Three
    requires communityCards[0].rank == Five && communityCards[1].rank == Seven
    requires communityCards[2].rank == Nine && communityCards[3].rank == Ten
    requires communityCards[4].rank == Jack
    ensures HasStraight(holeCards, communityCards)
  {
    ShortTailValues(holeCards, communityCards);
    ShortTailChunk([2, 3, 5, 7, 9, 10, 11]);
    ClimbingChunkIsCalled(holeCards, communityCards, 1);
  }

  /** The sorted raw values of two, five, six, seven, eight, nine and queen. */
  lemma SevenCardValues(holeCards: seq<Card>, communityCards: seq<Card>)
    requires |holeCards| == 2 && |communityCards| == 5
    requires holeCards[0].rank == Two && holeCards[1].rank == Five
    requires communityCards[0].rank == Six && communityCards[1].rank == Seven
    requires communityCards[2].rank == Eight && communityCards[3].rank == Nine
    requires communityCards[4].rank == Queen
    ensures SortedRankValues(holeCards, communityCards) == [2, 5, 6, 7, 8, 9, 12]
  {
    var sorted := [2, 5, 6, 7, 8, 9, 12];
    assert RawValues(holeCards + communityCards) == sorted;
    SortedFromAdjacent(sorted);
    SortedUnique(SortedRankValues(holeCards, communityCards), sorted);
  }

  /** Neither chunk of 2 5 6 7 8 | 9 12 climbs by one. */
  lemma NoChunkOfSevenCardValuesClimbs(v: seq<int>)
    requires v == [2, 5, 6, 7, 8, 9, 12]
    ensures forall k: nat :: 5 * k < |v| ==> !IsSequential(ChunkOf(v, k))
  {
    forall k: nat | 5 * k < |v|
      ensures !IsSequential(ChunkOf(v, k))
    {
      if k == 0 {
        assert ChunkOf(v, 0)[1] == 5;
      } else {
        assert ChunkOf(v, 1)[1] == 12;
      }
    }
  }

  /**
    Two and five in the hole, six to nine and a queen on the board: the
    sorted values split as 2 5 6 7 8 and 9 12, so the five-to-nine straight
    straddles the chunk boundary and is missed.
  */
  lemma SevenCardStraightMissed(holeCards: seq<Card>, communityCards: seq<Card>)
    requires |holeCards| == 2 && |communityCards| == 5
    requires holeCards[0].rank == Two && holeCards[1].rank == Five
    requires communityCards[0].rank == Six && communityCards[1].rank == Seven
    requires communityCards[2].rank == Eight && communityCards[3].rank == Nine
    requires communityCards[4].rank == Queen
    ensures !HasStraight(holeCards, communityCards)
    ensures HasStraightIntended(holeCards, communityCards)
  {
    NoDuplicatesIffDistinct(holeCards);
    NoDuplicatesIffDistinct(communityCards);
    SevenCardNotCalled(holeCards, communityCards);
    var cards := holeCards + communityCards;
    assert cards[1].rank == Five && cards[2].rank == Six && cards[3].rank == Seven;
    assert cards[4].rank == Eight && cards[5].rank == Nine;
    FiveToNineHeld(cards);
  }

  lemma SevenCardNotCalled(holeCards: seq<Card>, communityCards: seq<Card>)
    requires |holeCards| == 2 && |communityCards| == 5
    requires holeCards[0].rank == Two && holeCards[1].rank == Five
    requires communityCards[0].rank == Six && communityCards[1].rank == Seven
    requires communityCards[2].rank == Eight && communityCards[3].rank == Nine
    requires communityCards[4].rank == Queen
    ensures !HasStraight(holeCards, communityCards)
  {
    SevenCardValues(holeCards, communityCards);
    NoChunkOfSevenCardValuesClimbs(SortedRankValues(holeCards, communityCards));
    HasStraightMeaning(holeCards, communityCards);
  }

  lemma FiveToNineHeld(cards: seq<Card>)
    requires |cards| >= 6
    requires cards[1].rank == Five && cards[2].rank == Six && cards[3].rank == Seven
    requires cards[4].rank == Eight && cards[5].rank == Nine
    ensures StraightWindows.PossibleStraights[4] <= RankSet(cards)
  {
    RankOfCardInSet(cards, 1);
    RankOfCardInSet(cards, 2);
    RankOfCardInSet(cards, 3);
    RankOfCardInSet(cards, 4);
    RankOfCardInSet(cards, 5);
  }

  /**
    Ace, two, three, four, five: the ace sorts as 14, so the ace-to-five
    straight that `possibleStraights` lists is never reported.
  */
  lemma WheelMissed(holeCards: seq<Card>, communityCards: seq<Card>)
    requires |holeCards| == 2 && |communityCards| == 3
    requires holeCards[0].rank == Ace && holeCards[1].rank == Two
    requires communityCards[0].rank == Three && communityCards[1].rank == Four && communityCards[2].rank == Five
    ensures !HasStraight(holeCards, communityCards)
    ensures HasStraightIntended(holeCards, communityCards)
  {
    NoDuplicatesIffDistinct(holeCards);
    NoDuplicatesIffDistinct(communityCards);
    var cards := holeCards + communityCards;
    RankOfCardInSet(cards, 0);
    RankOfCardInSet(cards, 1);
    RankOfCardInSet(cards, 2);
    RankOfCardInSet(cards, 3);
    RankOfCardInSet(cards, 4);
    assert cards[0].rank == Ace && cards[1].rank == Two && cards[2].rank == Three;
    assert cards[3].rank == Four && cards[4].rank == Five;
    assert StraightWindows.PossibleStraights[0] <= RankSet(cards);
    FiveCardsAgree(holeCards, communityCards);
  }
}
