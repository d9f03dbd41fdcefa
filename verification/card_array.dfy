/**
  The `Array where Element == Card` extension of Card+Array.swift: the ranks
  of a card sequence and its rank and suit histograms. The histograms are the
  ones the evaluators read.
*/
module CardArrays {
  import opened RankType
  import opened SuitType
  import opened CardType
  import opened Histograms

  /** `cards.map(\.rank)`. */
  function Ranks(cards: seq<Card>): (rs: seq<Rank>)
    ensures |rs| == |cards|
  {
    if |cards| == 0 then [] else [cards[0].rank] + Ranks(cards[1..])
  }

  /** `cards.map(\.suit)`, the keys the suit histogram counts. */
  function Suits(cards: seq<Card>): (ss: seq<Suit>)
    ensures |ss| == |cards|
  {
    if |cards| == 0 then [] else [cards[0].suit] + Suits(cards[1..])
  }

  /** Entry `i` of `ranks()` is the rank of card `i`, and likewise for the suits. */
  lemma {:induction false} ProjectionsAt(cards: seq<Card>)
    ensures forall i :: 0 <= i < |cards| ==> Ranks(cards)[i] == cards[i].rank
    ensures forall i :: 0 <= i < |cards| ==> Suits(cards)[i] == cards[i].suit
  {
    if |cards| > 0 {
      ProjectionsAt(cards[1..]);
    }
  }

  /** Some card among `cards` has rank `r`. */
  ghost predicate HasRank(cards: seq<Card>, r: Rank) {
    exists i :: 0 <= i < |cards| && cards[i].rank == r
  }

  /** `ranks().contains(r)` is `HasRank`. */
  lemma HasRankIff(cards: seq<Card>, r: Rank)
    ensures HasRank(cards, r) <==> r in Ranks(cards)
  {
    ProjectionsAt(cards);
    if r in Ranks(cards) {
      var i :| 0 <= i < |Ranks(cards)| && Ranks(cards)[i] == r;
    }
  }

  /** The projections of three cards, written out. */
  lemma ProjectionsOfThree(cards: seq<Card>)
    requires |cards| == 3
    ensures Ranks(cards) == [cards[0].rank, cards[1].rank, cards[2].rank]
    ensures Suits(cards) == [cards[0].suit, cards[1].suit, cards[2].suit]
  {
    ProjectionsAt(cards);
  }

  /** The projections of five cards, written out. */
  lemma ProjectionsOfFive(cards: seq<Card>)
    requires |cards| == 5
    ensures Ranks(cards) == [cards[0].rank, cards[1].rank, cards[2].rank, cards[3].rank, cards[4].rank]
    ensures Suits(cards) == [cards[0].suit, cards[1].suit, cards[2].suit, cards[3].suit, cards[4].suit]
  {
    ProjectionsAt(cards);
  }

  /** Number of cards of rank `r`. */
  function RankCount(cards: seq<Card>, r: Rank): nat {
    multiset(Ranks(cards))[r]
  }

  /** Number of cards of suit `s`. */
  function SuitCount(cards: seq<Card>, s: Suit): nat {
    multiset(Suits(cards))[s]
  }

  /** `Set(cards.ranks())`: the distinct ranks. */
  function RankSet(cards: seq<Card>): set<Rank> {
    set r | r in Ranks(cards)
  }

  /** `rankHistogram()`: a rank is a key exactly when some card has it, and maps to its count. */
  function RankHistogram(cards: seq<Card>): (h: map<Rank, int>)
    ensures forall r :: r in h <==> RankCount(cards, r) > 0
    ensures forall r :: r in h ==> h[r] == RankCount(cards, r) >= 1
  {
    HistogramCounts(Ranks(cards));
    Histogram(Ranks(cards))
  }

  /** `suitHistogram()`: a suit is a key exactly when some card has it, and maps to its count. */
  function SuitHistogram(cards: seq<Card>): (h: map<Suit, int>)
    ensures forall s :: s in h <==> SuitCount(cards, s) > 0
    ensures forall s :: s in h ==> h[s] == SuitCount(cards, s) >= 1
  {
    HistogramCounts(Suits(cards));
    Histogram(Suits(cards))
  }

  /** A rank occurs in `cards` exactly when its count is positive, and the distinct ranks are no more than the cards. */
  lemma RankSetFacts(cards: seq<Card>)
    ensures forall r :: r in RankSet(cards) <==> RankCount(cards, r) > 0
    ensures forall r :: r in RankSet(cards) <==> exists i :: 0 <= i < |cards| && cards[i].rank == r
    ensures |RankSet(cards)| <= |cards|
  {
    var rs := Ranks(cards);
    ProjectionsAt(cards);
    forall r ensures r in RankSet(cards) <==> exists i :: 0 <= i < |cards| && cards[i].rank == r {
      if r in RankSet(cards) {
        var i :| 0 <= i < |rs| && rs[i] == r;
      }
    }
    SetOfSeqBound(rs);
  }

  lemma {:induction false} SetOfSeqBound(rs: seq<Rank>)
    ensures |set r | r in rs| <= |rs|
  {
    if |rs| > 0 {
      SetOfSeqBound(rs[1..]);
      assert (set r | r in rs) == {rs[0]} + (set r | r in rs[1..]);
    }
  }

  /** The histogram values sum to the number of cards. */
  lemma HistogramsTotal(cards: seq<Card>)
    ensures SumValues(RankHistogram(cards)) == |cards|
    ensures SumValues(SuitHistogram(cards)) == |cards|
  {
    HistogramTotal(Ranks(cards));
    HistogramTotal(Suits(cards));
  }

  /** Permuting the cards leaves both histograms unchanged. */
  lemma HistogramsPermutation(cards: seq<Card>, cards': seq<Card>)
    requires multiset(cards) == multiset(cards')
    ensures RankHistogram(cards) == RankHistogram(cards')
    ensures SuitHistogram(cards) == SuitHistogram(cards')
  {
    RanksPermutation(cards, cards');
    SuitsPermutation(cards, cards');
    HistogramPermutation(Ranks(cards), Ranks(cards'));
    HistogramPermutation(Suits(cards), Suits(cards'));
  }

  lemma RanksPermutation(cards: seq<Card>, cards': seq<Card>)
    requires multiset(cards) == multiset(cards')
    ensures multiset(Ranks(cards)) == multiset(Ranks(cards'))
  {
    forall r ensures multiset(Ranks(cards))[r] == multiset(Ranks(cards'))[r] {
      RankCountBySuits(cards, r);
      RankCountBySuits(cards', r);
    }
  }

  lemma SuitsPermutation(cards: seq<Card>, cards': seq<Card>)
    requires multiset(cards) == multiset(cards')
    ensures multiset(Suits(cards)) == multiset(Suits(cards'))
  {
    forall s ensures multiset(Suits(cards))[s] == multiset(Suits(cards'))[s] {
      SuitCountByRanks(cards, s);
      SuitCountByRanks(cards', s);
    }
  }

  /** Two different suits together count no more cards than there are. */
  lemma {:induction false} TwoSuitsBound(cards: seq<Card>, s: Suit, t: Suit)
    requires s != t
    ensures SuitCount(cards, s) + SuitCount(cards, t) <= |cards|
  {
    if |cards| > 0 {
      var n := |cards| - 1;
      TwoSuitsBound(cards[..n], s, t);
      assert cards == cards[..n] + [cards[n]];
      ProjectionsAppend(cards[..n], [cards[n]]);
    }
  }

  /** Projection distributes over concatenation. */
  lemma ProjectionsAppend(a: seq<Card>, b: seq<Card>)
    ensures Ranks(a + b) == Ranks(a) + Ranks(b)
    ensures Suits(a + b) == Suits(a) + Suits(b)
  {
    ProjectionsAt(a);
    ProjectionsAt(b);
    ProjectionsAt(a + b);
  }

  /** Counts add up over concatenation. */
  lemma CountsAppend(a: seq<Card>, b: seq<Card>)
    ensures forall r :: RankCount(a + b, r) == RankCount(a, r) + RankCount(b, r)
    ensures forall s :: SuitCount(a + b, s) == SuitCount(a, s) + SuitCount(b, s)
  {
    ProjectionsAppend(a, b);
  }

  /** When every card has suit `s`, all of them count for `s`. */
  lemma {:induction false} OneSuitCount(cards: seq<Card>, s: Suit)
    requires forall i :: 0 <= i < |cards| ==> cards[i].suit == s
    ensures SuitCount(cards, s) == |cards|
  {
    if |cards| > 0 {
      OneSuitCount(cards[1..], s);
      assert Suits(cards) == [s] + Suits(cards[1..]);
    }
  }

  /** The count of a rank is the number of copies of its four cards. */
  lemma {:induction false} RankCountBySuits(cards: seq<Card>, r: Rank)
    ensures RankCount(cards, r) == SumOfCopies(multiset(cards), RankCards(r))
  {
    if |cards| == 0 {
      CopiesOfNothing(RankCards(r));
    } else {
      var c, rest := cards[0], cards[1..];
      RankCountBySuits(rest, r);
      assert cards == [c] + rest;
      assert multiset(cards) == multiset(rest) + multiset{c};
      assert Ranks(cards) == [c.rank] + Ranks(rest);
      assert multiset(Ranks(cards)) == multiset(Ranks(rest)) + multiset{c.rank};
      assert RankCount(cards, r) == RankCount(rest, r) + (if c.rank == r then 1 else 0);
      RankCardsFacts(r);
      assert (c in RankCards(r)) == (c.rank == r);
      CopiesAdd(multiset(rest), c, RankCards(r));
    }
  }

  /** The count of a suit is the number of copies of its thirteen cards. */
  lemma {:induction false} SuitCountByRanks(cards: seq<Card>, s: Suit)
    ensures SuitCount(cards, s) == SumOfCopies(multiset(cards), SuitCards(s))
  {
    if |cards| == 0 {
      CopiesOfNothing(SuitCards(s));
    } else {
      var c, rest := cards[0], cards[1..];
      SuitCountByRanks(rest, s);
      assert cards == [c] + rest;
      assert multiset(cards) == multiset(rest) + multiset{c};
      assert Suits(cards) == [c.suit] + Suits(rest);
      assert multiset(Suits(cards)) == multiset(Suits(rest)) + multiset{c.suit};
      assert SuitCount(cards, s) == SuitCount(rest, s) + (if c.suit == s then 1 else 0);
      SuitCardsFacts(s);
      assert (c in SuitCards(s)) == (c.suit == s);
      CopiesAdd(multiset(rest), c, SuitCards(s));
    }
  }

  /** The four cards of rank `r`. */
  function RankCards(r: Rank): seq<Card> {
    [Card(r, Clubs), Card(r, Diamonds), Card(r, Hearts), Card(r, Spades)]
  }

  /** The thirteen cards of suit `s`. */
  function SuitCards(s: Suit): seq<Card> {
    seq(13, i requires 0 <= i < 13 => Card(AllRanks[i], s))
  }

  lemma RankCardsFacts(r: Rank)
    ensures forall c :: c in RankCards(r) <==> c.rank == r
    ensures forall i, j :: 0 <= i < j < |RankCards(r)| ==> RankCards(r)[i] != RankCards(r)[j]
  {
    forall c: Card | c.rank == r ensures c in RankCards(r) {
      match c.suit
      case Clubs => assert c == RankCards(r)[0];
      case Diamonds => assert c == RankCards(r)[1];
      case Hearts => assert c == RankCards(r)[2];
      case Spades => assert c == RankCards(r)[3];
    }
  }

  lemma SuitCardsFacts(s: Suit)
    ensures forall c :: c in SuitCards(s) <==> c.suit == s
    ensures forall i, j :: 0 <= i < j < |SuitCards(s)| ==> SuitCards(s)[i] != SuitCards(s)[j]
  {
    RawValuesContiguous();
    forall c: Card | c.suit == s ensures c in SuitCards(s) {
      var v := RawValue(c.rank);
      assert SuitCards(s)[v - 2] == c;
    }
  }

  /** Total multiplicity in `m` of the listed cards. */
  function SumOfCopies(m: multiset<Card>, cs: seq<Card>): nat {
    if |cs| == 0 then 0 else m[cs[0]] + SumOfCopies(m, cs[1..])
  }

  lemma {:induction false} CopiesOfNothing(cs: seq<Card>)
    ensures SumOfCopies(multiset{}, cs) == 0
  {
    if |cs| > 0 {
      CopiesOfNothing(cs[1..]);
    }
  }

  /** Adding one card adds one to the total exactly when it is listed (once). */
  lemma {:induction false} CopiesAdd(m: multiset<Card>, c: Card, cs: seq<Card>)
    requires forall i, j :: 0 <= i < j < |cs| ==> cs[i] != cs[j]
    ensures SumOfCopies(m + multiset{c}, cs) == SumOfCopies(m, cs) + (if c in cs then 1 else 0)
  {
    if |cs| > 0 {
      CopiesAdd(m, c, cs[1..]);
      if c == cs[0] {
        assert c !in cs[1..];
      }
    }
  }
}
