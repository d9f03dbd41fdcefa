/**
  The flush hand evaluator of Evaluators/HandEvaluators/FlushEvaluator.swift.
  Both predicates look at the hole cards and the community cards together;
  they need exactly two hole cards and three to five community cards, and
  they do not reject duplicated cards.
*/
module FlushEvaluator {
  import opened Optional
  import opened RankType
  import opened SuitType
  import opened CardType
  import opened CardArrays

  /** `check`: two hole cards and three to five community cards. */
  predicate Check(holeCards: seq<Card>, communityCards: seq<Card>) {
    |holeCards| == 2 && 3 <= |communityCards| <= 5
  }

  /** Some suit occurs at least `n` times among `cards`. */
  ghost predicate SomeSuitAtLeast(cards: seq<Card>, n: int) {
    exists s :: SuitCount(cards, s) >= n
  }

  /** `hasFlush`: some value of the suit histogram of all seven-or-fewer cards is at least 5. */
  function HasFlush(holeCards: seq<Card>, communityCards: seq<Card>): (b: bool)
    ensures b <==> Check(holeCards, communityCards) && SomeSuitAtLeast(holeCards + communityCards, 5)
  {
    var histogram := SuitHistogram(holeCards + communityCards);
    HistogramValueAtLeast(holeCards + communityCards, 5);
    Check(holeCards, communityCards) && exists v | v in histogram.Values :: v >= 5
  }

  lemma HistogramValueAtLeast(cards: seq<Card>, n: int)
    requires n >= 1
    ensures (exists v :: v in SuitHistogram(cards).Values && v >= n) <==> SomeSuitAtLeast(cards, n)
  {
    var histogram := SuitHistogram(cards);
    if exists v :: v in histogram.Values && v >= n {
      var v :| v in histogram.Values && v >= n;
      var s :| s in histogram && histogram[s] == v;
      assert SuitCount(cards, s) >= n;
    }
    if SomeSuitAtLeast(cards, n) {
      var s :| SuitCount(cards, s) >= n;
      assert histogram[s] in histogram.Values;
    }
  }

  /**
    `histogram.first(where: { $0.value >= n })?.key`, with the dictionary's
    iteration order, which Swift leaves unspecified, given as `order`.
  */
  function FirstSuitAtLeast(order: seq<Suit>, histogram: map<Suit, int>, n: int): (r: Option<Suit>)
    ensures r.Some? ==> r.value in order && r.value in histogram && histogram[r.value] >= n
    ensures r.None? <==> forall s :: s in order && s in histogram ==> histogram[s] < n
  {
    if |order| == 0 then None
    else if order[0] in histogram && histogram[order[0]] >= n then Some(order[0])
    else FirstSuitAtLeast(order[1..], histogram, n)
  }

  /** The Ace of suit `s` is among `cards`: `contains(where: { $0.rank == .ace && $0.suit == s })`. */
  function HoldsAceOf(cards: seq<Card>, s: Suit): (b: bool)
    ensures b <==> Card(Ace, s) in cards
  {
    exists i | 0 <= i < |cards| :: cards[i].rank == Ace && cards[i].suit == s
  }

  /** `hasNutFlush` for a given dictionary iteration order. */
  function HasNutFlushWith(order: seq<Suit>, holeCards: seq<Card>, communityCards: seq<Card>): bool {
    if !Check(holeCards, communityCards) then false
    else
      var histogram := SuitHistogram(holeCards + communityCards);
      match FirstSuitAtLeast(order, histogram, 5)
      case None => false
      case Some(flushSuit) => HoldsAceOf(holeCards, flushSuit)
  }

  /** With at most seven cards two different suits cannot both reach five. */
  lemma FlushSuitUnique(cards: seq<Card>, s: Suit, t: Suit)
    requires |cards| <= 7
    requires SuitCount(cards, s) >= 5 && SuitCount(cards, t) >= 5
    ensures s == t
  {
    if s != t {
      TwoSuitsBound(cards, s, t);
    }
  }

  /**
    The nut flush is the same whatever order the dictionary iterates its
    keys in, as long as the order visits every key.
  */
  lemma NutFlushOrderIrrelevant(order: seq<Suit>, holeCards: seq<Card>, communityCards: seq<Card>)
    requires forall s :: s in SuitHistogram(holeCards + communityCards) ==> s in order
    ensures HasNutFlushWith(order, holeCards, communityCards) <==>
      (Check(holeCards, communityCards) && exists s :: SuitCount(holeCards + communityCards, s) >= 5 && Card(Ace, s) in holeCards)
  {
    var cards := holeCards + communityCards;
    var histogram := SuitHistogram(cards);
    if Check(holeCards, communityCards) {
      match FirstSuitAtLeast(order, histogram, 5)
      case None =>
      case Some(flushSuit) =>
        forall s | SuitCount(cards, s) >= 5
          ensures s == flushSuit
        {
          FlushSuitUnique(cards, s, flushSuit);
        }
    }
  }

  /**
    `hasNutFlush`, iterating the suits in declaration order: a suit reaches
    five cards and its Ace is one of the hole cards.
  */
  function HasNutFlush(holeCards: seq<Card>, communityCards: seq<Card>): (b: bool)
    ensures b <==> (Check(holeCards, communityCards)
      && exists s :: SuitCount(holeCards + communityCards, s) >= 5 && Card(Ace, s) in holeCards)
  {
    AllSuitsListed();
    NutFlushOrderIrrelevant(AllSuits, holeCards, communityCards);
    HasNutFlushWith(AllSuits, holeCards, communityCards)
  }

  lemma AllSuitsListed()
    ensures forall s :: s in AllSuits
  {
    forall s: Suit
      ensures s in AllSuits
    {
      match s
      case Clubs => assert AllSuits[0] == s;
      case Diamonds => assert AllSuits[1] == s;
      case Hearts => assert AllSuits[2] == s;
      case Spades => assert AllSuits[3] == s;
    }
  }

  // Properties.

  /** A nut flush is a flush. */
  lemma NutFlushIsFlush(holeCards: seq<Card>, communityCards: seq<Card>)
    requires HasNutFlush(holeCards, communityCards)
    ensures HasFlush(holeCards, communityCards)
  {
  }

  /** A flush lying wholly on the board counts, whatever the hole cards are. */
  lemma BoardFlushCounts(holeCards: seq<Card>, communityCards: seq<Card>, s: Suit)
    requires Check(holeCards, communityCards)
    requires SuitCount(communityCards, s) == 5
    ensures HasFlush(holeCards, communityCards)
  {
    CountsAppend(holeCards, communityCards);
  }

  /** An Ace of the flush suit on the board does not make a nut flush: it must be a hole card. */
  lemma BoardAceDoesNotCount(holeCards: seq<Card>, communityCards: seq<Card>)
    requires forall c :: c in holeCards ==> c.rank != Ace
    ensures !HasNutFlush(holeCards, communityCards)
  {
  }

  /** Duplicates are not rejected: six cards of one suit are a flush even when a card repeats. */
  lemma DuplicatesNotRejected(holeCards: seq<Card>, communityCards: seq<Card>, s: Suit)
    requires |holeCards| == 2 && |communityCards| == 4
    requires forall c :: c in holeCards + communityCards ==> c.suit == s
    ensures HasFlush(holeCards, communityCards)
  {
    var cards := holeCards + communityCards;
    assert forall i :: 0 <= i < |cards| ==> cards[i] in cards;
    OneSuitCount(cards, s);
  }

  /** Too few hole cards, or a board outside three to five cards, gives neither flush. */
  lemma InvalidCountsNoFlush(holeCards: seq<Card>, communityCards: seq<Card>)
    requires !Check(holeCards, communityCards)
    ensures !HasFlush(holeCards, communityCards) && !HasNutFlush(holeCards, communityCards)
  {
  }
}
