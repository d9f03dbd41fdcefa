/**
  The histogram loops of Types/Card.swift. That file declares the same
  rank/suit pair as `CardType.Card`, which is reused here; its two loops are
  modelled as methods and shown to build exactly the histograms of
  `CardArrays`.
*/
module CardHistograms {
  import opened RankType
  import opened SuitType
  import opened CardType
  import CardArrays
  import Histograms

  /** `rankHistogram()`, visiting the cards in order. */
  method RankHistogram(cards: seq<Card>) returns (histogram: map<Rank, int>)
    ensures forall r :: r in histogram <==> CardArrays.RankCount(cards, r) > 0
    ensures forall r :: r in histogram ==> histogram[r] == CardArrays.RankCount(cards, r)
    ensures histogram == CardArrays.RankHistogram(cards)
  {
    histogram := map[];
    var i := 0;
    while i < |cards|
      invariant 0 <= i <= |cards|
      invariant histogram == Histograms.Histogram(CardArrays.Ranks(cards[..i]))
    {
      var card := cards[i];
      histogram := histogram[card.rank := (if card.rank in histogram then histogram[card.rank] else 0) + 1];
      assert histogram == Histograms.Histogram(CardArrays.Ranks(cards[..i + 1])) by {
        assert cards[..i + 1] == cards[..i] + [card];
        CardArrays.ProjectionsAppend(cards[..i], [card]);
        Histograms.HistogramSnoc(CardArrays.Ranks(cards[..i]), card.rank);
      }
      i := i + 1;
    }
    assert cards[..i] == cards;
    assert histogram == CardArrays.RankHistogram(cards);
  }

  /** `suitHistogram()`, visiting the cards in order. */
  method SuitHistogram(cards: seq<Card>) returns (histogram: map<Suit, int>)
    ensures forall s :: s in histogram <==> CardArrays.SuitCount(cards, s) > 0
    ensures forall s :: s in histogram ==> histogram[s] == CardArrays.SuitCount(cards, s)
    ensures histogram == CardArrays.SuitHistogram(cards)
  {
    histogram := map[];
    var i := 0;
    while i < |cards|
      invariant 0 <= i <= |cards|
      invariant histogram == Histograms.Histogram(CardArrays.Suits(cards[..i]))
    {
      var card := cards[i];
      histogram := histogram[card.suit := (if card.suit in histogram then histogram[card.suit] else 0) + 1];
      assert histogram == Histograms.Histogram(CardArrays.Suits(cards[..i + 1])) by {
        assert cards[..i + 1] == cards[..i] + [card];
        CardArrays.ProjectionsAppend(cards[..i], [card]);
        Histograms.HistogramSnoc(CardArrays.Suits(cards[..i]), card.suit);
      }
      i := i + 1;
    }
    assert cards[..i] == cards;
    assert histogram == CardArrays.SuitHistogram(cards);
  }
}
