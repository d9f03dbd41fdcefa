/**
  A card is a rank/suit pair; two cards are equal exactly when both their
  ranks and their suits are equal (the synthesised `Hashable` conformance).
*/
module CardType {
  import opened RankType
  import opened SuitType

  datatype Card = Card(rank: Rank, suit: Suit)

  /** `Set(cards).count == cards.count`: no card occurs twice. */
  predicate NoDuplicates(cards: seq<Card>) {
    |set c | c in cards| == |cards|
  }

  /** Equality of cards is equality of rank and suit. */
  lemma EqualityIsRankAndSuit(c: Card, d: Card)
    ensures c == d <==> c.rank == d.rank && c.suit == d.suit
  {
  }

  /** The set of a sequence never has more elements than the sequence. */
  lemma {:induction false} ElementsBound(cards: seq<Card>)
    ensures |set c | c in cards| <= |cards|
  {
    if |cards| > 0 {
      ElementsBound(cards[1..]);
      assert (set c | c in cards) == {cards[0]} + (set c | c in cards[1..]);
    }
  }

  /** No two positions hold the same card. */
  ghost predicate Distinct(cards: seq<Card>) {
    forall i, j :: 0 <= i < j < |cards| ==> cards[i] != cards[j]
  }

  /** The set-count test succeeds exactly when the cards are pairwise distinct. */
  lemma {:induction false} NoDuplicatesIffDistinct(cards: seq<Card>)
    ensures NoDuplicates(cards) <==> forall i, j :: 0 <= i < j < |cards| ==> cards[i] != cards[j]
  {
    if |cards| > 0 {
      var rest := cards[1..];
      NoDuplicatesIffDistinct(rest);
      DistinctCons(cards);
      NoDuplicatesCons(cards);
    }
  }

  /** A non-empty sequence is distinct when its head is new and its tail is distinct. */
  lemma DistinctCons(cards: seq<Card>)
    requires |cards| > 0
    ensures Distinct(cards) <==> cards[0] !in cards[1..] && Distinct(cards[1..])
  {
    var rest := cards[1..];
    if cards[0] in rest {
      var k :| 0 <= k < |rest| && rest[k] == cards[0];
      assert cards[0] == cards[k + 1];
    }
    if Distinct(rest) && cards[0] !in rest {
      forall i, j | 0 <= i < j < |cards|
        ensures cards[i] != cards[j]
      {
        assert cards[j] == rest[j - 1];
      }
    }
    if Distinct(cards) {
      forall i, j | 0 <= i < j < |rest|
        ensures rest[i] != rest[j]
      {
        assert rest[i] == cards[i + 1] && rest[j] == cards[j + 1];
      }
    }
  }

  /** The set-count test on a non-empty sequence, in terms of its head and tail. */
  lemma NoDuplicatesCons(cards: seq<Card>)
    requires |cards| > 0
    ensures NoDuplicates(cards) <==> cards[0] !in cards[1..] && NoDuplicates(cards[1..])
  {
    var rest := cards[1..];
    ElementsBound(rest);
    assert (set c | c in cards) == {cards[0]} + (set c | c in rest);
  }
}
