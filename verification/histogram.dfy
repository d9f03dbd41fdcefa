/**
  The histogram built by `for x in xs { histogram[key(x), default: 0] += 1 }`,
  stated once over a sequence of keys. Its reference meaning is the multiset
  of the keys: a key is stored exactly when it occurs, with its multiplicity.
*/
module Histograms {

  /** `histogram[k, default: 0] += 1`. */
  function Increment<K(!new)>(h: map<K, int>, k: K): map<K, int> {
    h[k := (if k in h then h[k] else 0) + 1]
  }

  /** The histogram after the loop has visited every key, in order. */
  function Histogram<K(!new)>(keys: seq<K>): map<K, int> {
    if |keys| == 0 then map[]
    else
      var n := |keys| - 1;
      Increment(Histogram(keys[..n]), keys[n])
  }

  /** A key is stored exactly when it occurs, and maps to its number of occurrences. */
  lemma {:induction false} HistogramCounts<K(!new)>(keys: seq<K>)
    ensures forall k :: k in Histogram(keys) <==> k in multiset(keys)
    ensures forall k :: k in Histogram(keys) ==> Histogram(keys)[k] == multiset(keys)[k]
  {
    if |keys| > 0 {
      var n := |keys| - 1;
      assert keys == keys[..n] + [keys[n]];
      HistogramCounts(keys[..n]);
    }
  }

  /** Visiting one more key increments its entry. */
  lemma HistogramSnoc<K(!new)>(keys: seq<K>, k: K)
    ensures Histogram(keys + [k]) == Increment(Histogram(keys), k)
  {
    assert (keys + [k])[..|keys|] == keys;
  }

  /** Sum of the values stored under the keys `ks`. */
  ghost function SumOver<K(!new)>(h: map<K, int>, ks: set<K>): int
    requires ks <= h.Keys
  {
    if ks == {} then 0
    else
      var k :| k in ks;
      h[k] + SumOver(h, ks - {k})
  }

  /** Sum of all values of a map. */
  ghost function SumValues<K(!new)>(h: map<K, int>): int {
    SumOver(h, h.Keys)
  }

  /** Any key may be taken out first. */
  lemma SumOverRemove<K(!new)>(h: map<K, int>, ks: set<K>, k: K)
    requires ks <= h.Keys && k in ks
    ensures SumOver(h, ks) == h[k] + SumOver(h, ks - {k})
    decreases |ks|
  {
    var j :| j in ks && SumOver(h, ks) == h[j] + SumOver(h, ks - {j});
    if j != k {
      SumOverRemove(h, ks - {j}, k);
      SumOverRemove(h, ks - {k}, j);
      assert ks - {j} - {k} == ks - {k} - {j};
    }
  }

  /** Maps that agree on `ks` have the same sum over `ks`. */
  lemma SumOverAgree<K(!new)>(h: map<K, int>, g: map<K, int>, ks: set<K>)
    requires ks <= h.Keys && ks <= g.Keys
    requires forall k :: k in ks ==> h[k] == g[k]
    ensures SumOver(h, ks) == SumOver(g, ks)
    decreases |ks|
  {
    if ks != {} {
      var k :| k in ks;
      SumOverRemove(h, ks, k);
      SumOverRemove(g, ks, k);
      SumOverAgree(h, g, ks - {k});
    }
  }

  /** Every stored value is at least one: only incremented keys exist. */
  lemma HistogramValuesPositive<K(!new)>(keys: seq<K>)
    ensures forall k :: k in Histogram(keys) ==> Histogram(keys)[k] >= 1
  {
    HistogramCounts(keys);
  }

  /** The stored values add up to the number of keys visited. */
  lemma {:induction false} HistogramTotal<K(!new)>(keys: seq<K>)
    ensures SumValues(Histogram(keys)) == |keys|
  {
    if |keys| > 0 {
      var n := |keys| - 1;
      var x := keys[n];
      var h := Histogram(keys[..n]);
      var h' := Histogram(keys);
      assert h' == Increment(h, x);
      HistogramCounts(keys[..n]);
      HistogramTotal(keys[..n]);
      SumOverRemove(h', h'.Keys, x);
      SumOverAgree(h', h, h'.Keys - {x});
      if x in h {
        assert h'.Keys == h.Keys;
        SumOverRemove(h, h.Keys, x);
      } else {
        assert h'.Keys - {x} == h.Keys;
      }
    }
  }

  /** Reordering the keys does not change the histogram. */
  lemma HistogramPermutation<K(!new)>(keys: seq<K>, keys': seq<K>)
    requires multiset(keys) == multiset(keys')
    ensures Histogram(keys) == Histogram(keys')
  {
    HistogramCounts(keys);
    HistogramCounts(keys');
  }
}
