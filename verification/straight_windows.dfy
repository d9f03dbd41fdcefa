/**
  The ten five-rank straight windows of Evaluators/Utils.swift, from
  ace-to-five (the ace counted low) up to ten-to-ace (the ace counted high),
  and `isNToStraight`, which asks whether some window shares at least `n`
  distinct ranks with the given ranks.
*/
module StraightWindows {
  import opened RankType
  import SetFacts

  /** `possibleStraights`, in the order the scan visits them. */
  const PossibleStraights: seq<set<Rank>> := [
    {Ace, Two, Three, Four, Five},
    {Two, Three, Four, Five, Six},
    {Three, Four, Five, Six, Seven},
    {Four, Five, Six, Seven, Eight},
    {Five, Six, Seven, Eight, Nine},
    {Six, Seven, Eight, Nine, Ten},
    {Seven, Eight, Nine, Ten, Jack},
    {Eight, Nine, Ten, Jack, Queen},
    {Nine, Ten, Jack, Queen, King},
    {Ten, Jack, Queen, King, Ace}
  ]

  /**
    The scan over `windows`, in order: true at the first window whose
    intersection with `ranks` has at least `n` elements.
  */
  function AnyWindow(n: int, ranks: set<Rank>, windows: seq<set<Rank>>): bool {
    if |windows| == 0 then false
    else if |ranks * windows[0]| >= n then true
    else AnyWindow(n, ranks, windows[1..])
  }

  /** `isNToStraight(n, ranks:)`: deduplicate the ranks, then scan every window. */
  function IsNToStraight(n: int, ranks: seq<Rank>): bool {
    AnyWindow(n, (set r | r in ranks), PossibleStraights)
  }

  /** Some window shares at least `n` ranks with `ranks`. */
  ghost predicate SharesWithSomeWindow(n: int, ranks: set<Rank>) {
    exists i :: 0 <= i < |PossibleStraights| && |ranks * PossibleStraights[i]| >= n
  }

  /** The scan succeeds exactly when some window qualifies. */
  lemma {:induction false} AnyWindowIff(n: int, ranks: set<Rank>, windows: seq<set<Rank>>)
    ensures AnyWindow(n, ranks, windows) <==>
      exists j :: 0 <= j < |windows| && |ranks * windows[j]| >= n
  {
    if |windows| > 0 {
      AnyWindowIff(n, ranks, windows[1..]);
      if exists j :: 0 <= j < |windows| && |ranks * windows[j]| >= n {
        var j :| 0 <= j < |windows| && |ranks * windows[j]| >= n;
        if j > 0 {
          assert windows[1..][j - 1] == windows[j];
        }
      }
    }
  }

  /** `isNToStraight` holds exactly when some window shares at least `n` distinct ranks with the input. */
  lemma IsNToStraightIff(n: int, ranks: seq<Rank>)
    ensures IsNToStraight(n, ranks) <==> SharesWithSomeWindow(n, set r | r in ranks)
  {
    AnyWindowIff(n, (set r | r in ranks), PossibleStraights);
  }

  /** There are ten windows of five distinct ranks each. */
  lemma WindowCardinality()
    ensures |PossibleStraights| == 10
    ensures forall i :: 0 <= i < |PossibleStraights| ==> |PossibleStraights[i]| == 5
  {
  }

  /**
    Window `i` holds the ranks with raw values `i + 1` to `i + 5`, the ace
    standing for 1 in the first window; so the ace belongs to the first and
    the last window.
  */
  lemma WindowContents()
    ensures forall i, r :: 0 <= i < |PossibleStraights| ==>
      (r in PossibleStraights[i] <==> i + 1 <= RawValue(r) <= i + 5 || (i == 0 && r == Ace))
    ensures Ace in PossibleStraights[0] && Ace in PossibleStraights[9]
  {
  }

  /** Duplicated ranks do not change the answer: only the set of ranks matters. */
  lemma DuplicatesIrrelevant(n: int, ranks: seq<Rank>, ranks': seq<Rank>)
    requires forall r :: r in ranks <==> r in ranks'
    ensures IsNToStraight(n, ranks) == IsNToStraight(n, ranks')
  {
    assert (set r | r in ranks) == (set r | r in ranks');
  }

  /** Monotone in `n`: an answer true for `n` is true for every smaller `m`. */
  lemma Monotone(n: int, m: int, ranks: seq<Rank>)
    requires m <= n && IsNToStraight(n, ranks)
    ensures IsNToStraight(m, ranks)
  {
    IsNToStraightIff(n, ranks);
    IsNToStraightIff(m, ranks);
  }

  /** Always true for `n <= 0`; always false for `n >= 6`, since a window has five ranks. */
  lemma Extremes(n: int, ranks: seq<Rank>)
    ensures n <= 0 ==> IsNToStraight(n, ranks)
    ensures n >= 6 ==> !IsNToStraight(n, ranks)
  {
    IsNToStraightIff(n, ranks);
    WindowCardinality();
    var u := set r | r in ranks;
    forall i | 0 <= i < |PossibleStraights| ensures |u * PossibleStraights[i]| <= 5 {
      SetFacts.SubsetCardinality(u * PossibleStraights[i], PossibleStraights[i]);
    }
    if n <= 0 {
      assert |u * PossibleStraights[0]| >= n;
    }
  }
}
