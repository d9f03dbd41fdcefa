/**
  The board feature vector of Strategies/TightAggressive/BoardTypes/BoardFeatureVector.swift.
  It records six predicates of the per-predicate board evaluator, drops a
  feature another recorded feature subsumes, and names the few reduced sets
  the strategy knows.
*/
module BoardFeatureVector {
  import opened Optional
  import opened CardType
  import F = FeatureType
  import BoardEvaluators

  /** `BoardFeatureLabel`: the board textures the strategy distinguishes. */
  datatype BoardFeatureLabel =
    | OnePair
    | TwoPair
    | ThreeToFlush
    | ThreeToOpenEndedStraight
    | FourToFlush
    | FourToStraight
    | PossibleStraightPossibleFlush
    | FourToStraightOnePair
    | PossibleFlushOnePair

  /** The six features the vector records. */
  const Recorded: set<F.BoardFeature> :=
    {F.OnePair, F.TwoPair, F.ThreeToFlush, F.ThreeToOpenEndedStraight, F.FourToFlush, F.FourToStraight}

  /** `init(cards:)`: each recorded feature with the evaluator's answer for it. */
  function Vector(cards: seq<Card>): map<F.BoardFeature, bool> {
    VectorOf(
      BoardEvaluators.HasOnePair(cards),
      BoardEvaluators.HasTwoPair(cards),
      BoardEvaluators.HasThreeToFlush(cards),
      BoardEvaluators.HasThreeToOpenEndedStraight(cards),
      BoardEvaluators.HasFourToFlush(cards),
      BoardEvaluators.HasFourToStraight(cards))
  }

  /** The dictionary literal of `init(cards:)`, over the six answers. */
  function VectorOf(onePair: bool, twoPair: bool, threeToFlush: bool, threeToOpenEndedStraight: bool,
                    fourToFlush: bool, fourToStraight: bool): map<F.BoardFeature, bool> {
    map[
      F.OnePair := onePair,
      F.TwoPair := twoPair,
      F.ThreeToFlush := threeToFlush,
      F.ThreeToOpenEndedStraight := threeToOpenEndedStraight,
      F.FourToFlush := fourToFlush,
      F.FourToStraight := fourToStraight
    ]
  }

  /** `vector.filter(\.value).map(\.key)`, as a set. */
  function TrueFeatures(vector: map<F.BoardFeature, bool>): set<F.BoardFeature> {
    set f | f in vector && vector[f]
  }

  // Reduction.

  /**
    Feature `f` is subsumed by another one in `features`: four to a straight
    subsumes three to an open-ended straight, four to a flush subsumes three
    to a flush, and two pair subsumes one pair.
  */
  predicate Subsumed(f: F.BoardFeature, features: set<F.BoardFeature>) {
    || (f == F.ThreeToOpenEndedStraight && F.FourToStraight in features)
    || (f == F.ThreeToFlush && F.FourToFlush in features)
    || (f == F.OnePair && F.TwoPair in features)
  }

  /** `reducedFeatures()`: the three removals, in the source's order. */
  function Reduce(features: set<F.BoardFeature>): (reduced: set<F.BoardFeature>)
    ensures reduced <= features
    ensures forall f :: f in reduced <==> f in features && !Subsumed(f, features)
  {
    var a := if F.ThreeToOpenEndedStraight in features && F.FourToStraight in features
      then features - {F.ThreeToOpenEndedStraight} else features;
    var b := if F.ThreeToFlush in a && F.FourToFlush in a then a - {F.ThreeToFlush} else a;
    var c := if F.OnePair in b && F.TwoPair in b then b - {F.OnePair} else b;
    c
  }

  /** After reduction no subsumed pair of features is left. */
  lemma ReduceExclusions(features: set<F.BoardFeature>)
    ensures var r := Reduce(features);
      && !(F.ThreeToOpenEndedStraight in r && F.FourToStraight in r)
      && !(F.ThreeToFlush in r && F.FourToFlush in r)
      && !(F.OnePair in r && F.TwoPair in r)
  {
  }

  /** Reducing twice changes nothing more. */
  lemma ReduceIdempotent(features: set<F.BoardFeature>)
    ensures Reduce(Reduce(features)) == Reduce(features)
  {
    var r := Reduce(features);
    assert forall f :: f in r ==> !Subsumed(f, r);
  }

  // Labels.

  /** `label`: the cascade of comparisons of the reduced set with known sets. */
  function Label(features: set<F.BoardFeature>): Option<BoardFeatureLabel> {
    if features == {F.OnePair} then Some(OnePair)
    else if features == {F.TwoPair} then Some(TwoPair)
    else if features == {F.ThreeToFlush} then Some(ThreeToFlush)
    else if features == {F.ThreeToOpenEndedStraight} then Some(ThreeToOpenEndedStraight)
    else if features == {F.FourToFlush} then Some(FourToFlush)
    else if features == {F.FourToStraight} then Some(FourToStraight)
    else if features == {F.FourToStraight, F.OnePair} then Some(FourToStraightOnePair)
    else if features == {F.OnePair, F.ThreeToFlush} || features == {F.OnePair, F.FourToFlush} then
      Some(PossibleFlushOnePair)
    else if || features == {F.ThreeToOpenEndedStraight, F.ThreeToFlush}
            || features == {F.ThreeToOpenEndedStraight, F.FourToFlush}
            || features == {F.FourToStraight, F.ThreeToFlush}
            || features == {F.FourToStraight, F.FourToFlush} then
      Some(PossibleStraightPossibleFlush)
    else None
  }

  /** The label a feature has on its own: the one of the same name. */
  function SameName(f: F.BoardFeature): Option<BoardFeatureLabel> {
    match f
    case OnePair => Some(OnePair)
    case TwoPair => Some(TwoPair)
    case ThreeToFlush => Some(ThreeToFlush)
    case ThreeToOpenEndedStraight => Some(ThreeToOpenEndedStraight)
    case FourToFlush => Some(FourToFlush)
    case FourToStraight => Some(FourToStraight)
    case _ => None
  }

  /**
    The sets named by each label, read off the label's meaning: a lone
    feature names itself; a straight draw with a flush draw, a flush draw
    with one pair, and four to a straight with one pair name the mixed labels.
  */
  function Named(name: BoardFeatureLabel): set<set<F.BoardFeature>> {
    var straightDraws := {F.ThreeToOpenEndedStraight, F.FourToStraight};
    var flushDraws := {F.ThreeToFlush, F.FourToFlush};
    match name
    case PossibleStraightPossibleFlush => set s, f | s in straightDraws && f in flushDraws :: {s, f}
    case PossibleFlushOnePair => set f | f in flushDraws :: {F.OnePair, f}
    case FourToStraightOnePair => {{F.FourToStraight, F.OnePair}}
    case _ => set f | f in Recorded && SameName(f) == Some(name) :: {f}
  }

  /** Each singleton of a recorded feature has the label of the same name. */
  lemma SingletonsKeepTheirName(f: F.BoardFeature)
    requires f in Recorded
    ensures Label({f}) == SameName(f)
  {
  }

  /** A set gets label `name` exactly when `name` names it, and no label exactly when none names it. */
  lemma LabelMatchesNamed(features: set<F.BoardFeature>, name: BoardFeatureLabel)
    ensures Label(features) == Some(name) <==> features in Named(name)
  {
    if Label(features) == Some(name) {
      LabelledIsNamed(features, name);
    }
    if features in Named(name) {
      NamedIsLabelled(features, name);
    }
  }

  /** A set carrying label `name` is one of the sets `name` names. */
  lemma LabelledIsNamed(features: set<F.BoardFeature>, name: BoardFeatureLabel)
    requires Label(features) == Some(name)
    ensures features in Named(name)
  {
    match name
    case PossibleStraightPossibleFlush =>
    case PossibleFlushOnePair =>
    case FourToStraightOnePair =>
    case _ =>
      var f :| features == {f} && f in Recorded && SameName(f) == Some(name);
  }

  /** Each set `name` names carries label `name`. */
  lemma NamedIsLabelled(features: set<F.BoardFeature>, name: BoardFeatureLabel)
    requires features in Named(name)
    ensures Label(features) == Some(name)
  {
    match name
    case PossibleStraightPossibleFlush =>
    case PossibleFlushOnePair =>
    case FourToStraightOnePair =>
    case _ =>
      var f :| features == {f} && f in Recorded && SameName(f) == Some(name);
      SingletonsKeepTheirName(f);
  }

  /** The empty set, and two pair with a flush draw, get no label. */
  lemma SomeSetsUnlabelled()
    ensures Label({}) == None
    ensures Label({F.TwoPair, F.ThreeToFlush}) == None
    ensures Label({F.TwoPair, F.FourToFlush}) == None
  {
  }

  // The vector of a board.

  /** `label` of the vector built from `cards`. */
  function BoardLabel(cards: seq<Card>): Option<BoardFeatureLabel> {
    Label(Reduce(TrueFeatures(Vector(cards))))
  }

  /** The vector's true features are the recorded features whose predicate holds. */
  lemma VectorFeatures(cards: seq<Card>)
    ensures forall f :: f in TrueFeatures(Vector(cards)) <==>
      || (f == F.OnePair && BoardEvaluators.HasOnePair(cards))
      || (f == F.TwoPair && BoardEvaluators.HasTwoPair(cards))
      || (f == F.ThreeToFlush && BoardEvaluators.HasThreeToFlush(cards))
      || (f == F.ThreeToOpenEndedStraight && BoardEvaluators.HasThreeToOpenEndedStraight(cards))
      || (f == F.FourToFlush && BoardEvaluators.HasFourToFlush(cards))
      || (f == F.FourToStraight && BoardEvaluators.HasFourToStraight(cards))
  {
    VectorOfFeatures(
      BoardEvaluators.HasOnePair(cards),
      BoardEvaluators.HasTwoPair(cards),
      BoardEvaluators.HasThreeToFlush(cards),
      BoardEvaluators.HasThreeToOpenEndedStraight(cards),
      BoardEvaluators.HasFourToFlush(cards),
      BoardEvaluators.HasFourToStraight(cards));
  }

  lemma VectorOfFeatures(onePair: bool, twoPair: bool, threeToFlush: bool, threeToOpenEndedStraight: bool,
                         fourToFlush: bool, fourToStraight: bool)
    ensures forall f :: f in TrueFeatures(VectorOf(onePair, twoPair, threeToFlush, threeToOpenEndedStraight,
                                                   fourToFlush, fourToStraight)) <==>
      || (f == F.OnePair && onePair)
      || (f == F.TwoPair && twoPair)
      || (f == F.ThreeToFlush && threeToFlush)
      || (f == F.ThreeToOpenEndedStraight && threeToOpenEndedStraight)
      || (f == F.FourToFlush && fourToFlush)
      || (f == F.FourToStraight && fourToStraight)
  {
  }

  /** With no open-ended draw and neither both flush draws nor both pair counts, the reduction changes nothing. */
  lemma ReductionInert(features: set<F.BoardFeature>)
    requires F.ThreeToOpenEndedStraight !in features
    requires !(F.ThreeToFlush in features && F.FourToFlush in features)
    requires !(F.OnePair in features && F.TwoPair in features)
    ensures Reduce(features) == features
  {
  }

  /**
    On real boards the reduction never fires: the evaluator never reports
    three to an open-ended straight, and its flush and pair predicates
    exclude each other.
  */
  lemma ReductionInertOnBoards(cards: seq<Card>)
    ensures Reduce(TrueFeatures(Vector(cards))) == TrueFeatures(Vector(cards))
  {
    VectorFeatures(cards);
    BoardEvaluators.PairsExclusive(cards);
    BoardEvaluators.FlushesExclusive(cards);
    ReductionInert(TrueFeatures(Vector(cards)));
  }

  /** The open-ended label is unreachable, and a straight with a flush needs four to a straight. */
  lemma OpenEndedLabelUnreachable(cards: seq<Card>)
    ensures BoardLabel(cards) != Some(ThreeToOpenEndedStraight)
    ensures BoardLabel(cards) == Some(PossibleStraightPossibleFlush) ==> BoardEvaluators.HasFourToStraight(cards)
  {
    ReductionInertOnBoards(cards);
    VectorFeatures(cards);
    var fs := TrueFeatures(Vector(cards));
    NoOpenEndedLabel(fs);
  }

  lemma NoOpenEndedLabel(features: set<F.BoardFeature>)
    requires F.ThreeToOpenEndedStraight !in features
    ensures Label(features) != Some(ThreeToOpenEndedStraight)
    ensures Label(features) == Some(PossibleStraightPossibleFlush) ==> F.FourToStraight in features
  {
  }
}
