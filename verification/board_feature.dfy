/** The independent board features a board evaluator can report. */
module FeatureType {
  datatype BoardFeature =
    | AceHigh
    | OnePair
    | TwoPair
    | ThreeToFlush
    | ThreeToStraight
    | ThreeToOpenEndedStraight
    | FourToFlush
    | FourToStraight
}
