/** The hand-gesture trigger: `isPeace` reads the image-plane y coordinates
    (smaller is higher) of the 21 hand landmarks that the hand-pose model
    reports for a video frame. */
module Gesture {

  /** One landmark as the hand-pose model reports it: `[x, y, z]`. */
  datatype Point = Point(x: real, y: real, z: real)

  /** One hand prediction: its `landmarks` list. */
  datatype Hand = Hand(landmarks: seq<Point>)

  /** The outcome of evaluating `isPeace`: a Boolean, or the TypeError thrown
      by reading `[1]` of a landmark index the list does not have. */
  datatype Verdict = Value(peace: bool) | TypeError

  /** The number of landmarks in a hand-pose prediction. */
  const HandLandmarks: nat := 21

  // Landmark indices of the hand-pose model used by the rule.
  const IndexPip: nat := 6
  const IndexTip: nat := 8
  const MiddlePip: nat := 10
  const MiddleTip: nat := 12
  const RingPip: nat := 14
  const RingTip: nat := 16
  const PinkyPip: nat := 18
  const PinkyTip: nat := 20

  /** The peace sign on a complete hand: index and middle fingertips above
      their middle joints, ring and pinky fingertips below theirs. */
  ghost predicate PeaceShape(lm: seq<Point>)
    requires |lm| >= HandLandmarks
  {
    && lm[IndexTip].y < lm[IndexPip].y
    && lm[MiddleTip].y < lm[MiddlePip].y
    && lm[RingTip].y > lm[RingPip].y
    && lm[PinkyTip].y > lm[PinkyPip].y
  }

  /** `isPeace(landmarks)`, evaluated the way `&&` does it: left to right,
      stopping at the first false comparison, and throwing when a tip index
      it reaches is missing (each tip is read before the lower joint it is
      compared with, and every joint index is below its tip). */
  function IsPeace(lm: seq<Point>): (v: Verdict)
    ensures |lm| >= HandLandmarks ==> v == Value(PeaceShape(lm))
    ensures v == Value(true) ==> |lm| >= HandLandmarks
    ensures v == TypeError ==> |lm| < HandLandmarks
    ensures |lm| <= IndexTip ==> v == TypeError
  {
    if |lm| <= IndexTip then TypeError
    else if !(lm[IndexTip].y < lm[IndexPip].y) then Value(false)
    else if |lm| <= MiddleTip then TypeError
    else if !(lm[MiddleTip].y < lm[MiddlePip].y) then Value(false)
    else if |lm| <= RingTip then TypeError
    else if !(lm[RingTip].y > lm[RingPip].y) then Value(false)
    else if |lm| <= PinkyTip then TypeError
    else Value(lm[PinkyTip].y > lm[PinkyPip].y)
  }

  /** The same hand moved up or down by `dy` in the frame. */
  function ShiftY(lm: seq<Point>, dy: real): (r: seq<Point>)
    ensures |r| == |lm|
    ensures forall k :: 0 <= k < |lm| ==> r[k] == lm[k].(y := lm[k].y + dy)
  {
    seq(|lm|, k requires 0 <= k < |lm| => lm[k].(y := lm[k].y + dy))
  }

  /** The same hand mirrored top to bottom. */
  function FlipY(lm: seq<Point>): (r: seq<Point>)
    ensures |r| == |lm|
    ensures forall k :: 0 <= k < |lm| ==> r[k] == lm[k].(y := -lm[k].y)
  {
    seq(|lm|, k requires 0 <= k < |lm| => lm[k].(y := -lm[k].y))
  }

  /** The rule depends only on relative heights: where the hand sits
      vertically in the frame does not change the verdict. */
  lemma PeaceIgnoresVerticalPosition(lm: seq<Point>, dy: real)
    ensures IsPeace(ShiftY(lm, dy)) == IsPeace(lm)
  {
  }

  /** A complete hand showing the peace sign upside down is not read as a
      peace sign. */
  lemma UpsideDownPeaceIsNot(lm: seq<Point>)
    requires IsPeace(lm) == Value(true)
    ensures IsPeace(FlipY(lm)) == Value(false)
  {
  }

  /** Only the y coordinates of the eight landmarks the rule names matter:
      two hands with the same length that agree on those give the same
      verdict. */
  lemma PeaceReadsEightHeights(a: seq<Point>, b: seq<Point>)
    requires |a| == |b|
    requires forall k :: k in {IndexPip, IndexTip, MiddlePip, MiddleTip, RingPip, RingTip, PinkyPip, PinkyTip} && k < |a| ==>
      a[k].y == b[k].y
    ensures IsPeace(a) == IsPeace(b)
  {
    assert IndexTip < |a| ==> a[IndexTip].y == b[IndexTip].y && a[IndexPip].y == b[IndexPip].y;
    assert MiddleTip < |a| ==> a[MiddleTip].y == b[MiddleTip].y && a[MiddlePip].y == b[MiddlePip].y;
    assert RingTip < |a| ==> a[RingTip].y == b[RingTip].y && a[RingPip].y == b[RingPip].y;
    assert PinkyTip < |a| ==> a[PinkyTip].y == b[PinkyTip].y && a[PinkyPip].y == b[PinkyPip].y;
  }
}
