/**
 * Landmark-to-gesture classification: finger-state extraction from the 21
 * hand landmarks (a strict and a tolerant variant), the ordered rule table
 * that turns five finger flags into a gesture label and a confidence, and
 * the per-frame entry point that classifies the first detected hand.
 */
module Classifier {
  import opened Wrappers
  import opened Config

  /** One hand keypoint in normalised image coordinates (y grows downward). */
  datatype Landmark = Landmark(x: real, y: real, z: real)

  /** A classifier verdict: a gesture label or `None`, and a confidence. */
  datatype Classification = Classification(gesture: Option<string>, confidence: real)

  /** The verdict for input that cannot be classified. */
  const Unrecognised: Classification := Classification(None, 0.0)

  /** A hand pose has 21 landmarks; index 20 (the pinky tip) is the highest one read. */
  const LandmarkCount: nat := 21

  const ThumbTip: nat := 4
  const ThumbBase: nat := 2

  /** The (tip, base) landmark indices of the index, middle, ring and pinky fingers. */
  const FingerJoints: seq<(nat, nat)> := [(8, 5), (12, 9), (16, 13), (20, 17)]

  /** The margin the tolerant extractor adds to every base coordinate. */
  const Tolerance: real := 0.02

  // ---------------------------------------------------------------------
  // Finger-state extraction

  /** The strict finger flags: thumb tip right of its base, other tips above theirs. */
  function StrictFingers(hand: seq<Landmark>): (f: seq<bool>)
    requires |hand| >= LandmarkCount
    ensures |f| == 5
    ensures f[0] == (hand[4].x > hand[2].x)
    ensures f[1] == (hand[8].y < hand[5].y)
    ensures f[2] == (hand[12].y < hand[9].y)
    ensures f[3] == (hand[16].y < hand[13].y)
    ensures f[4] == (hand[20].y < hand[17].y)
  {
    [hand[ThumbTip].x > hand[ThumbBase].x] +
    seq(|FingerJoints|, k requires 0 <= k < |FingerJoints| =>
      hand[FingerJoints[k].0].y < hand[FingerJoints[k].1].y)
  }

  /** The tolerant finger flags: thumb tip left of its base plus the margin,
    * other tips above their base plus the margin. */
  function TolerantFingers(hand: seq<Landmark>): (f: seq<bool>)
    requires |hand| >= LandmarkCount
    ensures |f| == 5
    ensures f[0] == (hand[4].x < hand[2].x + 0.02)
    ensures f[1] == (hand[8].y < hand[5].y + 0.02)
    ensures f[2] == (hand[12].y < hand[9].y + 0.02)
    ensures f[3] == (hand[16].y < hand[13].y + 0.02)
    ensures f[4] == (hand[20].y < hand[17].y + 0.02)
  {
    [hand[ThumbTip].x < hand[ThumbBase].x + Tolerance] +
    seq(|FingerJoints|, k requires 0 <= k < |FingerJoints| =>
      hand[FingerJoints[k].0].y < hand[FingerJoints[k].1].y + Tolerance)
  }

  /** `_classify_gesture`: strict extraction, then the rule table; a hand
    * with too few landmarks raises an IndexError that is caught. */
  method ClassifyGesture(landmarks: seq<Landmark>) returns (c: Classification)
    ensures |landmarks| < LandmarkCount ==> c == Unrecognised
    ensures |landmarks| >= LandmarkCount ==> c == IdentifyGesture(StrictFingers(landmarks))
  {
    if |landmarks| < LandmarkCount {
      return Unrecognised;
    }
    var fingers := [landmarks[ThumbTip].x > landmarks[ThumbBase].x];
    var k := 0;
    while k < |FingerJoints|
      invariant 0 <= k <= |FingerJoints|
      invariant fingers == StrictFingers(landmarks)[..k + 1]
    {
      var (tip, base) := FingerJoints[k];
      fingers := fingers + [landmarks[tip].y < landmarks[base].y];
      k := k + 1;
    }
    assert fingers == StrictFingers(landmarks);
    c := IdentifyGesture(fingers);
  }

  /** `detect_gesture`: an empty hand is unrecognised, anything else goes
    * through the strict classifier. */
  method DetectGesture(hand: seq<Landmark>) returns (c: Classification)
    ensures |hand| == 0 ==> c == Unrecognised
    ensures |hand| < LandmarkCount ==> c == Unrecognised
    ensures |hand| >= LandmarkCount ==> c == IdentifyGesture(StrictFingers(hand))
  {
    if |hand| == 0 {
      return Unrecognised;
    }
    c := ClassifyGesture(hand);
  }

  /** `detect_gesture_debug`: tolerant extraction, then the rule table; it
    * also returns the finger flags, all false when the hand is malformed. */
  method DetectGestureDebug(hand: seq<Landmark>) returns (c: Classification, fingers: seq<bool>)
    ensures |hand| < LandmarkCount ==> c == Unrecognised && fingers == [false, false, false, false, false]
    ensures |hand| >= LandmarkCount ==> fingers == TolerantFingers(hand) && c == IdentifyGesture(fingers)
  {
    if |hand| < LandmarkCount {
      return Unrecognised, [false, false, false, false, false];
    }
    fingers := [hand[ThumbTip].x < hand[ThumbBase].x + Tolerance];
    var k := 0;
    while k < |FingerJoints|
      invariant 0 <= k <= |FingerJoints|
      invariant fingers == TolerantFingers(hand)[..k + 1]
    {
      var (tip, base) := FingerJoints[k];
      fingers := fingers + [hand[tip].y < hand[base].y + Tolerance];
      k := k + 1;
    }
    assert fingers == TolerantFingers(hand);
    c := IdentifyGesture(fingers);
  }

  /** The verdict `detect_gesture_debug` returns for a hand. */
  function TolerantClassification(hand: seq<Landmark>): (c: Classification) {
    if |hand| < LandmarkCount then Unrecognised else IdentifyGesture(TolerantFingers(hand))
  }

  /** For the four fingers, a strict "extended" is also a tolerant one. */
  lemma StrictImpliesTolerant(hand: seq<Landmark>)
    requires |hand| >= LandmarkCount
    ensures forall i :: 1 <= i < 5 && StrictFingers(hand)[i] ==> TolerantFingers(hand)[i]
  {
  }

  /** The two extractors compare the thumb in opposite directions: they never
    * both call it folded, and they agree only inside the 0.02 band. */
  lemma ThumbVariantsOpposed(hand: seq<Landmark>)
    requires |hand| >= LandmarkCount
    ensures StrictFingers(hand)[0] || TolerantFingers(hand)[0]
    ensures StrictFingers(hand)[0] == TolerantFingers(hand)[0] <==>
      hand[2].x < hand[4].x < hand[2].x + 0.02
  {
  }

  // ---------------------------------------------------------------------
  // The gesture rule table

  /** Python's `sum` over a list of booleans. */
  function CountTrue(s: seq<bool>): (n: nat)
    ensures n <= |s|
    ensures n == 0 <==> forall i :: 0 <= i < |s| ==> !s[i]
    ensures n == |s| <==> forall i :: 0 <= i < |s| ==> s[i]
  {
    if s == [] then 0 else (if s[0] then 1 else 0) + CountTrue(s[1..])
  }

  /** The count is the number of occurrences of `true` in the flags. */
  lemma {:induction false} CountTrueIsMultiplicity(s: seq<bool>)
    ensures CountTrue(s) == multiset(s)[true]
    decreases |s|
  {
    if s != [] {
      CountTrueIsMultiplicity(s[1..]);
      assert s == [s[0]] + s[1..];
      assert multiset(s) == multiset{s[0]} + multiset(s[1..]);
    }
  }

  /** Python's `any` over a list of booleans. */
  predicate AnyTrue(s: seq<bool>) {
    exists i :: 0 <= i < |s| && s[i]
  }

  /** Index and middle extended, ring and pinky folded. */
  predicate TwoFingersShape(f: seq<bool>) requires |f| == 5 {
    f[1] && f[2] && !f[3] && !f[4]
  }

  /** Index and pinky extended, middle and ring folded. */
  predicate RockShape(f: seq<bool>) requires |f| == 5 {
    f[1] && f[4] && !f[2] && !f[3]
  }

  /** The vectors no rule matches: thumb folded, one or two fingers
    * extended, and neither two-finger shape. */
  predicate Unmatched(f: seq<bool>) requires |f| == 5 {
    !f[0] && 1 <= CountTrue(f) <= 2 && !TwoFingersShape(f) && !RockShape(f)
  }

  /** `_identify_gesture`: the first matching rule wins. */
  function IdentifyGesture(f: seq<bool>): (r: Classification)
    requires |f| == 5
    ensures r.gesture.None? <==> r.confidence == 0.0
    ensures r.gesture.None? <==> Unmatched(f)
    ensures r.gesture.Some? ==> InTable(r.gesture)
    ensures r.gesture.Some? ==> r.confidence in {0.80, 0.82, 0.85, 0.88, 0.90, 0.95}
  {
    var extendedCount := CountTrue(f);
    if extendedCount == 5 then Classification(Some(OpenHand), 0.95)
    else if extendedCount == 0 then Classification(Some(ClosedFist), 0.90)
    else if f[0] && !AnyTrue(f[1..]) then Classification(Some(ThumbsUp), 0.85)
    else if TwoFingersShape(f) then Classification(Some(TwoFingers), 0.88)
    else if RockShape(f) then Classification(Some(RockSign), 0.82)
    else if f[0] && CountTrue(f[1..]) <= 1 then Classification(Some(ThumbsUp), 0.80)
    else if extendedCount >= 3 then Classification(Some(OpenHand), 0.85)
    else Unrecognised
  }

  /** Rule 1: every finger extended is an open hand. */
  lemma AllExtendedIsOpenHand(f: seq<bool>)
    requires |f| == 5 && forall i :: 0 <= i < 5 ==> f[i]
    ensures IdentifyGesture(f) == Classification(Some(OpenHand), 0.95)
  {
  }

  /** Rule 2: no finger extended is a closed fist. */
  lemma NoneExtendedIsFist(f: seq<bool>)
    requires |f| == 5 && forall i :: 0 <= i < 5 ==> !f[i]
    ensures IdentifyGesture(f) == Classification(Some(ClosedFist), 0.90)
  {
  }

  /** Rule 3: the thumb alone is a thumbs-up. */
  lemma ThumbOnlyIsThumbsUp()
    ensures IdentifyGesture([true, false, false, false, false]) == Classification(Some(ThumbsUp), 0.85)
  {
  }

  /** Rule 4: index and middle up, ring and pinky down, whatever the thumb. */
  lemma TwoFingersAnyThumb(f: seq<bool>)
    requires |f| == 5 && TwoFingersShape(f)
    ensures IdentifyGesture(f) == Classification(Some(TwoFingers), 0.88)
  {
  }

  /** In particular thumb, index and middle up is two fingers, not the
    * three-finger fallback. */
  lemma ThumbIndexMiddleIsTwoFingers()
    ensures IdentifyGesture([true, true, true, false, false]) == Classification(Some(TwoFingers), 0.88)
  {
  }

  /** Rule 5: index and pinky up, middle and ring down, whatever the thumb. */
  lemma RockAnyThumb(f: seq<bool>)
    requires |f| == 5 && RockShape(f)
    ensures IdentifyGesture(f) == Classification(Some(RockSign), 0.82)
  {
  }

  /** Rule 6: the thumb with exactly one other finger is a weaker thumbs-up. */
  lemma ThumbNearMiss(f: seq<bool>)
    requires |f| == 5 && f[0] && CountTrue(f[1..]) == 1
    ensures IdentifyGesture(f) == Classification(Some(ThumbsUp), 0.80)
  {
  }

  /** Rule 7: three or four fingers not matched by a two-finger shape are a
    * weaker open hand, below the confidence of all five. */
  lemma SemiOpenFallback(f: seq<bool>)
    requires |f| == 5 && 3 <= CountTrue(f) <= 4 && !TwoFingersShape(f) && !RockShape(f)
    ensures IdentifyGesture(f) == Classification(Some(OpenHand), 0.85)
    ensures IdentifyGesture(f).confidence < 0.95
  {
  }

  /** Every label the classifier produces passes the camera loop's
    * confidence threshold for that label. */
  lemma ClassifiedPassesThreshold(f: seq<bool>)
    requires |f| == 5 && IdentifyGesture(f).gesture.Some?
    ensures IdentifyGesture(f).confidence >= MinConfidence(IdentifyGesture(f).gesture.value)
  {
  }

  // ---------------------------------------------------------------------
  // Per-frame processing

  /** A captured image; only whether it holds any pixels matters here. */
  datatype Frame = Frame(pixels: seq<int>)

  /** `frame is not None and frame.size > 0`. */
  predicate FrameValid(frame: Option<Frame>) {
    frame.Some? && |frame.value.pixels| > 0
  }

  /** What `process_frame` returns: the (annotated) frame, label and confidence. */
  datatype Processed = Processed(frame: Option<Frame>, gesture: Option<string>, confidence: real)

  /** `process_frame` as a function. `hands` is the landmark estimator's list
    * of hands, or `None` when conversion or estimation raised. */
  function ProcessFrameSpec(frame: Option<Frame>, hands: Option<seq<seq<Landmark>>>): (p: Processed)
    ensures p.frame == frame
    ensures p.gesture.None? <==> p.confidence == 0.0
    ensures p.gesture.Some? ==> InTable(p.gesture) && p.confidence >= DefaultMinConfidence
    ensures p.gesture.Some? ==>
      FrameValid(frame) && hands.Some? && |hands.value| > 0 && |hands.value[0]| >= LandmarkCount &&
      Classification(p.gesture, p.confidence) == IdentifyGesture(TolerantFingers(hands.value[0]))
    ensures FrameValid(frame) && hands.Some? && |hands.value| > 0 ==>
      Classification(p.gesture, p.confidence) == TolerantClassification(hands.value[0])
  {
    if !FrameValid(frame) || hands.None? || |hands.value| == 0 then
      Processed(frame, None, 0.0)
    else
      var c := TolerantClassification(hands.value[0]);
      Processed(frame, c.gesture, c.confidence)
  }

  /** `process_frame`: classify the first hand only, with the tolerant extractor. */
  method ProcessFrame(frame: Option<Frame>, hands: Option<seq<seq<Landmark>>>) returns (p: Processed)
    ensures p == ProcessFrameSpec(frame, hands)
  {
    if !FrameValid(frame) {
      return Processed(frame, None, 0.0);
    }
    p := Processed(frame, None, 0.0);
    if hands.Some? && |hands.value| > 0 {
      var c, _ := DetectGestureDebug(hands.value[0]);
      p := Processed(frame, c.gesture, c.confidence);
    }
  }
}
