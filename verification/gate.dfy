/**
 * The hold-and-cooldown gate of the gesture detector: it tracks the gesture
 * currently held, when that gesture was first seen, and when an action last
 * fired, and it allows an action only for a gesture held for the hold time
 * once the cooldown has passed. The program defines this gate; its camera
 * loop does not call it (that loop has its own gate, in CameraLoop).
 */
module Gate {
  import opened Wrappers

  /** Seconds between two actions. */
  const ActionCooldown: real := 2.0

  /** Seconds a gesture must be held before it may fire. */
  const GestureHoldTime: real := 1.0

  /** The gate's fields: `current_gesture`, `gesture_start_time`, `last_action_time`. */
  datatype GateState = GateState(current: Option<string>, start: Option<real>, last: real)

  /** The state `__init__` sets up. */
  const InitialGate: GateState := GateState(None, None, 0.0)

  /** Python's truth value of `gesture_start_time`: `None` and `0.0` are false. */
  predicate StartTruthy(start: Option<real>) {
    start.Some? && start.value != 0.0
  }

  /** `should_execute_action` on the gate state, with the clock reading `now`
    * as a parameter: the new state and whether an action fires. The
    * confidence argument of the source is not consulted. */
  function GateStep(s: GateState, gesture: Option<string>, now: real): (r: (GateState, bool)) {
    if gesture != s.current then
      (s.(current := gesture, start := Some(now)), false)
    else if StartTruthy(s.start) && now - s.start.value >= GestureHoldTime
         && now - s.last >= ActionCooldown then
      (s.(last := now), true)
    else
      (s, false)
  }

  /** One call of the gate: the classifier's gesture and confidence, and the time. */
  datatype Observation = Observation(gesture: Option<string>, confidence: real, now: real)

  /** Feeding a sequence of observations to the gate: the final state and the
    * times at which an action fired, in order. */
  function GateRun(s: GateState, obs: seq<Observation>): (r: (GateState, seq<real>))
    decreases |obs|
  {
    if obs == [] then (s, [])
    else
      var (s1, fire) := GateStep(s, obs[0].gesture, obs[0].now);
      var (sf, fires) := GateRun(s1, obs[1..]);
      (sf, if fire then [obs[0].now] + fires else fires)
  }

  /** Every firing is at least the cooldown after the gate's last action
    * time, and any two firings are at least the cooldown apart, whatever
    * the order of the clock readings. */
  lemma {:induction false} CooldownBetweenFires(s: GateState, obs: seq<Observation>)
    ensures forall k :: 0 <= k < |GateRun(s, obs).1| ==> s.last + ActionCooldown <= GateRun(s, obs).1[k]
    ensures forall i, j :: 0 <= i < j < |GateRun(s, obs).1| ==>
      GateRun(s, obs).1[i] + ActionCooldown <= GateRun(s, obs).1[j]
    decreases |obs|
  {
    if obs != [] {
      var (s1, fire) := GateStep(s, obs[0].gesture, obs[0].now);
      CooldownBetweenFires(s1, obs[1..]);
      var rest := GateRun(s1, obs[1..]).1;
      if fire {
        assert s1.last == obs[0].now;
        assert GateRun(s, obs).1 == [obs[0].now] + rest;
      } else {
        assert s1.last == s.last;
        assert GateRun(s, obs).1 == rest;
      }
    }
  }

  /** While the tracked gesture keeps being observed, the tracked gesture and
    * its start time do not change, and every firing is at least the hold
    * time after that start. */
  lemma {:induction false} HeldRunFiresAfterHold(s: GateState, g: Option<string>, t0: real, obs: seq<Observation>)
    requires s.current == g && s.start == Some(t0)
    requires forall k :: 0 <= k < |obs| ==> obs[k].gesture == g
    ensures GateRun(s, obs).0.current == g && GateRun(s, obs).0.start == Some(t0)
    ensures forall k :: 0 <= k < |GateRun(s, obs).1| ==> t0 + GestureHoldTime <= GateRun(s, obs).1[k]
    decreases |obs|
  {
    if obs != [] {
      var (s1, fire) := GateStep(s, obs[0].gesture, obs[0].now);
      HeldRunFiresAfterHold(s1, g, t0, obs[1..]);
    }
  }

  /** A newly observed gesture starts a run: the observation that changes the
    * gesture never fires, and as long as the same gesture keeps being
    * observed no action fires earlier than the hold time after that first
    * observation. */
  lemma HoldCountsFromChange(s: GateState, g: Option<string>, c: real, t0: real, rest: seq<Observation>)
    requires g != s.current
    requires forall k :: 0 <= k < |rest| ==> rest[k].gesture == g
    ensures forall k :: 0 <= k < |GateRun(s, [Observation(g, c, t0)] + rest).1| ==>
      t0 + GestureHoldTime <= GateRun(s, [Observation(g, c, t0)] + rest).1[k]
  {
    var obs := [Observation(g, c, t0)] + rest;
    assert obs[1..] == rest;
    var s1 := GateStep(s, g, t0).0;
    HeldRunFiresAfterHold(s1, g, t0, rest);
  }

  /** A gesture held for the hold time fires once the cooldown has passed. */
  lemma HeldGestureFires(s: GateState, now: real)
    requires StartTruthy(s.start)
    requires now >= s.start.value + GestureHoldTime && now >= s.last + ActionCooldown
    ensures GateStep(s, s.current, now) == (s.(last := now), true)
  {
  }

  /** The gesture detector object, reduced to the fields its gate updates. */
  class GestureDetector {
    var currentGesture: Option<string>
    var gestureStartTime: Option<real>
    var lastActionTime: real

    /** The gate's fields as a value. */
    function AsState(): (s: GateState)
      reads this
    {
      GateState(currentGesture, gestureStartTime, lastActionTime)
    }

    constructor ()
      ensures AsState() == InitialGate
    {
      currentGesture := None;
      gestureStartTime := None;
      lastActionTime := 0.0;
    }

    /** `should_execute_action`, with the clock reading passed in as `now`. */
    method ShouldExecuteAction(gesture: Option<string>, confidence: real, now: real) returns (fire: bool)
      modifies this
      ensures gesture != old(currentGesture) ==>
        !fire && currentGesture == gesture && gestureStartTime == Some(now) &&
        lastActionTime == old(lastActionTime)
      ensures gesture == old(currentGesture) ==>
        currentGesture == old(currentGesture) && gestureStartTime == old(gestureStartTime) &&
        (fire <==> StartTruthy(old(gestureStartTime)) &&
                   now - old(gestureStartTime).value >= GestureHoldTime &&
                   now - old(lastActionTime) >= ActionCooldown) &&
        lastActionTime == (if fire then now else old(lastActionTime))
      ensures (AsState(), fire) == GateStep(old(AsState()), gesture, now)
    {
      if gesture != currentGesture {
        currentGesture := gesture;
        gestureStartTime := Some(now);
        return false;
      }
      if StartTruthy(gestureStartTime) && now - gestureStartTime.value >= GestureHoldTime {
        if now - lastActionTime >= ActionCooldown {
          lastActionTime := now;
          return true;
        }
      }
      return false;
    }
  }
}
