/**
 * One capture session of the camera thread: each iteration reads a frame,
 * counts consecutive read failures (stopping after too many), classifies
 * the frame, publishes the (frame, gesture, confidence) triple to the shared
 * slot in one step, and, when the live gate allows it, dispatches the
 * gesture's action and logs it once.
 *
 * The device, the landmark estimator, the handlers' completion, the action
 * log's database and the clock are inputs: each iteration receives the
 * frame read (or `None` for a failed read), the estimator's hands, the time
 * the gate compares, whether the dispatched handler completes, the
 * timestamp the insert stores and whether the insert succeeds. The action
 * log is the sequence of rows inserted.
 */
module CameraLoop {
  import opened Wrappers
  import opened Config
  import opened Classifier
  import opened SystemController

  /** Consecutive errors tolerated; the next one stops the session. */
  const MaxConsecutiveErrors: nat := 5

  /** The live gate's cooldown between repeats of the same gesture, in seconds. */
  const LoopCooldown: real := 2.0

  /** The pause after a failed read, and after a completed iteration. */
  const RetryDelay: real := 0.1
  const FrameDelay: real := 0.05

  /** The shared latest-result slot: frame, gesture and confidence. */
  datatype Slot = Slot(frame: Option<Frame>, gesture: Option<string>, confidence: real)

  /** One row inserted into the action log: gesture, description, confidence
    * and the stored timestamp (a clock reading taken after the handler
    * returned), paired with the gate's clock reading at dispatch, which the
    * row itself does not store. */
  datatype LogEntry = LogEntry(gesture: string, description: string, confidence: real,
                               timestamp: real, dispatchTime: real)

  /** What the world supplies to one iteration of the loop. */
  datatype FrameInput = FrameInput(
    read: Option<Frame>,
    hands: Option<seq<seq<Landmark>>>,
    now: real,
    handlerCompletes: bool,
    stamp: real,
    logSucceeds: bool)

  /** The session's state: its local counters and gate, the shared slot, and
    * the effects so far (log rows inserted, handlers run). */
  datatype LoopState = LoopState(
    consecutiveErrors: nat,
    frameCount: nat,
    lastActionTime: real,
    lastGestureExecuted: Option<string>,
    latest: Slot,
    log: seq<LogEntry>,
    commands: seq<Handler>)

  /** The state once the camera has opened; `slot` is whatever the shared slot holds. */
  function SessionStart(slot: Slot): (s: LoopState) {
    LoopState(0, 0, 0.0, None, slot, [], [])
  }

  /** The outcome of one iteration: the new state, whether the loop breaks,
    * and how long it sleeps before the next iteration. */
  datatype StepResult = StepResult(state: LoopState, stop: bool, sleep: real)

  /** The live gate: a configured gesture, confident enough, that is either
    * not the last one executed or comes more than the cooldown after it. */
  predicate Eligible(s: LoopState, gesture: Option<string>, confidence: real, now: real) {
    InTable(gesture) && confidence >= MinConfidence(gesture.value) &&
    (s.lastGestureExecuted != gesture || now - s.lastActionTime > LoopCooldown)
  }

  /** One iteration of the inner `while camera_running` loop. */
  function StepSpec(s: LoopState, inp: FrameInput): (r: StepResult) {
    if inp.read.None? then
      var s1 := s.(consecutiveErrors := s.consecutiveErrors + 1);
      if s1.consecutiveErrors > MaxConsecutiveErrors then StepResult(s1, true, 0.0)
      else StepResult(s1, false, RetryDelay)
    else
      var s1 := s.(consecutiveErrors := 0, frameCount := s.frameCount + 1);
      var p := ProcessFrameSpec(inp.read, inp.hands);
      if !FrameValid(p.frame) then StepResult(s1, false, FrameDelay)
      else
        var s2 := s1.(latest := Slot(p.frame, p.gesture, p.confidence));
        if !Eligible(s2, p.gesture, p.confidence, inp.now) then StepResult(s2, false, FrameDelay)
        else
          var d := ExecuteAction(p.gesture, inp.handlerCompletes);
          var s3 := s2.(commands := s2.commands + d.invoked);
          if !d.success then StepResult(s3, false, FrameDelay)
          else if !inp.logSucceeds then
            // the insert raised: the processing handler counts it as an error
            // and continues without sleeping
            var s4 := s3.(consecutiveErrors := s3.consecutiveErrors + 1);
            StepResult(s4, s4.consecutiveErrors > MaxConsecutiveErrors, 0.0)
          else
            var g := p.gesture.value;
            var entry := LogEntry(g, GestureActions[g].description, p.confidence, inp.stamp, inp.now);
            StepResult(s3.(log := s3.log + [entry], lastActionTime := inp.now,
                           lastGestureExecuted := p.gesture), false, FrameDelay)
  }

  /** The outcome of running the loop over a sequence of iterations. */
  datatype RunResult = RunResult(state: LoopState, stopped: bool, iterations: nat)

  /** Iterating the loop over `inputs` (one per iteration while `camera_running`
    * holds), ending early when an iteration breaks out. */
  function RunSpec(s: LoopState, inputs: seq<FrameInput>): (r: RunResult)
    decreases |inputs|
  {
    if inputs == [] then RunResult(s, false, 0)
    else
      var prev := RunSpec(s, inputs[..|inputs| - 1]);
      if prev.stopped then prev
      else
        var r := StepSpec(prev.state, inputs[|inputs| - 1]);
        RunResult(r.state, r.stop, prev.iterations + 1)
  }

  // ---------------------------------------------------------------------
  // Error counter and cutoff

  /** Only a failed read can stop the loop, and only when the error count
    * passes its maximum; a successful read leaves the counter at 0, or at 1
    * when the log insert raised. */
  lemma StopOnlyWhenErrorsPassMax(s: LoopState, inp: FrameInput)
    ensures StepSpec(s, inp).stop <==> inp.read.None? && s.consecutiveErrors >= MaxConsecutiveErrors
    ensures inp.read.None? ==> StepSpec(s, inp).state == s.(consecutiveErrors := s.consecutiveErrors + 1)
    ensures inp.read.Some? ==> StepSpec(s, inp).state.consecutiveErrors <= 1
    ensures inp.read.Some? && StepSpec(s, inp).state.consecutiveErrors == 1 ==>
      !inp.logSucceeds && |StepSpec(s, inp).state.commands| == |s.commands| + 1
  {
  }

  /** A stopped run ignores every further input. */
  lemma {:induction false} StoppedStaysStopped(s: LoopState, inputs: seq<FrameInput>, i: nat)
    requires i <= |inputs| && RunSpec(s, inputs[..i]).stopped
    ensures RunSpec(s, inputs) == RunSpec(s, inputs[..i])
    decreases |inputs| - i
  {
    if i < |inputs| {
      assert inputs[..|inputs| - 1][..i] == inputs[..i];
      StoppedStaysStopped(s, inputs[..|inputs| - 1], i);
    } else {
      assert inputs[..i] == inputs;
    }
  }

  /** A run of failed reads from a running session (at most five errors
    * counted) stops exactly when the count passes five, after 6 - e
    * iterations, and changes nothing but the counter. */
  lemma {:induction false} FailureCutoff(s: LoopState, fails: seq<FrameInput>)
    requires s.consecutiveErrors <= MaxConsecutiveErrors
    requires forall k :: 0 <= k < |fails| ==> fails[k].read.None?
    ensures RunSpec(s, fails).stopped <==> s.consecutiveErrors + |fails| > MaxConsecutiveErrors
    ensures RunSpec(s, fails).iterations ==
      if s.consecutiveErrors + |fails| > MaxConsecutiveErrors
      then MaxConsecutiveErrors + 1 - s.consecutiveErrors else |fails|
    ensures RunSpec(s, fails).state ==
      s.(consecutiveErrors := s.consecutiveErrors + RunSpec(s, fails).iterations)
    decreases |fails|
  {
    if fails != [] {
      var init := fails[..|fails| - 1];
      FailureCutoff(s, init);
    }
  }

  /** From a freshly opened camera, six failed reads in a row stop the
    * session, and five do not. */
  lemma SixthFailureStops(slot: Slot, fails: seq<FrameInput>)
    requires forall k :: 0 <= k < |fails| ==> fails[k].read.None?
    ensures RunSpec(SessionStart(slot), fails).stopped <==> |fails| >= 6
    ensures |fails| >= 6 ==> RunSpec(SessionStart(slot), fails).iterations == 6
  {
    FailureCutoff(SessionStart(slot), fails);
  }

  /** With one error already counted, as after an iteration whose log insert
    * raised (`LogFailureRedispatches`), the fifth failed read in a row stops
    * the loop, and four do not. */
  lemma CutoffAfterOneError(t: LoopState, fails: seq<FrameInput>)
    requires t.consecutiveErrors == 1
    requires forall k :: 0 <= k < |fails| ==> fails[k].read.None?
    ensures RunSpec(t, fails).stopped <==> |fails| >= 5
    ensures RunSpec(t, fails).iterations == if |fails| >= 5 then 5 else |fails|
    ensures RunSpec(t, fails).state == t.(consecutiveErrors := 1 + RunSpec(t, fails).iterations)
  {
    FailureCutoff(t, fails);
  }

  // ---------------------------------------------------------------------
  // The shared slot

  /** The slot is replaced as a whole by the processed triple exactly when a
    * frame with pixels was read; otherwise it, the gate and the effects are
    * untouched. */
  lemma SlotPublishedAtomically(s: LoopState, inp: FrameInput)
    ensures FrameValid(inp.read) ==>
      var p := ProcessFrameSpec(inp.read, inp.hands);
      StepSpec(s, inp).state.latest == Slot(inp.read, p.gesture, p.confidence)
    ensures !FrameValid(inp.read) ==>
      var t := StepSpec(s, inp).state;
      t.latest == s.latest && t.lastActionTime == s.lastActionTime &&
      t.lastGestureExecuted == s.lastGestureExecuted && t.log == s.log && t.commands == s.commands
  {
  }

  // ---------------------------------------------------------------------
  // Gate, dispatch and log

  /** A handler runs in an iteration exactly when a frame with pixels was
    * read and its gesture passes the live gate; then exactly one handler
    * runs, the one configured for that gesture. */
  lemma DispatchIff(s: LoopState, inp: FrameInput)
    ensures var t := StepSpec(s, inp).state;
      var p := ProcessFrameSpec(inp.read, inp.hands);
      var attempted := FrameValid(inp.read) && Eligible(s, p.gesture, p.confidence, inp.now);
      (attempted ==> t.commands == s.commands + [ActionHandlers[GestureActions[p.gesture.value].command]]) &&
      (!attempted ==> t.commands == s.commands)
  {
  }

  /** One row is logged exactly when a dispatched handler completes and the
    * insert succeeds; it records the gesture, its description, the
    * confidence and the stored timestamp, paired with the dispatch time,
    * and only then does the gate move to that gesture and dispatch time.
    * In every other case log and gate are unchanged. */
  lemma LoggedExactlyOnce(s: LoopState, inp: FrameInput)
    ensures var t := StepSpec(s, inp).state;
      var p := ProcessFrameSpec(inp.read, inp.hands);
      var logged := FrameValid(inp.read) && Eligible(s, p.gesture, p.confidence, inp.now) &&
                    inp.handlerCompletes && inp.logSucceeds;
      (logged ==>
        t.log == s.log + [LogEntry(p.gesture.value, GestureActions[p.gesture.value].description,
                                   p.confidence, inp.stamp, inp.now)] &&
        t.lastActionTime == inp.now && t.lastGestureExecuted == p.gesture) &&
      (!logged ==>
        t.log == s.log && t.lastActionTime == s.lastActionTime &&
        t.lastGestureExecuted == s.lastGestureExecuted)
  {
  }

  /** On a freshly opened camera the first classified gesture dispatches at
    * once, whatever the clock says: every label the classifier produces is
    * configured and above its threshold, and nothing was executed yet. */
  lemma FirstGestureDispatchesImmediately(slot: Slot, inp: FrameInput)
    requires FrameValid(inp.read)
    requires ProcessFrameSpec(inp.read, inp.hands).gesture.Some?
    ensures |StepSpec(SessionStart(slot), inp).state.commands| == 1
  {
  }

  /** When the log insert raises after the handler ran, the gate is left as
    * it was, so the same frame input on the next iteration dispatches the
    * same handler again, without any cooldown. */
  lemma LogFailureRedispatches(s: LoopState, inp: FrameInput)
    requires FrameValid(inp.read)
    requires var p := ProcessFrameSpec(inp.read, inp.hands); Eligible(s, p.gesture, p.confidence, inp.now)
    requires inp.handlerCompletes && !inp.logSucceeds
    ensures var t := StepSpec(s, inp).state;
      !StepSpec(s, inp).stop && t.consecutiveErrors == 1 &&
      t.lastActionTime == s.lastActionTime && t.lastGestureExecuted == s.lastGestureExecuted &&
      |t.commands| == |s.commands| + 1 && t.log == s.log &&
      |StepSpec(t, inp).state.commands| == |t.commands| + 1
  {
  }

  /** The gate remembers the last row logged. */
  ghost predicate GateMatchesLog(s: LoopState) {
    |s.log| > 0 ==>
      s.lastGestureExecuted == Some(s.log[|s.log| - 1].gesture) &&
      s.lastActionTime == s.log[|s.log| - 1].dispatchTime
  }

  /** Two consecutive rows for the same gesture were dispatched more than the
    * cooldown apart (their stored timestamps are not constrained). */
  ghost predicate SpacedLog(log: seq<LogEntry>) {
    forall i :: 0 < i < |log| && log[i - 1].gesture == log[i].gesture ==>
      log[i].dispatchTime - log[i - 1].dispatchTime > LoopCooldown
  }

  /** One iteration keeps the gate in step with the log and the log spaced. */
  lemma StepKeepsLogSpaced(s: LoopState, inp: FrameInput)
    requires GateMatchesLog(s) && SpacedLog(s.log)
    ensures GateMatchesLog(StepSpec(s, inp).state) && SpacedLog(StepSpec(s, inp).state.log)
  {
  }

  /** Over any run, the log invariants are kept: two consecutive rows for the
    * same gesture were dispatched more than the cooldown apart, and no more
    * rows are logged than handlers were run. */
  lemma {:induction false} RunKeepsLogSpaced(s: LoopState, inputs: seq<FrameInput>)
    requires GateMatchesLog(s) && SpacedLog(s.log)
    ensures GateMatchesLog(RunSpec(s, inputs).state) && SpacedLog(RunSpec(s, inputs).state.log)
    ensures |RunSpec(s, inputs).state.log| - |s.log| <= |RunSpec(s, inputs).state.commands| - |s.commands|
    decreases |inputs|
  {
    if inputs != [] {
      var prev := RunSpec(s, inputs[..|inputs| - 1]);
      RunKeepsLogSpaced(s, inputs[..|inputs| - 1]);
      if !prev.stopped {
        StepKeepsLogSpaced(prev.state, inputs[|inputs| - 1]);
        LogAtMostDispatches(prev.state, inputs[|inputs| - 1]);
      }
    }
  }

  /** An iteration logs at most one row, and only in an iteration that ran a handler. */
  lemma LogAtMostDispatches(s: LoopState, inp: FrameInput)
    ensures |StepSpec(s, inp).state.log| - |s.log| <= |StepSpec(s, inp).state.commands| - |s.commands|
    ensures |s.log| <= |StepSpec(s, inp).state.log| <= |s.log| + 1
    ensures |s.commands| <= |StepSpec(s, inp).state.commands|
  {
  }

  /** From a freshly opened camera, two consecutive rows for the same gesture
    * are always dispatched more than the cooldown apart. */
  lemma SessionLogSpaced(slot: Slot, inputs: seq<FrameInput>)
    ensures SpacedLog(RunSpec(SessionStart(slot), inputs).state.log)
    ensures |RunSpec(SessionStart(slot), inputs).state.log| <= |RunSpec(SessionStart(slot), inputs).state.commands|
  {
    RunKeepsLogSpaced(SessionStart(slot), inputs);
  }

  // ---------------------------------------------------------------------
  // The loop itself

  /** The camera thread's session state, as the locals and globals it updates. */
  class CameraSession {
    var consecutiveErrors: nat
    var frameCount: nat
    var lastActionTime: real
    var lastGestureExecuted: Option<string>
    var latest: Slot
    var log: seq<LogEntry>
    var commands: seq<Handler>

    function State(): (s: LoopState)
      reads this
    {
      LoopState(consecutiveErrors, frameCount, lastActionTime, lastGestureExecuted, latest, log, commands)
    }

    /** The session locals as set once the camera opened; the slot keeps its value. */
    constructor (slot: Slot)
      ensures State() == SessionStart(slot)
    {
      consecutiveErrors := 0;
      frameCount := 0;
      lastActionTime := 0.0;
      lastGestureExecuted := None;
      latest := slot;
      log := [];
      commands := [];
    }

    /** One iteration: returns whether the loop breaks and how long it sleeps. */
    method Step(inp: FrameInput) returns (stop: bool, sleep: real)
      modifies this
      ensures StepResult(State(), stop, sleep) == StepSpec(old(State()), inp)
    {
      if inp.read.None? {
        consecutiveErrors := consecutiveErrors + 1;
        if consecutiveErrors > MaxConsecutiveErrors {
          return true, 0.0;
        }
        return false, RetryDelay;
      }
      consecutiveErrors := 0;
      frameCount := frameCount + 1;
      var p := ProcessFrame(inp.read, inp.hands);
      if FrameValid(p.frame) {
        latest := Slot(p.frame, p.gesture, p.confidence);
        if InTable(p.gesture) {
          var minConf := MinConfidence(p.gesture.value);
          if p.confidence >= minConf {
            if lastGestureExecuted != p.gesture || inp.now - lastActionTime > LoopCooldown {
              var d := ExecuteAction(p.gesture, inp.handlerCompletes);
              commands := commands + d.invoked;
              if d.success {
                if !inp.logSucceeds {
                  consecutiveErrors := consecutiveErrors + 1;
                  return consecutiveErrors > MaxConsecutiveErrors, 0.0;
                }
                var g := p.gesture.value;
                log := log + [LogEntry(g, GestureActions[g].description, p.confidence, inp.stamp, inp.now)];
                lastActionTime := inp.now;
                lastGestureExecuted := p.gesture;
              }
            }
          }
        }
      }
      return false, FrameDelay;
    }

    /** The inner loop over the iterations that find `camera_running` set:
      * returns whether it broke out and how many iterations it ran. */
    method Run(inputs: seq<FrameInput>) returns (stopped: bool, iterations: nat)
      modifies this
      ensures RunResult(State(), stopped, iterations) == RunSpec(old(State()), inputs)
    {
      ghost var s0 := State();
      stopped, iterations := false, 0;
      var i := 0;
      while i < |inputs| && !stopped
        invariant 0 <= i <= |inputs|
        invariant RunResult(State(), stopped, iterations) == RunSpec(s0, inputs[..i])
      {
        assert inputs[..i + 1][..i] == inputs[..i];
        var stop, _ := Step(inputs[i]);
        stopped, iterations := stop, iterations + 1;
        i := i + 1;
      }
      if i < |inputs| {
        StoppedStaysStopped(s0, inputs, i);
      } else {
        assert inputs[..i] == inputs;
      }
    }
  }
}
