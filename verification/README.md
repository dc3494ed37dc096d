# Hand-gesture control: a verified model of the gesture pipeline

The system watches a webcam and turns hand gestures into desktop actions:
open the browser, close the window, raise the volume, take a screenshot and
refresh the page. This project models the path from the hand landmarks to the
OS command in Dafny:

- **Finger-state extraction** (`Classifier`). The 21 hand landmarks become
  five "finger extended?" flags, in the order thumb, index, middle, ring,
  pinky. There are two variants, each a loop over the (tip, base) landmark
  pairs:
  - the strict one is used by `detect_gesture`;
  - the tolerant one, with a 0.02 margin, is used by the live
    `process_frame`.

  Each variant is proved equal to a specification function
  (`StrictFingers`, `TolerantFingers`).
- **The rule table** (`Classifier.IdentifyGesture`). It is the ordered,
  first-match-wins chain from the five flags to a gesture label and a
  literal confidence. Lemmas pin down each rule's region of the 32 vectors.
- **The hold-and-cooldown gate** (`Gate`). This is
  `GestureDetector.should_execute_action`, modelled as:
  - a class with the three fields that method updates;
  - the pure step function `GateStep`;
  - its iteration over a sequence of observations, `GateRun`.

  The program defines this gate, but its camera loop never calls it.
- **The camera loop** (`CameraLoop`). One iteration of `camera_thread`'s
  inner loop is the method `CameraSession.Step`. It covers:
  - the consecutive-error cutoff;
  - the one-step publication of the (frame, gesture, confidence) triple to
    the shared slot;
  - the live gate ("gesture changed, or more than 2.0 s since the last
    action", plus the confidence threshold);
  - dispatch, and one log row per successful dispatch.

  `CameraSession.Run` is the `while` loop over the iterations. Both are
  proved equal to the specification functions `StepSpec` and `RunSpec`, and
  the lemmas are stated about those functions.
- **Dispatch** (`SystemController`). `execute_action` is a lookup from
  gesture to command to handler. The handler table, `get_available_actions`
  and `get_action_description` are modelled too.
- **Configuration** (`Config`). The `GESTURE_ACTIONS` and `GESTURE_CONFIG`
  tables are constants.

How the inputs and effects are modelled:

- Coordinates, times and confidences are `real`s. Gesture labels are
  `Option<string>`, where `None` is Python's `None`.
- The clock, each frame read, the landmark estimator's output, whether a
  handler completes and whether the database insert succeeds are all
  parameters.
- Running a handler is recorded as a `Handler` event.
- A database insert is recorded as a `LogEntry` appended to the session's
  log.

Behaviour of the code worth knowing:

- The two-finger rule comes before the three-or-more fallback in
  `_identify_gesture` (gesture_detector.py:106-121). So `[T,T,T,F,F]` is
  classified as `dos_dedos` with confidence 0.88
  (`ThumbIndexMiddleIsTwoFingers`).
- `max_consecutive_errors` is 5, but the test is `>`, so the loop breaks once
  the error count passes 5 (app.py:74, 83, 140). After a completed
  iteration, that is the sixth failed read in a row (`SixthFailureStops`).
  After an iteration whose log insert raised, the count is already 1, so it
  is the fifth (`CutoffAfterOneError`).
- `should_execute_action` never reads its `confidence` argument. It restarts
  the hold only when the gesture differs from `current_gesture`, the gesture
  it tracks (gesture_detector.py:242-245).
- The camera loop does not call `should_execute_action`. Its own gate has no
  hold time, and its cooldown test is strict: `> action_cooldown`
  (app.py:120).
- `gesture_detector.py:28` hard-codes a hold time of 1.0 s.
  `GESTURE_CONFIG`'s `gesture_hold_time` of 0.5 (config.py:26) is never
  read.

One consequence of the code as written is proved in
`CameraLoop.LogFailureRedispatches`. If the log insert raises after the
handler ran, the gate state is not updated. The next frame with the same
gesture then runs the handler again, with no cooldown.

Python's truth test on `gesture_start_time` is false for `None` and also for
`0.0`. The model follows it (`Gate.StartTruthy`).

## Model

| member | source | states |
|---|---|---|
| Config.MinConfidence | app.py:118 | the threshold is the entry's `min_confidence` when set, otherwise 0.7 |
| Config.GestureActionsKeys | config.py:30-56 | the table has exactly the five gesture keys; the iteration order lists each of them once |
| Config.CommandsDistinct | config.py:30-56 | no two gestures share a command |
| Config.MinConfidenceIsDefault | config.py:30-56 | no entry sets `min_confidence`, so every gesture's threshold is 0.7 |
| Classifier.StrictFingers | gesture_detector.py:54-78 | five flags: thumb extended iff `x[4] > x[2]`; finger extended iff `y[tip] < y[base]` for (8,5), (12,9), (16,13), (20,17) |
| Classifier.TolerantFingers | gesture_detector.py:202-226 | five flags: thumb extended iff `x[4] < x[2] + 0.02`; finger extended iff `y[tip] < y[base] + 0.02` for the same pairs |
| Classifier.ClassifyGesture | gesture_detector.py:50-86 | the append loop builds exactly the strict flags, and the result is the rule table's verdict on them; fewer than 21 landmarks give (None, 0.0) |
| Classifier.DetectGesture | gesture_detector.py:30-48 | empty or short input gives (None, 0.0); otherwise the strict classification |
| Classifier.DetectGestureDebug | gesture_detector.py:194-235 | the append loop builds exactly the tolerant flags, and the verdict is the rule table's on them; malformed input gives (None, 0.0, five False) |
| Classifier.StrictImpliesTolerant | gesture_detector.py:75-78 | for index to pinky, strict-extended implies tolerant-extended |
| Classifier.ThumbVariantsOpposed | gesture_detector.py:70-72 | the strict thumb test (`>`) and the tolerant one (`<` at line 219) never both say folded, and agree only when `x[2] < x[4] < x[2] + 0.02` |
| Classifier.CountTrue | gesture_detector.py:92 | the count of extended fingers is at most the length; it is 0 iff none and equals the length iff all are extended |
| Classifier.CountTrueIsMultiplicity | gesture_detector.py:92 | the count of extended fingers equals the number of occurrences of `true` among the flags, as `sum` over booleans computes it |
| Classifier.IdentifyGesture | gesture_detector.py:88-128 | the label is None iff the confidence is 0.0 iff the thumb is down, 1 or 2 fingers are up and neither two-finger shape applies; every label is a key of the action table, with confidence in {0.80, 0.82, 0.85, 0.88, 0.90, 0.95} |
| Classifier.AllExtendedIsOpenHand | gesture_detector.py:94-96 | all five extended gives (mano_abierta, 0.95) |
| Classifier.NoneExtendedIsFist | gesture_detector.py:98-100 | none extended gives (puño_cerrado, 0.90) |
| Classifier.ThumbOnlyIsThumbsUp | gesture_detector.py:102-104 | only the thumb gives (pulgar_arriba, 0.85) |
| Classifier.TwoFingersAnyThumb | gesture_detector.py:106-108 | index and middle up, ring and pinky down gives (dos_dedos, 0.88), whatever the thumb |
| Classifier.ThumbIndexMiddleIsTwoFingers | gesture_detector.py:106-108 | `[T,T,T,F,F]` gives (dos_dedos, 0.88) |
| Classifier.RockAnyThumb | gesture_detector.py:110-112 | index and pinky up, middle and ring down gives (rock_roll, 0.82), whatever the thumb |
| Classifier.ThumbNearMiss | gesture_detector.py:115-117 | the thumb with exactly one other finger gives (pulgar_arriba, 0.80) |
| Classifier.SemiOpenFallback | gesture_detector.py:119-121 | three or four extended, not a two-finger shape, gives (mano_abierta, 0.85), below 0.95 |
| Classifier.ClassifiedPassesThreshold | app.py:117-119 | every label the rule table produces passes that label's confidence threshold |
| Classifier.ProcessFrameSpec | gesture_detector.py:130-192 | the frame is returned as given; a label appears only for a frame with pixels and a first hand of at least 21 landmarks, and is then the tolerant verdict on that hand; no label means confidence 0.0 |
| Classifier.ProcessFrame | gesture_detector.py:130-192 | computes exactly the verdict above, classifying only the first hand |
| Gate.CooldownBetweenFires | gesture_detector.py:251-254 | over any sequence of calls, every firing is at least 2.0 after the initial last-action time, and any two firings are at least 2.0 apart, even if the clock goes backwards |
| Gate.HeldRunFiresAfterHold | gesture_detector.py:241-256 | while the tracked gesture keeps being observed, the tracked gesture and start time stay fixed, and every firing is at least 1.0 after the start |
| Gate.HoldCountsFromChange | gesture_detector.py:241-249 | a new gesture starts a run; within an unbroken run of it, nothing fires earlier than 1.0 after its first observation |
| Gate.HeldGestureFires | gesture_detector.py:247-254 | a gesture held 1.0 s with the 2.0 s cooldown passed fires and sets only the last-action time |
| Gate.GestureDetector.constructor | gesture_detector.py:24-28 | starts with no gesture, no start time and last-action time 0 |
| Gate.GestureDetector.ShouldExecuteAction | gesture_detector.py:237-256 | a changed gesture is recorded with start := now and returns False; the same gesture returns True iff the start is set (and non-zero), `now - start >= 1.0` and `now - last >= 2.0`, and then sets only last := now; otherwise nothing changes |
| SystemController.ExecuteAction | system_controller.py:26-50 | an unknown gesture, or a command with no handler, returns False and runs nothing; otherwise exactly the command's handler runs once, and the result is whether it completed |
| SystemController.HandlerTableKeys | system_controller.py:18-24 | the handler table has exactly the keys chrome, alt+f4, volume_up, screenshot and f5, each with its own handler |
| SystemController.ConfiguredGestureRunsItsHandler | system_controller.py:32-46 | every configured command has a handler, so a configured gesture never takes the "not implemented" branch |
| SystemController.GesturesRunDistinctHandlers | system_controller.py:32-40 | different gestures run different handlers |
| SystemController.GetAvailableActions | system_controller.py:127-129 | exactly the keys of the action table, each once |
| SystemController.GetActionDescription | system_controller.py:131-135 | the entry's description for a known gesture; the result is "Acción no reconocida" iff the gesture is unknown |
| CameraLoop.StopOnlyWhenErrorsPassMax | app.py:80-91 | an iteration breaks iff the read failed with five errors already counted; a failed read changes only the counter; a good read leaves it at 0, or at 1 when the log insert raised after a dispatch |
| CameraLoop.StoppedStaysStopped | app.py:83-85 | once the loop has broken out, further iterations change nothing |
| CameraLoop.FailureCutoff | app.py:80-89 | from a running state with e errors, n failed reads stop the loop iff e + n > 5, after 6 - e iterations, changing only the counter |
| CameraLoop.SixthFailureStops | app.py:73-89 | from a fresh session, a run of failed reads stops iff there are at least six, and then after exactly six |
| CameraLoop.CutoffAfterOneError | app.py:80-89 | with one error counted, as after an iteration whose log insert raised, failed reads stop the loop iff there are at least five, and then after exactly five, changing only the counter |
| CameraLoop.SlotPublishedAtomically | app.py:103-113 | a read frame with pixels replaces the whole slot with its (frame, gesture, confidence); otherwise the slot, the gate, the log and the handlers run are untouched |
| CameraLoop.DispatchIff | app.py:115-121 | a handler runs iff the frame is published and its gesture is configured, confident enough, and either new or more than 2.0 s after the last action; then exactly the gesture's handler runs once |
| CameraLoop.LoggedExactlyOnce | app.py:121-134 | exactly one row (gesture, description, confidence, stored timestamp) is logged iff the dispatched handler completes and the insert succeeds; the row is paired with its dispatch time (`current_time`, app.py:116); only then does the gate move to that gesture and dispatch time |
| CameraLoop.FirstGestureDispatchesImmediately | app.py:70-121 | in a fresh session the first classified gesture dispatches, whatever the time |
| CameraLoop.LogFailureRedispatches | app.py:121-143 | when the insert raises, the counter is 1, the loop goes on, the gate is unchanged, and the same input dispatches again on the next iteration |
| CameraLoop.StepKeepsLogSpaced | app.py:120-134 | one iteration keeps the gate equal to the last logged row's gesture and dispatch time, and keeps the dispatch times (`current_time`, app.py:116) of consecutive same-gesture rows more than 2.0 apart |
| CameraLoop.LogAtMostDispatches | app.py:119-134 | an iteration logs at most one row, and only when it ran a handler |
| CameraLoop.RunKeepsLogSpaced | app.py:78-154 | over any run, both log invariants hold (same-gesture consecutive rows dispatched more than 2.0 apart, by `current_time`, app.py:116), and no more rows are logged than handlers were run |
| CameraLoop.SessionLogSpaced | app.py:70-154 | from a fresh session, two consecutive rows for the same gesture have dispatch times (`current_time`, app.py:116) more than 2.0 s apart, and there are never more log rows than handlers run |
| CameraLoop.CameraSession.constructor | app.py:70-75 | counters 0, last-action time 0, no gesture executed; the slot keeps its value |
| CameraLoop.CameraSession.Step | app.py:79-154 | one iteration updates every field, and returns the break flag and sleep time, exactly as `StepSpec` |
| CameraLoop.CameraSession.Run | app.py:78-154 | the loop over the iterations ends in exactly the state, break flag and iteration count of `RunSpec` |

## Left out

- The Flask routes and the MJPEG stream generator (app.py:197-323): HTTP plumbing.
- Starting and stopping the camera thread, the lock and the join timeout
  (app.py:168-195). They are concurrency. The lock's effect is modelled by
  replacing the slot in one step.
- Opening, configuring and test-reading the capture device, `gc.collect` and
  the every-100-frames housekeeping (app.py:41-67, 94-99, 156-166). These are
  device I/O. A frame read is an input, and `frame_count` is only counted.
- A frame read of `None` also stands for `cap.read()` raising. The outer
  `except` (app.py:145-152) treats that the same way as a failed read: it
  counts the error, breaks if the count passes 5, and otherwise sleeps 0.1 s.
- `time.sleep` itself. The model returns the sleep length of each iteration;
  the time of the next iteration is an input.
- MediaPipe, the landmark drawing, the text overlays and the
  `debug_gestos.txt` append in `process_frame` (gesture_detector.py:13-22,
  152-185). These are foreign libraries and file I/O. The estimator's hands
  are an input, and `None` stands for an exception in conversion or
  estimation.
- Classifier.ProcessFrameSpec: classifies only the first hand. In the source,
  an exception while drawing or logging hand 0 skips to the next hand
  (gesture_detector.py:177-179). But the estimator is built with
  `max_num_hands=1` (gesture_detector.py:19), so no second hand exists.
- `get_gesture_info` and `release` (gesture_detector.py:258-270): a table
  lookup that nothing in the core calls, and library clean-up.
- The five OS handlers (system_controller.py:52-125). They use subprocess
  and pyautogui. Each is an event whose completion is an input.
- database.py is not part of this model. `insert_action` is an appended
  `LogEntry` whose success is an input.
- `DB_CONFIG` and `CAMERA_CONFIG`: environment and device settings.
- The stored timestamp is a second clock reading: `datetime.now` in the
  America/Lima zone, taken after the handler has returned (app.py:124-125).
  The model takes it as the input `stamp`, in no fixed relation to the
  gate's `current_time`, and stores it in `LogEntry.timestamp`. The spacing
  lemmas are about dispatch times only. Handlers take time (a 0.5 s sleep at
  system_controller.py:81 and 122), so the stored timestamps of two
  same-gesture rows can be less than 2.0 s apart.
- Floating-point rounding: all comparisons are on exact reals.
- The `camera_running` flag: the loop runs over the given iterations, and
  the flag being cleared is the end of that sequence.
- Classifier.IdentifyGesture: requires exactly five flags. Both of its
  callers always build five. The IndexError path for a shorter list is not
  modelled.
- SystemController.GetAvailableActions: states the set of keys and that
  none repeats, not their order. The body returns them in the order the
  dictionary literal lists them.
