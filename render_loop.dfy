/**
 * The render loop of both scripts as a state machine over the module-level
 * state: `predictWebcam` (one tick), `drawSegmentationResult` (the callback
 * the segmenter invokes with a result), and `enableCamera` with the load path
 * that calls it.
 *
 * Drawing, the segmenter and the browser's scheduling are opaque: each step
 * returns the list of effects it has on the outside world. Two counters stand
 * for what the browser and the segmenter hold: `scheduled` counts the calls
 * of predictWebcam that are due (a registered `loadeddata` listener or a
 * requested animation frame), `outstanding` the segmentation requests whose
 * callback has not run yet.
 *
 * The `loadeddata` listener that enableCamera registers stays registered:
 * every later stream the video element loads (the camera stopped and started
 * again) calls predictWebcam once more.
 */
module RenderLoop {

  /** What one step does outside the module state, in order. */
  datatype Effect =
    | ClearAndDrawVideoFrame(width: nat, height: nat)  // clear the output canvas and draw the live video frame at this size
    | DrawVideoFrame(width: nat, height: nat)          // draw the live video frame over the canvas at this size
    | RequestSegmentation(timestampMs: int)   // segmentForVideo(canvas, timestamp, drawSegmentationResult)
    | ShowFps(elapsedMs: int)                 // the FPS text, computed from the time since the previous callback
    | PutCombinedFrame                        // putImageData of the composited frame
    | ScheduleTick                            // requestAnimationFrame(predictWebcam)
    | WatchLoadedData                         // video.addEventListener("loadeddata", predictWebcam) on a new stream

  /** The module-level variables of the scripts, plus the two counters. */
  datatype LoopState = LoopState(
    isFirstFrame: bool,
    canvasWidth: nat,
    canvasHeight: nat,
    segmenterReady: bool,  // imageSegmenter !== undefined
    listening: bool,       // predictWebcam is registered for the video's `loadeddata`
    lastFrameMs: int,
    outstanding: nat,
    scheduled: nat)

  /** A step's new state and its effects. */
  datatype Outcome = Outcome(state: LoopState, effects: seq<Effect>)

  /** The state at module load: first frame pending, no segmenter, `lastFrameMs = Date.now()`. */
  function Initial(nowMs: int, canvasWidth: nat, canvasHeight: nat): LoopState
  {
    LoopState(true, canvasWidth, canvasHeight, false, false, nowMs, 0, 0)
  }

  /** Ticks and requests still in flight: the number of render loops alive. */
  function Pending(s: LoopState): nat
  {
    s.outstanding + s.scheduled
  }

  /**
   * predictWebcam, run for one due tick: size the canvas on the first tick
   * only, draw the raw frame, and issue one request unless there is no
   * segmenter.
   */
  function Tick(s: LoopState, videoWidth: nat, videoHeight: nat, nowMs: int): Outcome
    requires s.scheduled > 0
  {
    var sized := if s.isFirstFrame
                 then s.(isFirstFrame := false, canvasWidth := videoWidth, canvasHeight := videoHeight)
                 else s;
    var ran := sized.(scheduled := s.scheduled - 1);
    if !s.segmenterReady then
      Outcome(ran, [ClearAndDrawVideoFrame(videoWidth, videoHeight)])
    else
      Outcome(ran.(outstanding := s.outstanding + 1),
              [ClearAndDrawVideoFrame(videoWidth, videoHeight), RequestSegmentation(nowMs)])
  }

  /**
   * The callback runs to its end: `getImageData` throws an IndexSizeError on
   * a canvas with a zero side, and `applyBackgroundBlur` may throw
   * (`blurThrew`); either throw ends the callback before it re-arms.
   */
  predicate Completes(s: LoopState, blurThrew: bool)
  {
    s.canvasWidth > 0 && s.canvasHeight > 0 && !blurThrew
  }

  /**
   * drawSegmentationResult, run for one delivered result: note the arrival
   * time, show the FPS and draw the frame; then, unless reading the frame
   * back or blurring it throws, composite and schedule exactly one tick.
   */
  function Callback(s: LoopState, nowMs: int, blurThrew: bool): Outcome
    requires s.outstanding > 0
  {
    var delivered := s.(lastFrameMs := nowMs, outstanding := s.outstanding - 1);
    var drawn := [ShowFps(nowMs - s.lastFrameMs), DrawVideoFrame(s.canvasWidth, s.canvasHeight)];
    if !Completes(s, blurThrew) then Outcome(delivered, drawn)
    else Outcome(delivered.(scheduled := s.scheduled + 1), drawn + [PutCombinedFrame, ScheduleTick])
  }

  /**
   * enableCamera: nothing without a segmenter; otherwise, once the camera
   * stream is granted, predictWebcam is registered for its `loadeddata`, which
   * makes one tick due.
   */
  function EnableCamera(s: LoopState, streamGranted: bool): Outcome
  {
    if !s.segmenterReady || !streamGranted then Outcome(s, [])
    else Outcome(s.(listening := true, scheduled := s.scheduled + 1), [WatchLoadedData])
  }

  /**
   * The video element loads a later stream (the camera was stopped and
   * started again) while predictWebcam is still registered for
   * `loadeddata`: one more tick is due, whatever loop is already running.
   */
  function StreamReloaded(s: LoopState): Outcome
    requires s.listening
  {
    Outcome(s.(scheduled := s.scheduled + 1), [])
  }

  /**
   * loadMediaPipeImageSegmenter: a failed load leaves everything as it was
   * (the error is only logged); a successful one sets the segmenter and, when
   * getUserMedia exists, enables the camera.
   */
  function LoadSegmenter(s: LoopState, loaded: bool, hasGetUserMedia: bool, streamGranted: bool): Outcome
  {
    if !loaded then Outcome(s, [])
    else if hasGetUserMedia then EnableCamera(s.(segmenterReady := true), streamGranted)
    else Outcome(s.(segmenterReady := true), [])
  }

  /** The events that run code of the loop. */
  datatype Event =
    | SegmenterLoaded(loaded: bool, hasGetUserMedia: bool, streamGranted: bool)
    | AnimationFrame(videoWidth: nat, videoHeight: nat, nowMs: int)  // a due call of predictWebcam
    | SegmentationDone(nowMs: int, blurThrew: bool)                   // the segmenter calls back
    | StreamLoaded                                                    // `loadeddata` of a restarted stream

  /** An event can happen: a tick only when one is due, a callback only for a request in flight. */
  predicate Enabled(s: LoopState, e: Event)
  {
    match e
    case SegmenterLoaded(_, _, _) => true
    case AnimationFrame(_, _, _) => s.scheduled > 0
    case SegmentationDone(_, _) => s.outstanding > 0
    case StreamLoaded => s.listening
  }

  function Step(s: LoopState, e: Event): Outcome
    requires Enabled(s, e)
  {
    match e
    case SegmenterLoaded(loaded, has, granted) => LoadSegmenter(s, loaded, has, granted)
    case AnimationFrame(w, h, now) => Tick(s, w, h, now)
    case SegmentationDone(now, blurThrew) => Callback(s, now, blurThrew)
    case StreamLoaded => StreamReloaded(s)
  }

  /** Every event of the trace is enabled when its turn comes. */
  predicate Feasible(s: LoopState, trace: seq<Event>)
    decreases |trace|
  {
    trace == [] || (Enabled(s, trace[0]) && Feasible(Step(s, trace[0]).state, trace[1..]))
  }

  /** Running a trace: the final state and all effects in order. */
  function Run(s: LoopState, trace: seq<Event>): Outcome
    requires Feasible(s, trace)
    decreases |trace|
  {
    if trace == [] then Outcome(s, [])
    else
      var first := Step(s, trace[0]);
      var rest := Run(first.state, trace[1..]);
      Outcome(rest.state, first.effects + rest.effects)
  }

  /** How many effects satisfy `p`. */
  function CountIf(effects: seq<Effect>, p: Effect -> bool): nat
  {
    if effects == [] then 0 else (if p(effects[0]) then 1 else 0) + CountIf(effects[1..], p)
  }

  predicate IsRearm(e: Effect)
  {
    e == ScheduleTick
  }

  predicate IsRequest(e: Effect)
  {
    e.RequestSegmentation?
  }

  /** How many ticks the effects schedule. */
  function Rearms(effects: seq<Effect>): nat
  {
    CountIf(effects, IsRearm)
  }

  /** How many segmentation requests the effects issue. */
  function Requests(effects: seq<Effect>): nat
  {
    CountIf(effects, IsRequest)
  }

  /** How many events of a trace are segmentation results. */
  function Callbacks(trace: seq<Event>): nat
  {
    if trace == [] then 0 else (if trace[0].SegmentationDone? then 1 else 0) + Callbacks(trace[1..])
  }

  /** How many callbacks of a run reach their re-arm. */
  function CompletedCallbacks(s: LoopState, trace: seq<Event>): nat
    requires Feasible(s, trace)
    decreases |trace|
  {
    if trace == [] then 0
    else (if trace[0].SegmentationDone? && Completes(s, trace[0].blurThrew) then 1 else 0) +
         CompletedCallbacks(Step(s, trace[0]).state, trace[1..])
  }

  /** How many events of a trace can start a loop: segmenter loads and stream reloads. */
  function Starts(trace: seq<Event>): nat
  {
    if trace == [] then 0
    else (if trace[0].SegmenterLoaded? || trace[0].StreamLoaded? then 1 else 0) + Starts(trace[1..])
  }

  // ---------------------------------------------------------------------------
  // One step at a time.
  // ---------------------------------------------------------------------------

  /**
   * A tick sizes the canvas from the video on the first tick only, clears
   * isFirstFrame, always draws the raw frame first, issues exactly one request
   * when there is a segmenter and none otherwise, and never schedules a tick.
   */
  lemma TickBehaviour(s: LoopState, videoWidth: nat, videoHeight: nat, nowMs: int)
    requires s.scheduled > 0
    ensures var o := Tick(s, videoWidth, videoHeight, nowMs);
            !o.state.isFirstFrame &&
            (s.isFirstFrame ==> o.state.canvasWidth == videoWidth && o.state.canvasHeight == videoHeight) &&
            (!s.isFirstFrame ==> o.state.canvasWidth == s.canvasWidth && o.state.canvasHeight == s.canvasHeight) &&
            o.effects[0] == ClearAndDrawVideoFrame(videoWidth, videoHeight) &&
            Requests(o.effects) == (if s.segmenterReady then 1 else 0) &&
            (s.segmenterReady ==> RequestSegmentation(nowMs) in o.effects) &&
            Rearms(o.effects) == 0 &&
            o.state.scheduled == s.scheduled - 1 &&
            o.state.outstanding == s.outstanding + (if s.segmenterReady then 1 else 0) &&
            o.state.lastFrameMs == s.lastFrameMs
  {
    var draw := ClearAndDrawVideoFrame(videoWidth, videoHeight);
    CountIfCons(draw, [], IsRequest);
    CountIfCons(draw, [], IsRearm);
    if s.segmenterReady {
      var request := RequestSegmentation(nowMs);
      assert [draw, request] == [draw] + [request] && [request] == [request] + [];
      CountIfCons(request, [], IsRequest);
      CountIfCons(request, [], IsRearm);
      CountIfCons(draw, [request], IsRequest);
      CountIfCons(draw, [request], IsRearm);
    } else {
      assert [draw] == [draw] + [];
    }
  }

  /** Without a segmenter a tick draws the raw frame and nothing else, and the loop loses its one due tick. */
  lemma TickWithoutSegmenterStalls(s: LoopState, videoWidth: nat, videoHeight: nat, nowMs: int)
    requires s.scheduled > 0 && !s.segmenterReady
    ensures var o := Tick(s, videoWidth, videoHeight, nowMs);
            o.effects == [ClearAndDrawVideoFrame(videoWidth, videoHeight)] && Pending(o.state) == Pending(s) - 1
  {
  }

  /**
   * A callback records its arrival time, reports the time since the previous
   * one and draws the frame; it issues no request and leaves the canvas size
   * alone. When it completes it composites and schedules exactly one tick, as
   * its last act; when it throws it puts nothing and schedules nothing, so
   * its loop ends.
   */
  lemma CallbackBehaviour(s: LoopState, nowMs: int, blurThrew: bool)
    requires s.outstanding > 0
    ensures var o := Callback(s, nowMs, blurThrew);
            o.state.lastFrameMs == nowMs &&
            o.effects[0] == ShowFps(nowMs - s.lastFrameMs) &&
            |o.effects| >= 2 && o.effects[1] == DrawVideoFrame(s.canvasWidth, s.canvasHeight) &&
            Requests(o.effects) == 0 &&
            o.state.canvasWidth == s.canvasWidth && o.state.canvasHeight == s.canvasHeight &&
            o.state.isFirstFrame == s.isFirstFrame &&
            o.state.outstanding == s.outstanding - 1
    ensures var o := Callback(s, nowMs, blurThrew);
            Completes(s, blurThrew) ==>
              PutCombinedFrame in o.effects && Rearms(o.effects) == 1 &&
              o.effects[|o.effects| - 1] == ScheduleTick && Pending(o.state) == Pending(s)
    ensures var o := Callback(s, nowMs, blurThrew);
            !Completes(s, blurThrew) ==>
              PutCombinedFrame !in o.effects && Rearms(o.effects) == 0 && Pending(o.state) == Pending(s) - 1
  {
    var fps, draw := ShowFps(nowMs - s.lastFrameMs), DrawVideoFrame(s.canvasWidth, s.canvasHeight);
    var tail := [PutCombinedFrame, ScheduleTick];
    CountIfCons(draw, [], IsRearm);
    CountIfCons(fps, [draw], IsRearm);
    CountIfCons(draw, [], IsRequest);
    CountIfCons(fps, [draw], IsRequest);
    assert [fps, draw] == [fps] + [draw] && [draw] == [draw] + [];
    if Completes(s, blurThrew) {
      assert [fps, draw] + tail == [fps] + ([draw] + tail);
      assert tail == [PutCombinedFrame] + ([ScheduleTick] + []);
      CountIfCons(ScheduleTick, [], IsRearm);
      CountIfCons(PutCombinedFrame, [ScheduleTick], IsRearm);
      CountIfCons(draw, tail, IsRearm);
      CountIfCons(fps, [draw] + tail, IsRearm);
      CountIfCons(ScheduleTick, [], IsRequest);
      CountIfCons(PutCombinedFrame, [ScheduleTick], IsRequest);
      CountIfCons(draw, tail, IsRequest);
      CountIfCons(fps, [draw] + tail, IsRequest);
    }
  }

  /** enableCamera does nothing at all while imageSegmenter is undefined. */
  lemma EnableCameraGuard(s: LoopState, streamGranted: bool)
    ensures !s.segmenterReady ==> EnableCamera(s, streamGranted) == Outcome(s, [])
    ensures s.segmenterReady && streamGranted ==>
              EnableCamera(s, streamGranted).state.scheduled == s.scheduled + 1 &&
              EnableCamera(s, streamGranted).state.outstanding == s.outstanding &&
              EnableCamera(s, streamGranted).state.listening
  {
  }

  /** One successful load from the initial state starts exactly one loop, with nothing in flight. */
  lemma LoadStartsOneLoop(nowMs: int, canvasWidth: nat, canvasHeight: nat)
    ensures var o := LoadSegmenter(Initial(nowMs, canvasWidth, canvasHeight), true, true, true);
            o.state.segmenterReady && o.state.scheduled == 1 && o.state.outstanding == 0 &&
            o.effects == [WatchLoadedData]
  {
  }

  // ---------------------------------------------------------------------------
  // Whole runs.
  // ---------------------------------------------------------------------------

  lemma {:induction false} CountIfAppend(a: seq<Effect>, b: seq<Effect>, p: Effect -> bool)
    ensures CountIf(a + b, p) == CountIf(a, p) + CountIf(b, p)
  {
    if a != [] {
      assert (a + b)[0] == a[0] && (a + b)[1..] == a[1..] + b;
      CountIfAppend(a[1..], b, p);
    } else {
      assert a + b == b;
    }
  }

  /** CountIf on a list given element by element. */
  lemma {:induction false} CountIfCons(x: Effect, rest: seq<Effect>, p: Effect -> bool)
    ensures CountIf([x] + rest, p) == (if p(x) then 1 else 0) + CountIf(rest, p)
  {
    assert ([x] + rest)[0] == x && ([x] + rest)[1..] == rest;
  }

  /** Of all steps, only a callback that completes schedules a tick, and it schedules one. */
  lemma StepRearms(s: LoopState, e: Event)
    requires Enabled(s, e)
    ensures Rearms(Step(s, e).effects) == if e.SegmentationDone? && Completes(s, e.blurThrew) then 1 else 0
  {
    match e
    case SegmenterLoaded(loaded, has, granted) =>
      var o := LoadSegmenter(s, loaded, has, granted);
      if o.effects != [] {
        assert o.effects == [WatchLoadedData] + [];
        CountIfCons(WatchLoadedData, [], IsRearm);
      }
    case AnimationFrame(w, h, now) =>
      TickBehaviour(s, w, h, now);
    case SegmentationDone(now, blurThrew) =>
      CallbackBehaviour(s, now, blurThrew);
    case StreamLoaded =>
  }

  /**
   * The loop re-arms only from the callback: a run schedules exactly as many
   * ticks as it has callbacks that complete, and so at most as many as it
   * delivers results.
   */
  lemma {:induction false} RearmsOnlyFromCallbacks(s: LoopState, trace: seq<Event>)
    requires Feasible(s, trace)
    ensures Rearms(Run(s, trace).effects) == CompletedCallbacks(s, trace)
    ensures CompletedCallbacks(s, trace) <= Callbacks(trace)
    decreases |trace|
  {
    if trace != [] {
      var first := Step(s, trace[0]);
      RearmsOnlyFromCallbacks(first.state, trace[1..]);
      CountIfAppend(first.effects, Run(first.state, trace[1..]).effects, IsRearm);
      StepRearms(s, trace[0]);
    }
  }

  /**
   * A callback that throws, in the one loop alive, leaves nothing due and
   * nothing in flight: the blur stops until the segmenter is loaded again or
   * the stream restarts.
   */
  lemma ThrowingCallbackEndsLoop(s: LoopState, nowMs: int, blurThrew: bool, e: Event)
    requires s.outstanding == 1 && s.scheduled == 0 && !Completes(s, blurThrew)
    requires Enabled(Callback(s, nowMs, blurThrew).state, e)
    ensures Pending(Callback(s, nowMs, blurThrew).state) == 0
    ensures e.SegmenterLoaded? || e.StreamLoaded?
  {
    CallbackBehaviour(s, nowMs, blurThrew);
    StalledLoopStaysStalled(Callback(s, nowMs, blurThrew).state, e);
  }

  /** Ticks and callbacks never add a loop: only a segmenter load or a reloaded stream can. */
  lemma {:induction false} PendingGrowsOnlyByStarts(s: LoopState, trace: seq<Event>)
    requires Feasible(s, trace)
    ensures Pending(Run(s, trace).state) <= Pending(s) + Starts(trace)
    decreases |trace|
  {
    if trace != [] {
      PendingGrowsOnlyByStarts(Step(s, trace[0]).state, trace[1..]);
    }
  }

  /**
   * From a state with at most one loop alive, and as long as neither the
   * segmenter is loaded again nor the stream restarted, never more than one
   * request is outstanding.
   */
  lemma AtMostOneOutstanding(s: LoopState, trace: seq<Event>)
    requires Pending(s) <= 1 && Feasible(s, trace) && Starts(trace) == 0
    ensures Run(s, trace).state.outstanding <= 1
  {
    PendingGrowsOnlyByStarts(s, trace);
  }

  /**
   * From module load, one successful load followed by any run without a
   * further load or stream restart: at most one request in flight.
   */
  lemma OneLoadOneLoop(nowMs: int, canvasWidth: nat, canvasHeight: nat, trace: seq<Event>)
    requires var s := Initial(nowMs, canvasWidth, canvasHeight);
             Feasible(s, [SegmenterLoaded(true, true, true)] + trace) && Starts(trace) == 0
    ensures Run(Initial(nowMs, canvasWidth, canvasHeight), [SegmenterLoaded(true, true, true)] + trace).state.outstanding <= 1
  {
    var s := Initial(nowMs, canvasWidth, canvasHeight);
    var all := [SegmenterLoaded(true, true, true)] + trace;
    assert all[0] == SegmenterLoaded(true, true, true) && all[1..] == trace;
    LoadStartsOneLoop(nowMs, canvasWidth, canvasHeight);
    AtMostOneOutstanding(Step(s, all[0]).state, trace);
  }

  /**
   * Loading the segmenter a second time (the blur button pressed again)
   * enables the camera again, and the new stream's first tick starts a second
   * loop beside the first: two loops are then alive, both with a request in
   * flight when results arrive only after the next tick.
   */
  lemma SecondLoadStartsSecondLoop(nowMs: int, canvasWidth: nat, canvasHeight: nat)
    ensures var trace := [SegmenterLoaded(true, true, true), AnimationFrame(640, 480, nowMs),
                          SegmenterLoaded(true, true, true), AnimationFrame(640, 480, nowMs)];
            Feasible(Initial(nowMs, canvasWidth, canvasHeight), trace) &&
            Run(Initial(nowMs, canvasWidth, canvasHeight), trace).state.outstanding == 2 &&
            Pending(Run(Initial(nowMs, canvasWidth, canvasHeight), trace).state) == 2
  {
    var load, frame := SegmenterLoaded(true, true, true), AnimationFrame(640, 480, nowMs);
    var trace := [load, frame, load, frame];
    var s0 := Initial(nowMs, canvasWidth, canvasHeight);
    var s1 := Step(s0, load).state;
    assert s1.scheduled == 1 && s1.outstanding == 0 && s1.segmenterReady;
    var s2 := Step(s1, frame).state;
    assert s2.scheduled == 0 && s2.outstanding == 1;
    var s3 := Step(s2, load).state;
    assert s3.scheduled == 1 && s3.outstanding == 1;
    var s4 := Step(s3, frame).state;
    assert s4.outstanding == 2 && s4.scheduled == 0;
    assert trace[1..] == [frame, load, frame] && trace[2..] == [load, frame] && trace[3..] == [frame];
    assert [frame, load, frame][1..] == [load, frame] && [load, frame][1..] == [frame] && [frame][1..] == [];
    assert Feasible(s4, []) && Run(s4, []).state == s4;
    assert Feasible(s3, [frame]) && Run(s3, [frame]).state == s4;
    assert Feasible(s2, [load, frame]) && Run(s2, [load, frame]).state == s4;
    assert Feasible(s1, [frame, load, frame]) && Run(s1, [frame, load, frame]).state == s4;
  }

  /**
   * Stopping the camera and starting it again, with the segmenter loaded
   * only once, also starts a second loop: the reloaded stream's `loadeddata`
   * calls predictWebcam while the first loop's request is still in flight,
   * and two loops are alive.
   */
  lemma StreamRestartStartsSecondLoop(nowMs: int, canvasWidth: nat, canvasHeight: nat)
    ensures var trace := [SegmenterLoaded(true, true, true), AnimationFrame(640, 480, nowMs),
                          StreamLoaded, AnimationFrame(640, 480, nowMs)];
            Feasible(Initial(nowMs, canvasWidth, canvasHeight), trace) &&
            |set i | 0 <= i < |trace| && trace[i].SegmenterLoaded?| == 1 &&
            Run(Initial(nowMs, canvasWidth, canvasHeight), trace).state.outstanding == 2 &&
            Pending(Run(Initial(nowMs, canvasWidth, canvasHeight), trace).state) == 2
  {
    var load, frame, reload := SegmenterLoaded(true, true, true), AnimationFrame(640, 480, nowMs), StreamLoaded;
    var trace := [load, frame, reload, frame];
    assert (set i | 0 <= i < |trace| && trace[i].SegmenterLoaded?) == {0};
    var s0 := Initial(nowMs, canvasWidth, canvasHeight);
    var s1 := Step(s0, load).state;
    assert s1.scheduled == 1 && s1.outstanding == 0 && s1.segmenterReady && s1.listening;
    var s2 := Step(s1, frame).state;
    assert s2.scheduled == 0 && s2.outstanding == 1 && s2.listening;
    var s3 := Step(s2, reload).state;
    assert s3.scheduled == 1 && s3.outstanding == 1;
    var s4 := Step(s3, frame).state;
    assert s4.outstanding == 2 && s4.scheduled == 0;
    assert trace[1..] == [frame, reload, frame] && trace[2..] == [reload, frame] && trace[3..] == [frame];
    assert [frame, reload, frame][1..] == [reload, frame] && [reload, frame][1..] == [frame] && [frame][1..] == [];
    assert Feasible(s4, []) && Run(s4, []).state == s4;
    assert Feasible(s3, [frame]) && Run(s3, [frame]).state == s4;
    assert Feasible(s2, [reload, frame]) && Run(s2, [reload, frame]).state == s4;
    assert Feasible(s1, [frame, reload, frame]) && Run(s1, [frame, reload, frame]).state == s4;
  }

  /**
   * Once no tick is due and no request is in flight, only a segmenter load
   * or a reloaded stream can make anything happen.
   */
  lemma StalledLoopStaysStalled(s: LoopState, e: Event)
    requires Pending(s) == 0 && Enabled(s, e)
    ensures e.SegmenterLoaded? || e.StreamLoaded?
  {
  }

  /**
   * A request the segmenter never answers stalls its loop: with one request
   * in flight and no tick due, no animation frame comes, so not even the raw
   * video is drawn again until the result arrives, the segmenter is loaded
   * again or the stream restarts.
   */
  lemma UnansweredRequestStallsDrawing(s: LoopState, e: Event)
    requires s.outstanding == 1 && s.scheduled == 0 && Enabled(s, e)
    ensures !e.AnimationFrame?
    ensures e.SegmentationDone? || e.SegmenterLoaded? || e.StreamLoaded?
  {
  }

  /** After the first tick the canvas size never changes again, and isFirstFrame is never set back. */
  lemma {:induction false} CanvasFixedAfterFirstTick(s: LoopState, trace: seq<Event>)
    requires !s.isFirstFrame && Feasible(s, trace)
    ensures var t := Run(s, trace).state;
            !t.isFirstFrame && t.canvasWidth == s.canvasWidth && t.canvasHeight == s.canvasHeight
    decreases |trace|
  {
    if trace != [] {
      CanvasFixedAfterFirstTick(Step(s, trace[0]).state, trace[1..]);
    }
  }
}
