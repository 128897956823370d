/**
 * The module-level state of either script as an object, with the handlers
 * that change it in place. Each handler is proved against the step of
 * RenderLoop that specifies it; the callback also composites the frame with
 * the argument order of its script.
 */
module Pipeline {
  import opened Compositor
  import opened RenderLoop
  import UserAgent

  datatype Option<T> = None | Some(value: T)

  /**
   * applyBackgroundBlur throws: only scriptSelfieSegmenter.js calls
   * `StackBlur.canvasRGBA`, on its Safari branch, and the module neither
   * declares nor imports `StackBlur`, so the call throws a ReferenceError
   * unless the page defines that global.
   */
  predicate BlurThrows(variant: Variant, userAgent: string, stackBlurDefined: bool)
  {
    variant == SelfieSegmenter && UserAgent.IsSafari(userAgent) && !stackBlurDefined
  }

  /** script.js never throws in its blur, nor does either script outside Safari or with StackBlur present. */
  lemma BlurThrowsOnlyOnSafariWithoutStackBlur(variant: Variant, userAgent: string, stackBlurDefined: bool)
    ensures BlurThrows(variant, userAgent, stackBlurDefined) <==>
              variant == SelfieSegmenter && !stackBlurDefined &&
              UserAgent.Contains(UserAgent.ToLower(userAgent), "safari") &&
              !UserAgent.Contains(UserAgent.ToLower(userAgent), "chrome")
  {
    UserAgent.IsSafariMeaning(userAgent);
  }

  class BlurPipeline {
    /** Which script this is: it decides the argument order of combineImages. */
    const variant: Variant

    var isFirstFrame: bool
    var canvasWidth: nat
    var canvasHeight: nat
    var segmenterReady: bool
    /** predictWebcam is registered for the video's `loadeddata`. */
    var listening: bool
    var lastFrameMs: int
    /** Segmentation requests whose callback has not run. */
    var outstanding: nat
    /** Calls of predictWebcam that are due. */
    var scheduled: nat
    /** Everything drawn, requested and scheduled so far, in order. */
    var effects: seq<Effect>

    /** The fields as a RenderLoop state. */
    function State(): LoopState
      reads this
    {
      LoopState(isFirstFrame, canvasWidth, canvasHeight, segmenterReady, listening, lastFrameMs, outstanding, scheduled)
    }

    /** Module load: `isFirstFrame = true`, no segmenter, `lastFrameMs = Date.now()`. */
    constructor (variant: Variant, nowMs: int, canvasWidth: nat, canvasHeight: nat)
      ensures this.variant == variant
      ensures State() == Initial(nowMs, canvasWidth, canvasHeight) && effects == []
    {
      this.variant := variant;
      isFirstFrame := true;
      this.canvasWidth, this.canvasHeight := canvasWidth, canvasHeight;
      segmenterReady, listening := false, false;
      lastFrameMs := nowMs;
      outstanding, scheduled := 0, 0;
      effects := [];
    }

    /** enableCamera: returns at once while imageSegmenter is undefined. */
    method EnableCamera(streamGranted: bool)
      modifies this
      ensures var o := RenderLoop.EnableCamera(old(State()), streamGranted);
              State() == o.state && effects == old(effects) + o.effects
      ensures !old(segmenterReady) ==> State() == old(State()) && effects == old(effects)
    {
      if !segmenterReady {
        return;
      }
      if streamGranted {
        listening := true;
        scheduled := scheduled + 1;
        effects := effects + [WatchLoadedData];
      }
    }

    /** loadMediaPipeImageSegmenter, with the outcome of the asynchronous load and of the camera request given. */
    method LoadMediaPipeImageSegmenter(loaded: bool, hasGetUserMedia: bool, streamGranted: bool)
      modifies this
      ensures var o := LoadSegmenter(old(State()), loaded, hasGetUserMedia, streamGranted);
              State() == o.state && effects == old(effects) + o.effects
      ensures loaded ==> segmenterReady
    {
      if !loaded {
        return;
      }
      segmenterReady := true;
      if hasGetUserMedia {
        EnableCamera(streamGranted);
      }
    }

    /** `loadeddata` of a restarted stream reaches the still-registered predictWebcam: one more tick is due. */
    method OnLoadedData()
      requires listening
      modifies this
      ensures State() == StreamReloaded(old(State())).state && effects == old(effects)
      ensures scheduled == old(scheduled) + 1 && outstanding == old(outstanding)
    {
      scheduled := scheduled + 1;
    }

    /** predictWebcam, run for a due tick, with the video's size and Date.now() given. */
    method PredictWebcam(videoWidth: nat, videoHeight: nat, nowMs: int)
      requires scheduled > 0
      modifies this
      ensures var o := Tick(old(State()), videoWidth, videoHeight, nowMs);
              State() == o.state && effects == old(effects) + o.effects
      ensures !isFirstFrame
      ensures old(isFirstFrame) ==> canvasWidth == videoWidth && canvasHeight == videoHeight
      ensures !old(isFirstFrame) ==> canvasWidth == old(canvasWidth) && canvasHeight == old(canvasHeight)
      ensures outstanding == old(outstanding) + (if old(segmenterReady) then 1 else 0)
    {
      scheduled := scheduled - 1;
      if isFirstFrame {
        isFirstFrame := false;
        canvasWidth := videoWidth;
        canvasHeight := videoHeight;
      }
      effects := effects + [ClearAndDrawVideoFrame(videoWidth, videoHeight)];
      if !segmenterReady {
        return;
      }
      outstanding := outstanding + 1;
      effects := effects + [RequestSegmentation(nowMs)];
    }

    /**
     * drawSegmentationResult for a delivered result: `webcam` is the frame
     * read back from the canvas, `blurred` what applyBackgroundBlur made of
     * it, `mask` the first confidence mask of the result. The user agent and
     * whether the page defines `StackBlur` decide whether the blur throws.
     * The result is None when the callback throws before compositing.
     */
    method DrawSegmentationResult(nowMs: int, mask: seq<real>, webcam: array<Byte>, blurred: array<Byte>,
                                  userAgent: string, stackBlurDefined: bool)
      returns (combined: Option<array<Byte>>)
      requires outstanding > 0
      modifies this, webcam, blurred
      ensures var o := Callback(old(State()), nowMs, BlurThrows(variant, userAgent, stackBlurDefined));
              State() == o.state && effects == old(effects) + o.effects
      ensures lastFrameMs == nowMs
      ensures combined.Some? <==> old(canvasWidth) > 0 && old(canvasHeight) > 0 &&
                                  !BlurThrows(variant, userAgent, stackBlurDefined)
      ensures combined.None? ==> webcam[..] == old(webcam[..]) && blurred[..] == old(blurred[..])
      ensures combined.Some? ==> combined.value[..] == CallSiteOutput(variant, old(webcam[..]), old(blurred[..]), mask,
                                                                      canvasWidth, canvasHeight)
      ensures combined.Some? && variant == Script ==>
                combined.value == webcam && (blurred != webcam ==> blurred[..] == old(blurred[..]))
      ensures combined.Some? && variant == SelfieSegmenter ==>
                combined.value == blurred && (webcam != blurred ==> webcam[..] == old(webcam[..]))
    {
      var elapsed := nowMs - lastFrameMs;
      lastFrameMs := nowMs;
      outstanding := outstanding - 1;
      effects := effects + [ShowFps(elapsed), DrawVideoFrame(canvasWidth, canvasHeight)];
      if canvasWidth == 0 || canvasHeight == 0 || BlurThrows(variant, userAgent, stackBlurDefined) {
        // getImageData or applyBackgroundBlur throws: the callback ends without re-arming
        return None;
      }
      var c := CombineAtCallSite(variant, webcam, blurred, mask, canvasWidth, canvasHeight);
      combined := Some(c);
      effects := effects + [PutCombinedFrame];
      scheduled := scheduled + 1;
      effects := effects + [ScheduleTick];
    }
  }

  /**
   * A client of the class: from module load, a successful load, one tick and
   * one callback leave exactly one tick due and nothing in flight, with the
   * canvas sized from the video.
   */
  method OneRound(variant: Variant, mask: seq<real>, webcam: array<Byte>, blurred: array<Byte>)
    returns (round: BlurPipeline)
    modifies webcam, blurred
    ensures round.scheduled == 1 && round.outstanding == 0
    ensures round.canvasWidth == 640 && round.canvasHeight == 480 && !round.isFirstFrame
    ensures round.effects == [WatchLoadedData, ClearAndDrawVideoFrame(640, 480), RequestSegmentation(1000),
                              ShowFps(1040), DrawVideoFrame(640, 480), PutCombinedFrame, ScheduleTick]
  {
    round := new BlurPipeline(variant, 0, 300, 150);
    round.LoadMediaPipeImageSegmenter(true, true, true);
    round.PredictWebcam(640, 480, 1000);
    var combined := round.DrawSegmentationResult(1040, mask, webcam, blurred, "", true);
  }
}
