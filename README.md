# Webcam background blur: compositor, Safari check and render loop

This project models the core of a browser app that blurs the background of a
live webcam picture. It comes in two near-identical scripts,
`src/scriptSelfieSegmenter.js` and `src/script.js`. Each frame goes through
the same steps. The current video frame is drawn. A segmentation model is
asked, asynchronously, for a per-pixel confidence mask. When the result
arrives, a callback blurs a copy of the frame, composites the sharp copy and
the blurred copy through the mask, and asks the browser for the next
animation frame.

The model has four modules:

- `Compositor` (compositor.dfy) models `combineImages`, the in-place compositor.
  - Pixel buffers are `array<Byte>`, with `Byte` ranging over 0..255, and the
    mask is a `seq<real>`.
  - `CombineImages` is a loop over the array. Its result is proved equal to
    `Composite`, a function of the old buffer contents.
  - Lemmas about `Composite` state what the loop promises. One set of lemmas
    gives the outcome at each script's call site, since the two scripts pass
    the frames in opposite orders.
  - Typed-array behaviour is modelled without preconditions:
    - A read past the end of a buffer gives `undefined`, which a
      `Uint8ClampedArray` stores as 0.
    - A write past the end of a buffer is dropped.
    - A missing mask entry is not confident, because `undefined >= t` is false.
  - The two buffers may be the same array.
- `UserAgent` (user_agent.dfy) models `isSafari`. It is built from ASCII
  lower-casing and `IndexOf`, a model of `String.prototype.indexOf` that
  counts positions in characters rather than UTF-16 code units.
  `IndexOf` is specified against a plain "occurs at" predicate.
- `RenderLoop` (render_loop.dfy) models the module-level state as a pure state
  machine.
  - The steps are `Tick` (`predictWebcam`), `Callback`
    (`drawSegmentationResult`), `EnableCamera` and `LoadSegmenter`
    (`loadMediaPipeImageSegmenter`).
  - Each step returns its new state and a list of opaque effects: draws
    (the tick clears the canvas first, the callback does not), segmentation
    requests, FPS updates and scheduled ticks.
  - `enableCamera` registers `predictWebcam` for the video's `loadeddata`
    and never removes it. Stopping and starting the camera assigns a new
    stream to the same video element, and its `loadeddata` calls
    `predictWebcam` again. This is the `StreamLoaded` event.
  - Two counters stand for what the browser and the segmenter hold:
    - `scheduled` counts the calls of `predictWebcam` that are due.
    - `outstanding` counts the requests whose callback has not run yet.
  - Lemmas over whole event traces show the following:
    - The loop re-arms only from a callback that runs to its end.
    - A callback that throws ends its loop.
    - A tick without a segmenter stalls the loop.
    - Only segmenter loads and reloaded streams can add a loop.
    - After one successful load, and with no further load or stream restart,
      at most one request is ever in flight.
    - A second load, from pressing the blur button again, starts a second loop.
    - So does stopping and starting the camera once the segmenter is loaded.
- `Pipeline` (pipeline.dfy) models the same state as a class, `BlurPipeline`,
  whose fields the handlers update in place.
  - Each method is proved against the `RenderLoop` step it implements.
  - The callback composites with the argument order of its script.

Behaviour of the code worth knowing:

- A request the segmenter never answers stalls its loop. With one request in
  flight and no tick due, no animation frame comes, so even the raw video
  stops being drawn until the result arrives.

- The callback can throw before it re-arms, and then that loop ends.
  `getImageData` throws on a canvas with a zero side.
  In `src/scriptSelfieSegmenter.js`, the Safari branch of `applyBackgroundBlur`
  calls a `StackBlur` global that the module never declares or imports
  (line 245). Unless the page defines it, every Safari callback throws.

- `isFirstFrame` is never reset. It is set once, when the module loads, so the
  canvas is sized from the video only on the very first tick.
- The FPS value is not guarded against a zero delay, so the model claims no
  guard.
- In `src/script.js`, confident pixels receive the blurred colours, not the
  sharp ones (`src/script.js:193`).
- Leaving blur mode (the "unblur" button) only hides the canvas. The loop keeps
  running, so the model has no exit transition.

## Model

| member | source | states |
|---|---|---|
| `Compositor.CopyByte` | src/scriptSelfieSegmenter.js:217-219 | one byte store of a typed array: byte k of the destination takes the source's byte k (0 past the source's end); a store past the destination's end changes nothing |
| `Compositor.CopyPixelIfConfident` | src/scriptSelfieSegmenter.js:216-220 | one pass of the loop body at index i: the R, G and B bytes of pixel i/4 take the second buffer's bytes exactly when that pixel is confident; no other byte changes |
| `Compositor.CombineImages` | src/scriptSelfieSegmenter.js:210-224 | mutates its first buffer in place into `Composite` of the old contents, returns that same buffer, and leaves the second buffer unchanged unless it is the same array; the same function is src/script.js:203-217 |
| `Compositor.CompositeLength` | src/scriptSelfieSegmenter.js:214-223 | the output buffer keeps the length of the first buffer |
| `Compositor.ConfidentPixelTakesOverlayRgb` | src/scriptSelfieSegmenter.js:214-219 | for a pixel p < w*h with mask[p] >= threshold, bytes 4p..4p+2 are the second buffer's bytes (the same code is src/script.js:207-212) |
| `Compositor.UnconfidentPixelUnchanged` | src/script.js:209 | a pixel whose mask entry is below the threshold, or missing, keeps all four bytes of the first buffer |
| `Compositor.AlphaUnchanged` | src/scriptSelfieSegmenter.js:217-219 | byte 4p+3 (alpha) is never written, for any p |
| `Compositor.BeyondCanvasUnchanged` | src/script.js:207 | no byte at index >= w*h*4 is written |
| `Compositor.ThresholdInclusive` | src/scriptSelfieSegmenter.js:216 | a mask value exactly equal to the threshold counts as confident (`>=`) |
| `Compositor.PixelLocal` | src/script.js:207-213 | two masks that agree on pixel p give the same output bytes for p: compositing is pixel-local |
| `Compositor.MixedMaskExample` | src/scriptSelfieSegmenter.js:214-221 | 2x2 frame, mask [0.9, 0.1, 0.5, 0.5], threshold 0.4: pixels 0, 2, 3 take the second buffer's colours, pixel 1 is untouched, alpha is untouched |
| `Compositor.SelfieSegmenterAllConfidentIsSharp` | src/scriptSelfieSegmenter.js:200 | with the blurred frame as base, an all-confident mask gives the sharp frame's RGB everywhere (alpha from the blurred frame) |
| `Compositor.SelfieSegmenterAllZeroIsBlurred` | src/scriptSelfieSegmenter.js:200 | with an all-zero mask the output is exactly the blurred frame |
| `Compositor.ScriptAllConfidentIsBlurred` | src/script.js:193 | with the sharp frame as base, an all-confident mask gives the blurred frame's RGB everywhere (alpha from the sharp frame) |
| `Compositor.ScriptAllZeroIsSharp` | src/script.js:193 | with an all-zero mask the sharp frame comes out unchanged |
| `Compositor.CallSitesDisagree` | src/script.js:193 | on a confident pixel whose sharp and blurred colours differ, script.js outputs the blurred colour and scriptSelfieSegmenter.js (line 200) the sharp one |
| `Compositor.CombineAtCallSite` | src/scriptSelfieSegmenter.js:196-200 | the composite step of the callback returns `CallSiteOutput` of the old frames: combineImages(blurred, sharp) here, combineImages(sharp, blurred) in src/script.js:193 |
| `UserAgent.IndexFrom` | src/scriptSelfieSegmenter.js:263 | the search of indexOf from a position: -1 exactly when the pattern occurs nowhere from there, otherwise the first occurrence from there |
| `UserAgent.IndexOf` | src/script.js:258 | `indexOf` is -1 exactly when the pattern does not occur, and otherwise the least index at which it occurs |
| `UserAgent.IsSafariMeaning` | src/scriptSelfieSegmenter.js:260-264 | isSafari(ua) holds exactly when lowercase(ua) contains "safari" and does not contain "chrome" (the same function is src/script.js:255-259) |
| `UserAgent.ChromeInAnyCaseIsNotSafari` | src/scriptSelfieSegmenter.js:262-263 | a user agent containing "chrome" in any mix of cases ("Chrome", "CHROME", ...) is never Safari |
| `UserAgent.IsSafariIgnoresPreLowering` | src/script.js:257-258 | lower-casing the user agent before the call does not change the answer |
| `RenderLoop.TickBehaviour` | src/scriptSelfieSegmenter.js:141-160 | a tick sets the canvas size from the video on the first tick only, clears isFirstFrame, always clears the canvas and draws the raw frame first, issues exactly one request when the segmenter is defined and none otherwise, and schedules nothing (same code src/script.js:135-154) |
| `RenderLoop.TickWithoutSegmenterStalls` | src/script.js:146-149 | with the segmenter undefined a tick only draws the raw frame, and the loop loses its due tick |
| `RenderLoop.CallbackBehaviour` | src/scriptSelfieSegmenter.js:181-207 | a callback sets lastFrameMs to now, shows the FPS from the delay since the previous callback, then draws the frame at the canvas size, issues no request and keeps the canvas size; when it completes it composites and schedules exactly one tick as its last act, and when `getImageData` (zero-sized canvas, line 193) or the blur (line 196) throws it puts nothing and schedules nothing (same code src/script.js:175-200) |
| `RenderLoop.EnableCameraGuard` | src/scriptSelfieSegmenter.js:162-177 | enableCamera changes nothing while the segmenter is undefined; otherwise a granted stream makes one tick due, adds no request in flight, and registers predictWebcam for `loadeddata` (same code src/script.js:156-171) |
| `RenderLoop.LoadStartsOneLoop` | src/scriptSelfieSegmenter.js:100-112 | one successful load from module load leaves one tick due and no request in flight |
| `RenderLoop.StepRearms` | src/scriptSelfieSegmenter.js:206 | of all handlers, only a callback that completes schedules a tick, and it schedules exactly one |
| `RenderLoop.RearmsOnlyFromCallbacks` | src/script.js:199 | over any run, the number of scheduled ticks equals the number of callbacks that complete, and so is at most the number of delivered results: the loop re-arms only from the callback |
| `RenderLoop.ThrowingCallbackEndsLoop` | src/script.js:187-199 | when the one loop alive has its callback throw, nothing is due or in flight any more, and only a segmenter load or a reloaded stream can happen next |
| `RenderLoop.UnansweredRequestStallsDrawing` | src/scriptSelfieSegmenter.js:158-159 | with one request in flight and no tick due, no animation frame can happen: only the result, a segmenter load or a reloaded stream comes next |
| `RenderLoop.PendingGrowsOnlyByStarts` | src/script.js:147-153 | over any run, due ticks plus requests in flight grow at most by the number of segmenter loads and reloaded streams (`loadeddata` reaching the registered predictWebcam, line 170) |
| `RenderLoop.AtMostOneOutstanding` | src/script.js:152-153 | starting from at most one loop, and with no further load or stream restart, never more than one request is outstanding |
| `RenderLoop.OneLoadOneLoop` | src/scriptSelfieSegmenter.js:158-159 | from module load, one successful load followed by any run without a further load or stream restart keeps at most one request in flight |
| `RenderLoop.SecondLoadStartsSecondLoop` | src/scriptSelfieSegmenter.js:100-112 | loading the segmenter again (blur pressed twice) re-enables the camera, and the new stream's tick leaves two loops alive, both with a request in flight |
| `RenderLoop.StreamRestartStartsSecondLoop` | src/scriptSelfieSegmenter.js:176 | with the segmenter loaded once, a tick and then a restarted stream (line 81 assigns it to the same video element) whose `loadeddata` reaches the still-registered predictWebcam leave two loops alive, both with a request in flight |
| `RenderLoop.StalledLoopStaysStalled` | src/scriptSelfieSegmenter.js:152-155 | with no tick due and no request in flight, only a segmenter load or a reloaded stream can happen next |
| `RenderLoop.CanvasFixedAfterFirstTick` | src/scriptSelfieSegmenter.js:142-146 | once isFirstFrame is false, no run changes the canvas size or sets isFirstFrame again |
| `Pipeline.BlurPipeline.constructor` | src/scriptSelfieSegmenter.js:140 | module load: isFirstFrame true, no segmenter, lastFrameMs = now (line 180), nothing due |
| `Pipeline.BlurPipeline.EnableCamera` | src/script.js:156-159 | updates the fields as `RenderLoop.EnableCamera` says; while the segmenter is undefined it returns with nothing changed |
| `Pipeline.BlurPipeline.LoadMediaPipeImageSegmenter` | src/script.js:95-107 | updates the fields as `RenderLoop.LoadSegmenter` says; a failed load changes nothing, a successful one defines the segmenter |
| `Pipeline.BlurPipeline.OnLoadedData` | src/script.js:170 | `loadeddata` of a restarted stream (line 76) reaches the registered predictWebcam: updates the fields as `RenderLoop.StreamReloaded` says, one more tick due and nothing else changed |
| `Pipeline.BlurPipeline.PredictWebcam` | src/script.js:135-154 | updates the fields in place as `RenderLoop.Tick` says: canvas sized on the first tick only, one more request in flight exactly when the segmenter is defined |
| `Pipeline.BlurPipeline.DrawSegmentationResult` | src/scriptSelfieSegmenter.js:181-207 | updates the fields as `RenderLoop.Callback` says, with the blur throwing as `BlurThrows` says, and sets lastFrameMs to now; it returns a composite exactly when the canvas has no zero side and the blur does not throw, and then it is the composite of its script's call site over the canvas size, with the buffer that is not the base left unchanged; on a throw both buffers are left unchanged |
| `Pipeline.BlurThrowsOnlyOnSafariWithoutStackBlur` | src/scriptSelfieSegmenter.js:244-246 | the blur throws exactly in scriptSelfieSegmenter.js, on an agent whose lower-cased form contains "safari" and not "chrome", when `StackBlur` is not defined |
| `Pipeline.OneRound` | src/script.js:175-200 | from module load, a load, one tick and one callback: one tick due again, nothing in flight, canvas sized from the video, and the exact effect sequence |

## Left out

- Event wiring and UI: the button listeners, enabling and showing elements (src/script.js:18-65), and `hasGetUserMedia`. Starting and stopping the stream are not modelled as steps; a restarted stream appears only through the `loadeddata` it fires (`StreamLoaded`), and a stopped stream simply fires no more. Whether getUserMedia exists and whether the camera is granted are parameters of the load step.
- `video.onplaying` also sets the canvas size. It is event glue and is not part of this model, so `CanvasFixedAfterFirstTick` speaks only of the loop's own handlers.
- MediaPipe (`createImageSegmenter`, `segmentForVideo`, `getAsFloat32Array`) is a foreign library. Its load is a boolean parameter, its request an opaque `RequestSegmentation` effect, its result a mask parameter.
- `applyBackgroundBlur` is not modelled. It only sets a canvas or CSS filter, or calls a `StackBlur` global that the file never imports. Its output is an opaque `blurred` buffer. Whether it throws is modelled: `BlurThrows` states when, with the presence of the `StackBlur` global as a parameter. In scriptSelfieSegmenter.js the filter is set on the Safari branch too (line 250). In script.js its `bgCanvas` is the output canvas itself (line 11).
- The FPS value `Math.round(1000 / elapsed)` is floating-point division. Only the integer delay is recorded, as `ShowFps(elapsed)`.
- `Date.now()` and `requestAnimationFrame` timing are parameters and effects. Draw calls (`save`, `clearRect`, `drawImage`, `putImageData`) are opaque effects.
- Mask values are compared as exact reals. Float32 and double rounding of the 0.4 threshold is not modelled.
- `UserAgent.IsSafariMeaning`: `toLowerCase` is modelled on ASCII letters only. Full Unicode case mapping is not modelled.
- `UserAgent.IndexOf`: JavaScript's `indexOf` counts UTF-16 code units, while the model counts characters. The two indices differ after a character outside the Basic Multilingual Plane; whether the result is -1 does not, and that is all `isSafari` tests.
- `maxConfidence` is declared and never used (src/scriptSelfieSegmenter.js:19).
