# FilterPlayer playback core in Dafny

This project models `YHPlayerCore`, the playback controller of FilterPlayer. The controller wraps an
AVPlayer. It posts status events to its host, and on each display-link tick it pulls one decoded
pixel buffer and hands it to a delegate. The model covers the controller's decisions, which involve
no I/O:

- **Timing** (`timing.dfy`): the `CMTime` record with Swift's `Int32`/`Int64` widths as newtypes.
  It has Swift's truncating integer division and `CMTimeToMillis`, both as written and as
  evidently intended (see Findings). It also has the `seekTo` target `CMTimeMake(location, 1000)`.
- **Orientation** (`orientation.dfy`): the decision part of `fixTransform` and `getVideoComposition`.
  The rotation is read off the transform's `(b, a)` entries by a float pipeline (`atan2`, `roundf`,
  conversion to degrees). Here that pipeline is an arbitrary total function `degreesOf`.
- **Buffering** (`buffering.dfy`): the `loadedTimeRanges` → `bufferingUpdate` report, with the loop
  that builds it.
- **FramePump** (`frame_pump.dfy`): the `copyPixelBuffer`/`loopAction` gate. The video output is an
  abstract sample per tick: the item time, whether a new buffer exists, and what a copy returns.
- **Playback** (`playback.dfy`): the class `PlayerCore` with the source's flags `isPlaying`,
  `isLooping` and `isInitialized`. It also has the abstract player state: display-link paused,
  play/pause, rate and volume. The event log stands for `playEvent`; the seek and frame logs stand
  for the calls to the player and the delegate. Every control method except those listed under
  "Left out" (`position`, `duration`, `setMixWithOthers`, `close`), and every observer branch, is
  a method.
- **Wrappers** (`wrappers.dfy`): `Option`.

The decoder's observables are method parameters (`ItemInfo`, `OutputSample`, the time ranges).
These are the presentation size, the duration, `canPlayFastForward`/`canPlaySlowForward`, the
error description, and the item time and buffer of a tick. `hasPlayer` records whether the
controller was built with an item. Without one, the source creates no player, video output or
display link. So each `player?`/`displayLink?` call site is a no-op when `hasPlayer` is false, and
each `player!`/`videoOutput!` site is a `requires hasPlayer` (the source traps there).

`PlayerCore.Valid()` is the invariant every method keeps:
- the log holds one `initialized` event if `isInitialized` is true and none otherwise;
- the volume lies in [0, 1].

`PlayerCore.Synced()` holds when the player plays, and the display link runs, exactly when the
controller is initialized and `isPlaying` is true. `play`, `pause`, `updatePlayingState` and every
observer callback preserve it. `sendInitialized` is the exception: it can set `isInitialized`
without touching the player or the link. The source calls it only from the readyToPlay branch,
where `updatePlayingState` follows at once and restores `Synced()`.

Three behaviours of the code are easy to miss:
- `play`/`pause` set `isPlaying` even before initialization (source lines 321-329).
- `sendInitialized` stops only when BOTH presentation dimensions are zero (line 291).
- `CMTimeToMillis` narrows value*1000 to 32 bits (line 34). `Timing.CMTimeToMillis` models that
  narrowing, but the controller and the buffering report use the Int64 conversion instead (see
  Findings and "Left out").

## Model

| member | source | states |
|---|---|---|
| Timing.TruncDiv | FilterPlayer/YHPlayerCore.swift:34 | Swift integer division: the remainder is smaller than the divisor in magnitude and never opposite in sign to the dividend; the quotient's magnitude is at most the dividend's |
| Timing.TruncatedQuotientUnique | FilterPlayer/YHPlayerCore.swift:34 | the truncation property determines the quotient uniquely |
| Timing.TruncationDiffersFromEuclidean | FilterPlayer/YHPlayerCore.swift:34 | -1/1000 truncates to 0 in Swift but is -1 under Euclidean division |
| Timing.CMTimeToMillis | FilterPlayer/YHPlayerCore.swift:30-35 | 0 for a zero timescale; otherwise the truncated quotient of value*1000 by the timescale, defined only where value*1000 fits in Int32 (it traps otherwise); the result fits in 32 bits |
| Timing.CMTimeToMillisWide | FilterPlayer/YHPlayerCore.swift:30-35 | the intended conversion: same result, computed in Int64 |
| Timing.WideAgreesWithNarrow | FilterPlayer/YHPlayerCore.swift:34 | wherever the as-written conversion does not trap, the Int64 conversion is defined and equal to it |
| Timing.NarrowingTrapsOnThirtySecondsAt90kHz | FilterPlayer/YHPlayerCore.swift:34 | 30 s at timescale 90000 traps as written but converts to 30000 ms in Int64 |
| Timing.SeekTimeRoundTrip | FilterPlayer/YHPlayerCore.swift:339-343 | converting the seek target CMTimeMake(location, 1000) back gives location; as written this works exactly when abs(location) <= 2147483 |
| Orientation.FixTransform | FilterPlayer/YHPlayerCore.swift:137-154 | a, b, c, d never change; a transform with a translation is returned unchanged; with none, 90 degrees gives tx = natural height and ty = 0, 270 gives tx = 0 and ty = natural width, any other rotation leaves it unchanged |
| Orientation.FixTransformStable | FilterPlayer/YHPlayerCore.swift:137-154 | the rotation read off the fixed transform is the original one, and fixing twice equals fixing once |
| Orientation.RenderSize | FilterPlayer/YHPlayerCore.swift:169-178 | (height, width) for 90 or 270 degrees, (width, height) otherwise; the area is preserved |
| Orientation.VideoComposition | FilterPlayer/YHPlayerCore.swift:156-184 | time range from zero over the asset duration, layer transform = the fixed transform, render size from the fixed transform's rotation, frame duration 1/30 s (33 ms) |
| Orientation.FixedQuarterTurnLandsInRenderRect | FilterPlayer/YHPlayerCore.swift:143-146 | for the exact quarter turn read as 90 degrees, the fixed transform maps every point of the natural frame into the composition's render rectangle |
| Orientation.FixedThreeQuarterTurnLandsInRenderRect | FilterPlayer/YHPlayerCore.swift:147-151 | the same for the exact three-quarter turn read as 270 degrees |
| Buffering.ReportAt | FilterPlayer/YHPlayerCore.swift:220-229 | the report has one pair per loaded range, in order, the i-th being [millis(start), millis(start) + millis(duration)] |
| Buffering.ReportSnoc | FilterPlayer/YHPlayerCore.swift:222-228 | reporting one more range appends exactly its pair |
| Buffering.PairOrdered | FilterPlayer/YHPlayerCore.swift:224-227 | a range with non-negative duration is reported with end >= start |
| Buffering.BufferingValues | FilterPlayer/YHPlayerCore.swift:221-229 | the loop builds exactly the report: same length, pointwise pairs |
| FramePump.CopyPixelBuffer | FilterPlayer/YHPlayerCore.swift:429-437 | returns something exactly when the output has a new buffer, and then returns the copy with the item time |
| FramePump.PumpedFrame | FilterPlayer/YHPlayerCore.swift:440-448 | a frame is delivered exactly when there is a new buffer and the copy is non-nil; it carries that buffer and the tick's item time |
| FramePump.DeliveredAppend | FilterPlayer/YHPlayerCore.swift:440-448 | frames of later ticks come after frames of earlier ticks |
| FramePump.DeliveredAtMostOnePerTick | FilterPlayer/YHPlayerCore.swift:440-448 | no more frames are delivered than ticks |
| FramePump.NothingNewNothingDelivered | FilterPlayer/YHPlayerCore.swift:431-436 | ticks without a new buffer deliver nothing |
| FramePump.EveryNewFrameDelivered | FilterPlayer/YHPlayerCore.swift:440-446 | when every tick has a new non-nil buffer, all are delivered in order with their own item times |
| Playback.ClampVolume | FilterPlayer/YHPlayerCore.swift:350 | below 0 gives 0, above 1 gives 1, otherwise the input; always in [0, 1] |
| Playback.ClampVolumeIdempotent | FilterPlayer/YHPlayerCore.swift:350 | clamping a clamped volume changes nothing |
| Playback.SpeedRejection | FilterPlayer/YHPlayerCore.swift:356-381 | accepted iff (speed <= 2 or fast-forward supported) and (speed >= 1 or slow-forward supported); the fast-forward message iff speed > 2 without support, the slow-forward message iff speed < 1 without support |
| Playback.PlayerCore.constructor | FilterPlayer/YHPlayerCore.swift:70-78 | all flags false, display link paused (line 134), empty logs; Valid and Synced hold |
| Playback.PlayerCore.SendInitialized | FilterPlayer/YHPlayerCore.swift:282-306 | once initialized, nothing changes; otherwise it becomes initialized and appends exactly one initialized event (duration, width, height) iff the size is not (0, 0) and the duration is not 0 ms, else nothing; at most one initialized event is ever logged; when it does not change isInitialized it keeps Synced |
| Playback.PlayerCore.UpdatePlayingState | FilterPlayer/YHPlayerCore.swift:308-318 | no-op before initialization; afterwards the player plays iff isPlaying and the display link is paused iff not isPlaying |
| Playback.PlayerCore.Play | FilterPlayer/YHPlayerCore.swift:321-324 | isPlaying becomes true even before initialization; once initialized the player plays and the link runs |
| Playback.PlayerCore.Pause | FilterPlayer/YHPlayerCore.swift:326-329 | isPlaying becomes false even before initialization; once initialized the player pauses and the link stops |
| Playback.PlayerCore.SeekTo | FilterPlayer/YHPlayerCore.swift:339-343 | issues one exact seek to CMTimeMake(location, 1000) when there is a player |
| Playback.PlayerCore.SetIsLooping | FilterPlayer/YHPlayerCore.swift:345-347 | stores the flag |
| Playback.PlayerCore.SetVolume | FilterPlayer/YHPlayerCore.swift:349-351 | the player's volume becomes the clamped input, so it stays in [0, 1] |
| Playback.PlayerCore.SetPlaybackSpeed | FilterPlayer/YHPlayerCore.swift:353-384 | a rejected speed keeps the rate and appends exactly one VideoError (code -100, its message); an accepted speed becomes the rate and appends nothing |
| Playback.PlayerCore.ItemDidPlayToEndTime | FilterPlayer/YHPlayerCore.swift:272-280 | when looping, one seek of the item back to zero; otherwise nothing |
| Playback.PlayerCore.ObserveLoadedTimeRanges | FilterPlayer/YHPlayerCore.swift:220-233 | appends one bufferingUpdate event carrying the report of the ranges |
| Playback.PlayerCore.ObserveStatus | FilterPlayer/YHPlayerCore.swift:234-253 | failed appends one VideoError with the load-failed message; unknown changes nothing; readyToPlay attaches the output, initializes as sendInitialized does and syncs the playing state |
| Playback.PlayerCore.ObserveLikelyToKeepUp | FilterPlayer/YHPlayerCore.swift:254-260 | when the item is likely to keep up, appends bufferingEnd and runs updatePlayingState: once initialized the player plays and the link runs iff isPlaying (Synced), before initialization both stay as they were; otherwise nothing |
| Playback.PlayerCore.ObserveBufferEmpty | FilterPlayer/YHPlayerCore.swift:261-264 | appends bufferingStart |
| Playback.PlayerCore.ObserveBufferFull | FilterPlayer/YHPlayerCore.swift:265-268 | appends bufferingEnd |
| Playback.PlayerCore.LoopAction | FilterPlayer/YHPlayerCore.swift:440-448 | appends the tick's frame to the delegate's frames exactly as PumpedFrame decides |
| Playback.PlayerCore.DisplayRefresh | FilterPlayer/YHPlayerCore.swift:130-134 | a paused display link delivers nothing; in a synced state no frame is delivered unless initialized and playing |

## Left out

- `close`, `setMixWithOthers`, KVO and notification registration: teardown, audio-session policy and observer wiring are calls into AVFoundation and Foundation. The observer callbacks are modelled as methods the environment calls.
- The asynchronous track loading in `init` (lines 81-120): the model has the closures' computations (FixTransform, VideoComposition) but not the loading and its callback order.
- `position()` and `duration()` (lines 331-337) apply the conversion to the player's clock and the item's duration. Here those values are parameters, so only the conversion is modelled.
- The float pipeline `atan2`/`roundf`/`radiansToDegrees` (lines 37-43, 140-141, 172-173) is the parameter `degreesOf`. `roundf` rounds the radians, which lie in [-pi, pi], to one of -3 through 3 before they are converted. So `rotationDegrees` is always one of 0, 57, 114, 171, 188, 245 or 302. The 90/270 branches of `fixTransform` (lines 143-151) and of the size swap (line 174) therefore never fire, for any track. This is not modelled: the model takes any degree reading, and the two render-rectangle lemmas assume a reading of 90 or 270.
- Volume and speed are `real`: the conversions `Float(...)` (lines 350, 383) and their rounding are not modelled. `real` has no NaN. In the source, a NaN volume fails both comparisons on line 350 and is stored as NaN. A NaN speed passes both checks and becomes the rate (line 383). So the volume bound in `Valid()` holds only for the model's inputs, and for ordered values in the source.
- Playback.PlayerCore.SendInitialized, Playback.PlayerCore.ObserveStatus and Playback.PlayerCore.ObserveLoadedTimeRanges read durations and time ranges through the Int64 conversion (`Timing.CMTimeToMillisWide`). The source traps at line 34 when value*1000 does not fit in 32 bits (through `duration()`, lines 295 and 336, and lines 224 and 227). That trap is not modelled in these members: they continue with the intended value instead.
- AVPlayer's coupling of rate and play/pause, where `play()` sets the rate to 1, is library behaviour. Rate and play/pause are separate abstract fields; their initial values (rate 0, volume 1) are AVPlayer's defaults.
- The optional `playEvent` callback and weak `delegate` are assumed to be set. The logs record what is offered to them.
- The CMTime flags and epoch, such as an indefinite duration's flags, are not modelled; only value and timescale are.
- `YHPlayerInput.swift`: the texture-cache and GL calls are not visible here. The chroma plane requested is half width by half height (YHPlayerInput.swift:99-100); this is not modelled.
- `YHPlayer.swift` and `ViewController.swift`: a pass-through façade and UI setup. The filter chain's propagation order lives in GPUImage. There is no cycle check in the code, and none is modelled.
- `debugPrint` output.

## Findings

| source | as written | input that shows it | evidently intended | confidence | as-written member | corrected member |
|---|---|---|---|---|---|---|
| FilterPlayer/YHPlayerCore.swift:34 | `CMTimeScale(time.value * 1000)` narrows the product to Int32 before dividing, trapping whenever abs(value) > 2147483 | CMTime(value 2700000, timescale 90000), i.e. 30 s: 2.7e9 does not fit in Int32 | value*1000 computed in Int64 and divided by the timescale widened to Int64, giving 30000 ms | not executed | Timing.NarrowingTrapsOnThirtySecondsAt90kHz | Timing.CMTimeToMillisWide |

The Buffering report and the controller's duration use `Timing.CMTimeToMillisWide`. By
`Timing.WideAgreesWithNarrow`, it returns the source's own result on every time the source
converts without trapping.
