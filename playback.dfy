/**
 * The playback controller YHPlayerCore: its state flags, the abstract state
 * of the AVPlayer and display link it drives, the events it posts through
 * playEvent, and its observer callbacks.
 */
module Playback {
  import opened Wrappers
  import opened Timing
  import opened Buffering
  import opened FramePump

  /** The records posted through playEvent. */
  datatype Event =
    | Initialized(duration: Int64, width: real, height: real)
    | BufferingStart
    | BufferingEnd
    | BufferingUpdate(values: seq<MillisPair>)
    | VideoError(code: int, message: string)

  /** AVPlayerItem.Status. */
  datatype ItemStatus = Unknown | ReadyToPlay | Failed

  /** A seek issued to the player or item; `exact` is a zero tolerance window. */
  datatype SeekRequest = SeekRequest(target: CMTime, exact: bool)

  /** What the current item reports when the controller reads it. */
  datatype ItemInfo = ItemInfo(
    presentationWidth: real,
    presentationHeight: real,
    duration: CMTime,
    canPlayFastForward: bool,
    canPlaySlowForward: bool,
    errorDescription: Option<string>)

  /** The code of every VideoError the controller builds. */
  const VideoErrorCode := -100

  const FastForwardMessage := "Video cannot be fast-forwarded beyond 2.0x"
  const SlowForwardMessage := "Video cannot be slow-forwarded"

  function LoadFailedMessage(description: Option<string>): string {
    "Failed to load video: " + description.GetOr("")
  }

  /** How many initialized events a log holds. */
  function InitializedCount(events: seq<Event>): nat {
    if events == [] then 0
    else (if events[0].Initialized? then 1 else 0) + InitializedCount(events[1..])
  }

  lemma {:induction false} InitializedCountAppend(xs: seq<Event>, ys: seq<Event>)
    ensures InitializedCount(xs + ys) == InitializedCount(xs) + InitializedCount(ys)
  {
    if xs != [] {
      assert (xs + ys)[0] == xs[0] && (xs + ys)[1..] == xs[1..] + ys;
      InitializedCountAppend(xs[1..], ys);
    } else {
      assert xs + ys == ys;
    }
  }

  /** The item's duration can be read as milliseconds without trapping. */
  predicate DurationReadable(info: ItemInfo) {
    info.duration.timescale == 0 || WideMillisFits(info.duration)
  }

  /** sendInitialized gets past its checks: the size is not (0, 0) and the duration is not 0 ms. */
  predicate ReadyForInitialization(info: ItemInfo) {
    && !(info.presentationHeight == 0.0 && info.presentationWidth == 0.0)
    && DurationReadable(info)
    && CMTimeToMillisWide(info.duration) != 0
  }

  /** The event sendInitialized posts when it succeeds. */
  function InitializedEvent(info: ItemInfo): Event
    requires DurationReadable(info)
  {
    Initialized(CMTimeToMillisWide(info.duration), info.presentationWidth, info.presentationHeight)
  }

  /** setVolume's clamp into [0, 1]. */
  function ClampVolume(volume: real): (r: real)
    ensures 0.0 <= r <= 1.0
    ensures volume < 0.0 ==> r == 0.0
    ensures volume > 1.0 ==> r == 1.0
    ensures 0.0 <= volume <= 1.0 ==> r == volume
  {
    if volume < 0.0 then 0.0 else if volume > 1.0 then 1.0 else volume
  }

  /** Clamping an already stored volume changes nothing. */
  lemma ClampVolumeIdempotent(volume: real)
    ensures ClampVolume(ClampVolume(volume)) == ClampVolume(volume)
  {
  }

  /**
   * setPlaybackSpeed's checks: the message of the error it reports, or None
   * when the speed is accepted. A speed is accepted exactly when it is at most
   * 2 or the item can fast-forward, and at least 1 or the item can play slowly.
   */
  function SpeedRejection(speed: real, canPlayFastForward: bool, canPlaySlowForward: bool): (r: Option<string>)
    ensures r.None? <==> (speed <= 2.0 || canPlayFastForward) && (speed >= 1.0 || canPlaySlowForward)
    ensures r == Some(FastForwardMessage) <==> speed > 2.0 && !canPlayFastForward
    ensures r == Some(SlowForwardMessage) <==> speed < 1.0 && !canPlaySlowForward
  {
    if speed > 2.0 && !canPlayFastForward then Some(FastForwardMessage)
    else if speed < 1.0 && !canPlaySlowForward then Some(SlowForwardMessage)
    else None
  }

  class PlayerCore {
    /** Whether an item was given: only then do the player, video output and display link exist. */
    const hasPlayer: bool

    var isPlaying: bool
    var isLooping: bool
    var isInitialized: bool

    /** The video output has been added to the item. */
    var outputAttached: bool
    /** displayLink.isPaused. */
    var linkPaused: bool
    /** The last of player.play() (true) and player.pause() (false). */
    var playerPlaying: bool
    /** player.rate as set by setPlaybackSpeed. */
    var rate: real
    /** player.volume. */
    var volume: real

    /** Every event posted through playEvent, oldest first. */
    var events: seq<Event>
    /** Every seek issued, oldest first. */
    var seeks: seq<SeekRequest>
    /** Every frame handed to the delegate, oldest first. */
    var frames: seq<Frame>

    /** At most one initialized event, posted exactly when the player became initialized; the volume is in [0, 1]. */
    ghost predicate Valid()
      reads this
    {
      && InitializedCount(events) == (if isInitialized then 1 else 0)
      && 0.0 <= volume <= 1.0
      && (!hasPlayer ==> !isInitialized)
    }

    /** The player plays and the display link runs exactly when initialized and asked to play. */
    ghost predicate Synced()
      reads this
    {
      && playerPlaying == (isInitialized && isPlaying)
      && linkPaused == !(isInitialized && isPlaying)
    }

    /** init(playerItem:): all flags false, the display link created paused, AVPlayer's default rate 0 and volume 1. */
    constructor (itemPresent: bool)
      ensures Valid() && Synced()
      ensures hasPlayer == itemPresent
      ensures !isPlaying && !isLooping && !isInitialized && !outputAttached
      ensures linkPaused && !playerPlaying && rate == 0.0 && volume == 1.0
      ensures events == [] && seeks == [] && frames == []
    {
      hasPlayer := itemPresent;
      isPlaying, isLooping, isInitialized := false, false, false;
      outputAttached := false;
      linkPaused, playerPlaying := true, false;
      rate, volume := 0.0, 1.0;
      events, seeks, frames := [], [], [];
    }

    /**
     * sendInitialized: once initialized, nothing happens; otherwise the
     * player becomes initialized, with one initialized event, exactly when
     * the item is ready for it.
     */
    method SendInitialized(info: ItemInfo)
      requires Valid()
      requires hasPlayer
      requires !isInitialized && !(info.presentationHeight == 0.0 && info.presentationWidth == 0.0) ==>
                 DurationReadable(info)
      modifies this`isInitialized, this`events
      ensures Valid()
      ensures old(isInitialized) ==> isInitialized && events == old(events)
      ensures !old(isInitialized) ==>
        isInitialized == ReadyForInitialization(info) &&
        events == old(events) + (if ReadyForInitialization(info) then [InitializedEvent(info)] else [])
      ensures isInitialized == old(isInitialized) && old(Synced()) ==> Synced()
    {
      if isInitialized {
        return;
      }
      var width, height := info.presentationWidth, info.presentationHeight;
      if height == 0.0 && width == 0.0 {
        return;
      }
      if CMTimeToMillisWide(info.duration) == 0 {
        return;
      }
      isInitialized := true;
      InitializedCountAppend(events, [InitializedEvent(info)]);
      events := events + [Initialized(CMTimeToMillisWide(info.duration), width, height)];
    }

    /** updatePlayingState: a no-op before initialization; afterwards the player and display link follow isPlaying. */
    method UpdatePlayingState()
      requires Valid()
      modifies this`playerPlaying, this`linkPaused
      ensures Valid()
      ensures isInitialized ==> Synced()
      ensures !isInitialized ==> playerPlaying == old(playerPlaying) && linkPaused == old(linkPaused)
    {
      if !isInitialized {
        return;
      }
      if isPlaying {
        playerPlaying := true;
      } else {
        playerPlaying := false;
      }
      linkPaused := !isPlaying;
    }

    /** play: isPlaying is set even before initialization. */
    method Play()
      requires Valid()
      modifies this`isPlaying, this`playerPlaying, this`linkPaused
      ensures Valid() && isPlaying
      ensures old(Synced()) ==> Synced()
      ensures isInitialized ==> playerPlaying && !linkPaused
      ensures !isInitialized ==> playerPlaying == old(playerPlaying) && linkPaused == old(linkPaused)
    {
      isPlaying := true;
      UpdatePlayingState();
    }

    /** pause: isPlaying is cleared even before initialization. */
    method Pause()
      requires Valid()
      modifies this`isPlaying, this`playerPlaying, this`linkPaused
      ensures Valid() && !isPlaying
      ensures old(Synced()) ==> Synced()
      ensures isInitialized ==> !playerPlaying && linkPaused
      ensures !isInitialized ==> playerPlaying == old(playerPlaying) && linkPaused == old(linkPaused)
    {
      isPlaying := false;
      UpdatePlayingState();
    }

    /** seekTo: an exact seek to location milliseconds (a CMTime over timescale 1000). */
    method SeekTo(location: Int64)
      modifies this`seeks
      ensures seeks == old(seeks) + (if hasPlayer then [SeekRequest(SeekTime(location), true)] else [])
    {
      if hasPlayer {
        seeks := seeks + [SeekRequest(SeekTime(location), true)];
      }
    }

    method SetIsLooping(looping: bool)
      modifies this`isLooping
      ensures isLooping == looping
    {
      isLooping := looping;
    }

    /** setVolume: the player's volume becomes the input clamped into [0, 1]. */
    method SetVolume(requested: real)
      requires Valid()
      modifies this`volume
      ensures Valid()
      ensures hasPlayer ==> volume == ClampVolume(requested)
      ensures !hasPlayer ==> volume == old(volume)
    {
      if hasPlayer {
        volume := ClampVolume(requested);
      }
    }

    /**
     * setPlaybackSpeed: a rejected speed leaves the rate as it was and posts
     * exactly one VideoError; an accepted one becomes the rate and posts nothing.
     * The force-unwrapped player is read only for speeds outside [1, 2].
     */
    method SetPlaybackSpeed(speed: real, info: ItemInfo)
      requires Valid()
      requires hasPlayer || 1.0 <= speed <= 2.0
      modifies this`rate, this`events
      ensures Valid()
      ensures match SpeedRejection(speed, info.canPlayFastForward, info.canPlaySlowForward)
        case Some(message) =>
          rate == old(rate) && events == old(events) + [VideoError(VideoErrorCode, message)]
        case None =>
          events == old(events) && rate == (if hasPlayer then speed else old(rate))
    {
      if speed > 2.0 && !info.canPlayFastForward {
        InitializedCountAppend(events, [VideoError(VideoErrorCode, FastForwardMessage)]);
        events := events + [VideoError(VideoErrorCode, FastForwardMessage)];
        return;
      }
      if speed < 1.0 && !info.canPlaySlowForward {
        InitializedCountAppend(events, [VideoError(VideoErrorCode, SlowForwardMessage)]);
        events := events + [VideoError(VideoErrorCode, SlowForwardMessage)];
        return;
      }
      if hasPlayer {
        rate := speed;
      }
    }

    /** itemDidPlayToEndTime: when looping, the item seeks back to zero (default tolerance). */
    method ItemDidPlayToEndTime(objectIsItem: bool)
      modifies this`seeks
      ensures seeks == old(seeks) + (if isLooping && objectIsItem then [SeekRequest(ZeroTime, false)] else [])
    {
      if isLooping {
        if objectIsItem {
          seeks := seeks + [SeekRequest(ZeroTime, false)];
        }
      }
    }

    /** observeValue for loadedTimeRanges: one bufferingUpdate with a pair per range. */
    method ObserveLoadedTimeRanges(ranges: seq<TimeRange>)
      requires Valid()
      requires AllReportable(ranges)
      modifies this`events
      ensures Valid()
      ensures events == old(events) + [BufferingUpdate(Report(ranges))]
    {
      var values := BufferingValues(ranges);
      InitializedCountAppend(events, [BufferingUpdate(values)]);
      events := events + [BufferingUpdate(values)];
    }

    /**
     * observeValue for status: failed posts a VideoError, unknown does
     * nothing, readyToPlay attaches the video output, sends initialized and
     * updates the playing state.
     */
    method ObserveStatus(status: ItemStatus, info: ItemInfo)
      requires Valid()
      requires status == ReadyToPlay ==> hasPlayer
      requires (status == ReadyToPlay && !isInitialized &&
                !(info.presentationHeight == 0.0 && info.presentationWidth == 0.0)) ==> DurationReadable(info)
      modifies this`outputAttached, this`isInitialized, this`events, this`playerPlaying, this`linkPaused
      ensures Valid()
      ensures old(Synced()) ==> Synced()
      ensures status == Failed ==>
        events == old(events) + [VideoError(VideoErrorCode, LoadFailedMessage(info.errorDescription))] &&
        isInitialized == old(isInitialized) && outputAttached == old(outputAttached)
      ensures status == Unknown ==>
        events == old(events) && isInitialized == old(isInitialized) && outputAttached == old(outputAttached)
      ensures status == ReadyToPlay ==> outputAttached
      ensures status == ReadyToPlay && old(isInitialized) ==> isInitialized && events == old(events)
      ensures status == ReadyToPlay && !old(isInitialized) ==>
        isInitialized == ReadyForInitialization(info) &&
        events == old(events) + (if ReadyForInitialization(info) then [InitializedEvent(info)] else [])
      ensures status == ReadyToPlay && isInitialized ==> Synced()
      ensures status == ReadyToPlay && !isInitialized ==>
        playerPlaying == old(playerPlaying) && linkPaused == old(linkPaused)
      ensures status != ReadyToPlay ==> playerPlaying == old(playerPlaying) && linkPaused == old(linkPaused)
    {
      match status
      case Failed =>
        var error := VideoError(VideoErrorCode, LoadFailedMessage(info.errorDescription));
        InitializedCountAppend(events, [error]);
        events := events + [error];
      case Unknown =>
      case ReadyToPlay =>
        outputAttached := true;
        SendInitialized(info);
        UpdatePlayingState();
    }

    /** observeValue for playbackLikelyToKeepUp: when true, update the playing state and post bufferingEnd. */
    method ObserveLikelyToKeepUp(likelyToKeepUp: bool)
      requires Valid()
      modifies this`events, this`playerPlaying, this`linkPaused
      ensures Valid()
      ensures old(Synced()) ==> Synced()
      ensures events == old(events) + (if hasPlayer && likelyToKeepUp then [BufferingEnd] else [])
      ensures hasPlayer && likelyToKeepUp && isInitialized ==> Synced()
      ensures hasPlayer && likelyToKeepUp && !isInitialized ==>
        playerPlaying == old(playerPlaying) && linkPaused == old(linkPaused)
      ensures !(hasPlayer && likelyToKeepUp) ==> playerPlaying == old(playerPlaying) && linkPaused == old(linkPaused)
    {
      if hasPlayer && likelyToKeepUp {
        UpdatePlayingState();
        InitializedCountAppend(events, [BufferingEnd]);
        events := events + [BufferingEnd];
      }
    }

    /** observeValue for playbackBufferEmpty: post bufferingStart. */
    method ObserveBufferEmpty()
      requires Valid()
      modifies this`events
      ensures Valid()
      ensures events == old(events) + [BufferingStart]
    {
      InitializedCountAppend(events, [BufferingStart]);
      events := events + [BufferingStart];
    }

    /** observeValue for playbackBufferFull: post bufferingEnd. */
    method ObserveBufferFull()
      requires Valid()
      modifies this`events
      ensures Valid()
      ensures events == old(events) + [BufferingEnd]
    {
      InitializedCountAppend(events, [BufferingEnd]);
      events := events + [BufferingEnd];
    }

    /** loopAction: hands the tick's frame to the delegate when copyPixelBuffer produced one. */
    method LoopAction(sample: OutputSample)
      requires hasPlayer
      modifies this`frames
      ensures frames == old(frames) + TickFrames(sample)
    {
      var copied := CopyPixelBuffer(sample);
      if copied.None? || copied.value.buffer.None? {
        return;
      }
      frames := frames + [Frame(copied.value.buffer.value, copied.value.itemTime)];
    }

    /**
     * One refresh of the display: CADisplayLink calls loopAction only while
     * it is not paused, so in a synced state no frame moves unless the
     * player is initialized and playing.
     */
    method DisplayRefresh(sample: OutputSample)
      requires hasPlayer
      modifies this`frames
      ensures frames == old(frames) + (if linkPaused then [] else TickFrames(sample))
      ensures Synced() && !(isInitialized && isPlaying) ==> frames == old(frames)
    {
      if !linkPaused {
        LoopAction(sample);
      }
    }
  }

  /**
   * A session as the host drives it: play before the item is ready, the
   * ready signal arriving twice, a rejected and an accepted speed change.
   */
  method SessionWalkthrough(info: ItemInfo, sample: OutputSample)
    requires ReadyForInitialization(info)
    requires !info.canPlayFastForward
  {
    var core := new PlayerCore(true);
    core.Play();
    assert core.isPlaying && core.linkPaused;
    core.DisplayRefresh(sample);
    assert core.frames == [];

    core.ObserveStatus(ReadyToPlay, info);
    assert core.events == [InitializedEvent(info)];
    assert !core.linkPaused && core.playerPlaying;
    core.ObserveStatus(ReadyToPlay, info);
    assert core.events == [InitializedEvent(info)];

    core.SetPlaybackSpeed(2.5, info);
    assert core.rate == 0.0;
    assert core.events == [InitializedEvent(info), VideoError(VideoErrorCode, FastForwardMessage)];
    core.SetPlaybackSpeed(1.5, info);
    assert core.rate == 1.5 && |core.events| == 2;

    core.DisplayRefresh(sample);
    assert core.frames == TickFrames(sample);
  }

  /**
   * sendInitialized on its own leaves the player behind isPlaying; the next
   * playbackLikelyToKeepUp signal brings player and display link back in line.
   */
  method KeepUpResyncsAfterInitialization(info: ItemInfo)
    requires ReadyForInitialization(info)
  {
    var core := new PlayerCore(true);
    core.Play();
    core.SendInitialized(info);
    assert core.isInitialized && core.isPlaying && !core.playerPlaying;
    core.ObserveLikelyToKeepUp(true);
    assert core.Synced() && core.playerPlaying && !core.linkPaused;
  }
}
