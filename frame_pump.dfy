/**
 * The frame pump: on each display-link tick, copyPixelBuffer asks the video
 * output whether a new pixel buffer exists for the item time of the current
 * host time and copies it if so; loopAction then hands the buffer and that
 * item time to the delegate, unless the copy came back empty.
 */
module FramePump {
  import opened Wrappers
  import opened Timing

  /** A decoded pixel buffer, as an opaque token with its dimensions. */
  datatype PixelBuffer = PixelBuffer(id: nat, width: nat, height: nat)

  /**
   * What the video output answers on one tick: the item time for the current
   * host time, whether a new pixel buffer exists for it, and what copying
   * it would return.
   */
  datatype OutputSample = OutputSample(itemTime: CMTime, hasNewPixelBuffer: bool, copy: Option<PixelBuffer>)

  /** The result of copyPixelBuffer when a new buffer exists. */
  datatype Copied = Copied(buffer: Option<PixelBuffer>, itemTime: CMTime)

  /** A frame handed to the delegate with its output time. */
  datatype Frame = Frame(buffer: PixelBuffer, outputTime: CMTime)

  /** copyPixelBuffer: asks for a copy only when the output reports a new buffer. */
  function CopyPixelBuffer(s: OutputSample): (r: Option<Copied>)
    ensures r.Some? <==> s.hasNewPixelBuffer
    ensures r.Some? ==> r.value.buffer == s.copy && r.value.itemTime == s.itemTime
  {
    if s.hasNewPixelBuffer then Some(Copied(s.copy, s.itemTime)) else None
  }

  /** loopAction's guard: the frame it delivers on this tick, if any. */
  function PumpedFrame(s: OutputSample): (r: Option<Frame>)
    ensures r.Some? <==> s.hasNewPixelBuffer && s.copy.Some?
    ensures r.Some? ==> r.value == Frame(s.copy.value, s.itemTime)
  {
    match CopyPixelBuffer(s)
    case None => None
    case Some(c) => if c.buffer.None? then None else Some(Frame(c.buffer.value, c.itemTime))
  }

  /** The frames one tick delivers: none or one. */
  function TickFrames(s: OutputSample): seq<Frame> {
    match PumpedFrame(s)
    case None => []
    case Some(f) => [f]
  }

  /** The frames a run of ticks delivers, in tick order. */
  function Delivered(samples: seq<OutputSample>): seq<Frame> {
    if samples == [] then [] else TickFrames(samples[0]) + Delivered(samples[1..])
  }

  /** Delivery is compositional: later ticks append after earlier ones. */
  lemma {:induction false} DeliveredAppend(xs: seq<OutputSample>, ys: seq<OutputSample>)
    ensures Delivered(xs + ys) == Delivered(xs) + Delivered(ys)
  {
    if xs != [] {
      assert (xs + ys)[0] == xs[0] && (xs + ys)[1..] == xs[1..] + ys;
      DeliveredAppend(xs[1..], ys);
    } else {
      assert xs + ys == ys;
    }
  }

  /** At most one frame per tick: no buffer is delivered twice on a tick. */
  lemma {:induction false} DeliveredAtMostOnePerTick(samples: seq<OutputSample>)
    ensures |Delivered(samples)| <= |samples|
  {
    if samples != [] {
      DeliveredAtMostOnePerTick(samples[1..]);
    }
  }

  /** Ticks that find no new buffer deliver nothing. */
  lemma {:induction false} NothingNewNothingDelivered(samples: seq<OutputSample>)
    requires forall i :: 0 <= i < |samples| ==> !samples[i].hasNewPixelBuffer
    ensures Delivered(samples) == []
  {
    if samples != [] {
      NothingNewNothingDelivered(samples[1..]);
    }
  }

  /**
   * When every tick has a new, non-empty buffer, every one is delivered, in
   * order, stamped with its own tick's item time: no loss, no reordering,
   * timestamps unchanged.
   */
  lemma {:induction false} EveryNewFrameDelivered(samples: seq<OutputSample>)
    requires forall i :: 0 <= i < |samples| ==> samples[i].hasNewPixelBuffer && samples[i].copy.Some?
    ensures |Delivered(samples)| == |samples|
    ensures forall i :: 0 <= i < |samples| ==>
      Delivered(samples)[i] == Frame(samples[i].copy.value, samples[i].itemTime)
  {
    if samples != [] {
      EveryNewFrameDelivered(samples[1..]);
      assert Delivered(samples) == [Frame(samples[0].copy.value, samples[0].itemTime)] + Delivered(samples[1..]);
    }
  }
}
