/**
 * Orientation correction of the video track: fixTransform synthesises a
 * translation for quarter-turn rotations, and getVideoComposition swaps the
 * render size for them. The rotation in degrees comes from a float pipeline
 * (atan2 of b and a, roundf, conversion to degrees in [0, 360)); here it is
 * an arbitrary total function `degreesOf(b, a)`.
 */
module Orientation {
  import opened Timing

  /** CGAffineTransform: (x, y) maps to (a*x + c*y + tx, b*x + d*y + ty). */
  datatype Transform = Transform(a: real, b: real, c: real, d: real, tx: real, ty: real)

  /** A track's natural size in whole pixels. */
  datatype Size = Size(width: int, height: int)

  /** A point of the plane. */
  datatype Point = Point(x: real, y: real)

  function Apply(t: Transform, p: Point): Point {
    Point(t.a * p.x + t.c * p.y + t.tx, t.b * p.x + t.d * p.y + t.ty)
  }

  /** The rotation the source reads off a transform, from its (b, a) entries. */
  function RotationOf(t: Transform, degreesOf: (real, real) -> int): int {
    degreesOf(t.b, t.a)
  }

  /**
   * fixTransform: a transform that already translates is returned as is; a
   * translation-free one rotated by 90 degrees gets tx := natural height,
   * by 270 degrees ty := natural width, and any other rotation is kept.
   */
  function FixTransform(t: Transform, natural: Size, degreesOf: (real, real) -> int): (r: Transform)
    ensures r.a == t.a && r.b == t.b && r.c == t.c && r.d == t.d
    ensures t.tx != 0.0 || t.ty != 0.0 ==> r == t
    ensures t.tx == 0.0 && t.ty == 0.0 && RotationOf(t, degreesOf) == 90 ==>
              r.tx == natural.height as real && r.ty == 0.0
    ensures t.tx == 0.0 && t.ty == 0.0 && RotationOf(t, degreesOf) == 270 ==>
              r.tx == 0.0 && r.ty == natural.width as real
    ensures RotationOf(t, degreesOf) != 90 && RotationOf(t, degreesOf) != 270 ==> r == t
  {
    if t.tx == 0.0 && t.ty == 0.0 then
      var rotationDegrees := degreesOf(t.b, t.a);
      if rotationDegrees == 90 then t.(tx := natural.height as real, ty := 0.0)
      else if rotationDegrees == 270 then t.(tx := 0.0, ty := natural.width as real)
      else t
    else t
  }

  /**
   * Because FixTransform keeps a and b, the rotation getVideoComposition
   * reads from the fixed transform is the one fixTransform decided on, and
   * fixing a second time changes nothing.
   */
  lemma FixTransformStable(t: Transform, natural: Size, degreesOf: (real, real) -> int)
    ensures RotationOf(FixTransform(t, natural, degreesOf), degreesOf) == RotationOf(t, degreesOf)
    ensures FixTransform(FixTransform(t, natural, degreesOf), natural, degreesOf) == FixTransform(t, natural, degreesOf)
  {
  }

  /** The render size of the composition: width and height swap for 90 and 270 degrees. */
  function RenderSize(natural: Size, rotationDegrees: int): (r: Size)
    ensures rotationDegrees == 90 || rotationDegrees == 270 ==> r == Size(natural.height, natural.width)
    ensures rotationDegrees != 90 && rotationDegrees != 270 ==> r == natural
    ensures r.width * r.height == natural.width * natural.height
  {
    if rotationDegrees == 90 || rotationDegrees == 270 then Size(natural.height, natural.width)
    else natural
  }

  /** The parts of the AVMutableVideoComposition that getVideoComposition sets. */
  datatype Composition = Composition(
    rangeStart: CMTime,       // the instruction's time range starts at zero
    rangeDuration: CMTime,    // and lasts the asset's duration
    layerTransform: Transform,
    renderSize: Size,
    frameDuration: CMTime)

  /** getVideoComposition for an already fixed transform. */
  function VideoComposition(fixed: Transform, assetDuration: CMTime, natural: Size,
                            degreesOf: (real, real) -> int): (r: Composition)
    ensures r.rangeStart == ZeroTime && r.rangeDuration == assetDuration
    ensures r.layerTransform == fixed
    ensures r.renderSize == RenderSize(natural, RotationOf(fixed, degreesOf))
    ensures r.frameDuration == CMTime(1, 30) && CMTimeToMillis(r.frameDuration) == 33
  {
    var c := Composition(ZeroTime, assetDuration, fixed,
                         RenderSize(natural, degreesOf(fixed.b, fixed.a)), CMTime(1, 30));
    assert IsTruncatedQuotient(1000, 30, 33);
    TruncatedQuotientUnique(1000, 30, CMTimeToMillis(c.frameDuration) as int, 33);
    c
  }

  /** The exact quarter turns: counter-clockwise by 90 degrees and by 270 degrees. */
  const QuarterTurn := Transform(0.0, 1.0, -1.0, 0.0, 0.0, 0.0)
  const ThreeQuarterTurn := Transform(0.0, -1.0, 1.0, 0.0, 0.0, 0.0)

  predicate InRect(p: Point, s: Size) {
    0.0 <= p.x <= s.width as real && 0.0 <= p.y <= s.height as real
  }

  /**
   * What the synthesised translation is for: when the rotation read off the
   * exact quarter turn is 90, the fixed transform maps every point of the
   * natural frame into the render rectangle of the composition, so the
   * upright video is not clipped away.
   */
  lemma {:induction false} FixedQuarterTurnLandsInRenderRect(natural: Size, p: Point, degreesOf: (real, real) -> int)
    requires InRect(p, natural)
    requires RotationOf(QuarterTurn, degreesOf) == 90
    ensures var fixed := FixTransform(QuarterTurn, natural, degreesOf);
      InRect(Apply(fixed, p), VideoComposition(fixed, ZeroTime, natural, degreesOf).renderSize)
  {
    var fixed := FixTransform(QuarterTurn, natural, degreesOf);
    assert fixed == Transform(0.0, 1.0, -1.0, 0.0, natural.height as real, 0.0);
    assert RotationOf(fixed, degreesOf) == 90;
    assert VideoComposition(fixed, ZeroTime, natural, degreesOf).renderSize == Size(natural.height, natural.width);
    assert Apply(fixed, p) == Point(natural.height as real - p.y, p.x);
  }

  /** The same for the three-quarter turn read as 270 degrees. */
  lemma {:induction false} FixedThreeQuarterTurnLandsInRenderRect(natural: Size, p: Point, degreesOf: (real, real) -> int)
    requires InRect(p, natural)
    requires RotationOf(ThreeQuarterTurn, degreesOf) == 270
    ensures var fixed := FixTransform(ThreeQuarterTurn, natural, degreesOf);
      InRect(Apply(fixed, p), VideoComposition(fixed, ZeroTime, natural, degreesOf).renderSize)
  {
    var fixed := FixTransform(ThreeQuarterTurn, natural, degreesOf);
    assert fixed == Transform(0.0, -1.0, 1.0, 0.0, 0.0, natural.width as real);
    assert RotationOf(fixed, degreesOf) == 270;
    assert VideoComposition(fixed, ZeroTime, natural, degreesOf).renderSize == Size(natural.height, natural.width);
    assert Apply(fixed, p) == Point(p.y, natural.width as real - p.x);
  }
}
