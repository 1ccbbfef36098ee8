/**
 * Media-time arithmetic of the playback controller: the CMTime record,
 * Swift's integer division (which truncates toward zero), and the
 * conversion of a CMTime to whole milliseconds.
 */
module Timing {

  /** Swift's Int32 (CMTimeScale) and Int64 (CMTimeValue); arithmetic that leaves them traps. */
  newtype Int32 = x: int | -0x8000_0000 <= x < 0x8000_0000
  newtype Int64 = x: int | -0x8000_0000_0000_0000 <= x < 0x8000_0000_0000_0000

  /** A media time value/timescale seconds (flags and epoch are not modelled). */
  datatype CMTime = CMTime(value: Int64, timescale: Int32)

  /** CMTime.zero: value 0 over timescale 1. */
  const ZeroTime := CMTime(0, 1)

  function Abs(x: int): nat {
    if x < 0 then -x else x
  }

  /**
   * q is the quotient of a by b rounded toward zero: the remainder a - q*b
   * is smaller than b in magnitude and never has the opposite sign of a.
   */
  predicate IsTruncatedQuotient(a: int, b: int, q: int) {
    && b != 0
    && Abs(a - q * b) < Abs(b)
    && (a >= 0 ==> a - q * b >= 0)
    && (a <= 0 ==> a - q * b <= 0)
  }

  /** Euclidean division on naturals, which already rounds toward zero. */
  lemma NaturalDivision(n: nat, m: nat)
    requires m > 0
    ensures 0 <= n - (n / m) * m < m
    ensures 0 <= n / m <= n
  {
    var q, r := n / m, n % m;
    assert n == q * m + r && 0 <= r < m;
    assert q <= q * m by { if q > 0 { MagnitudeOfMultiple(m, q); } }
  }

  /** Swift's `/` on integers (Dafny's own `/` is Euclidean). */
  function TruncDiv(a: int, b: int): (q: int)
    requires b != 0
    ensures IsTruncatedQuotient(a, b, q)
    ensures Abs(q) <= Abs(a)
  {
    var k := Abs(a) / Abs(b);
    TruncDivCorrect(a, b, k);
    if (a >= 0) == (b > 0) then k else -k
  }

  /** The quotient of the magnitudes, signed as the operands' signs say, is the truncated quotient. */
  lemma TruncDivCorrect(a: int, b: int, k: int)
    requires b != 0 && k == Abs(a) / Abs(b)
    ensures IsTruncatedQuotient(a, b, if (a >= 0) == (b > 0) then k else -k)
    ensures 0 <= k <= Abs(a)
  {
    var n, m := Abs(a), Abs(b);
    NaturalDivision(n, m);
    MultiplyBySigned(k, b);
    assert 0 <= n - k * m < m;
  }

  lemma MultiplyBySigned(k: int, b: int)
    ensures k * b == (if b >= 0 then k * Abs(b) else -(k * Abs(b)))
    ensures (-k) * b == -(k * b)
  {
    if b < 0 {
      assert b == -(Abs(b) as int);
    }
  }

  lemma MagnitudeOfMultiple(k: int, b: int)
    requires k != 0
    ensures Abs(k * b) >= Abs(b)
  {
    if k > 0 {
      if b >= 0 { assert k * b >= b; } else { assert k * b <= b; }
    } else {
      if b >= 0 { assert k * b <= -b; } else { assert k * b >= -b; }
    }
  }

  /** The truncated quotient is unique, so IsTruncatedQuotient pins the result down. */
  lemma {:induction false} TruncatedQuotientUnique(a: int, b: int, q1: int, q2: int)
    requires IsTruncatedQuotient(a, b, q1) && IsTruncatedQuotient(a, b, q2)
    ensures q1 == q2
  {
    var r1, r2 := a - q1 * b, a - q2 * b;
    assert (q2 - q1) * b == r1 - r2;
    assert Abs(r1 - r2) < Abs(b);
    if q1 != q2 {
      MagnitudeOfMultiple(q2 - q1, b);
    }
  }

  /** A non-negative dividend over a positive divisor has a non-negative truncated quotient. */
  lemma QuotientOfNaturalsIsNatural(a: int, b: int, q: int)
    requires IsTruncatedQuotient(a, b, q) && a >= 0 && b > 0
    ensures q >= 0
  {
    if q < 0 {
      MagnitudeOfMultiple(q, b);
    }
  }

  /** Truncation and Dafny's Euclidean division differ on negative dividends. */
  lemma TruncationDiffersFromEuclidean()
    ensures TruncDiv(-1, 1000) == 0 && -1 / 1000 == -1
  {
    TruncatedQuotientUnique(-1, 1000, TruncDiv(-1, 1000), 0);
  }

  /** `CMTimeScale(time.value * 1000)` succeeds: the product fits in 32 bits. */
  predicate NarrowMillisFits(t: CMTime) {
    -0x8000_0000 <= t.value as int * 1000 < 0x8000_0000
  }

  /** `time.value * 1000` fits in 64 bits. */
  predicate WideMillisFits(t: CMTime) {
    -0x8000_0000_0000_0000 <= t.value as int * 1000 < 0x8000_0000_0000_0000
  }

  /**
   * CMTimeToMillis exactly as written: 0 for a zero timescale, otherwise
   * value*1000 narrowed to Int32 and divided by the timescale with
   * truncation toward zero. The narrowing traps outside the Int32 range,
   * which is why NarrowMillisFits is required.
   */
  function CMTimeToMillis(t: CMTime): (ms: Int64)
    requires t.timescale == 0 || NarrowMillisFits(t)
    ensures t.timescale == 0 ==> ms == 0
    ensures t.timescale != 0 ==> IsTruncatedQuotient(t.value as int * 1000, t.timescale as int, ms as int)
    ensures -0x8000_0000 <= ms as int < 0x8000_0000
  {
    if t.timescale == 0 then 0
    else
      var narrowed := (t.value as int * 1000) as Int32;
      TruncDiv(narrowed as int, t.timescale as int) as Int64
  }

  /**
   * The conversion as evidently intended: value*1000 computed in Int64
   * and divided by the timescale widened to Int64, truncating toward zero.
   */
  function CMTimeToMillisWide(t: CMTime): (ms: Int64)
    requires t.timescale == 0 || WideMillisFits(t)
    ensures t.timescale == 0 ==> ms == 0
    ensures t.timescale != 0 ==> IsTruncatedQuotient(t.value as int * 1000, t.timescale as int, ms as int)
  {
    if t.timescale == 0 then 0
    else
      var product := (t.value as int * 1000) as Int64;
      TruncDiv(product as int, t.timescale as int) as Int64
  }

  /** Wherever the source's narrowing conversion does not trap, the two conversions agree. */
  lemma {:induction false} WideAgreesWithNarrow(t: CMTime)
    requires t.timescale == 0 || NarrowMillisFits(t)
    ensures t.timescale == 0 || WideMillisFits(t)
    ensures CMTimeToMillisWide(t) == CMTimeToMillis(t)
  {
    if t.timescale != 0 {
      TruncatedQuotientUnique(t.value as int * 1000, t.timescale as int,
                              CMTimeToMillisWide(t) as int, CMTimeToMillis(t) as int);
    }
  }

  /**
   * The narrowing traps on ordinary media times: 30 seconds at the common
   * 90 kHz timescale is a valid CMTime whose conversion as written traps,
   * while the Int64 conversion gives 30000 ms.
   */
  lemma {:induction false} NarrowingTrapsOnThirtySecondsAt90kHz()
    ensures !NarrowMillisFits(CMTime(2_700_000, 90_000))
    ensures WideMillisFits(CMTime(2_700_000, 90_000))
    ensures CMTimeToMillisWide(CMTime(2_700_000, 90_000)) == 30_000
  {
    var t := CMTime(2_700_000, 90_000);
    TruncatedQuotientUnique(t.value as int * 1000, t.timescale as int, CMTimeToMillisWide(t) as int, 30_000);
  }

  /** `CMTimeMake(value: location, timescale: 1000)`, the target seekTo builds. */
  function SeekTime(location: Int64): CMTime {
    CMTime(location, 1000)
  }

  /**
   * Milliseconds -> CMTime -> milliseconds returns the location, with the
   * source's conversion exactly when |location| <= 2147483 ms (it traps
   * beyond), and with the Int64 conversion for every location whose
   * product by 1000 fits in 64 bits.
   */
  lemma {:induction false} SeekTimeRoundTrip(location: Int64)
    ensures NarrowMillisFits(SeekTime(location)) <==> -2_147_483 <= location as int <= 2_147_483
    ensures NarrowMillisFits(SeekTime(location)) ==> CMTimeToMillis(SeekTime(location)) == location
    ensures WideMillisFits(SeekTime(location)) ==> CMTimeToMillisWide(SeekTime(location)) == location
  {
    var t := SeekTime(location);
    var a := location as int * 1000;
    assert IsTruncatedQuotient(a, 1000, location as int);
    if WideMillisFits(t) {
      TruncatedQuotientUnique(a, 1000, CMTimeToMillisWide(t) as int, location as int);
    }
    if NarrowMillisFits(t) {
      TruncatedQuotientUnique(a, 1000, CMTimeToMillis(t) as int, location as int);
    }
  }
}
