/**
 * The bufferingUpdate report: each loaded time range of the item becomes
 * a pair [start, start + duration] in milliseconds, in the item's order.
 * The conversion used is the Int64 one (Timing.CMTimeToMillisWide).
 */
module Buffering {
  import opened Timing

  /** A CMTimeRange of the item's loadedTimeRanges. */
  datatype TimeRange = TimeRange(start: CMTime, duration: CMTime)

  /** One reported pair, both ends in milliseconds. */
  datatype MillisPair = MillisPair(start: Int64, end: Int64)

  predicate Convertible(t: CMTime) {
    t.timescale == 0 || WideMillisFits(t)
  }

  /** Both ends convert, and `start + duration` does not overflow Int64. */
  predicate Reportable(r: TimeRange) {
    && Convertible(r.start)
    && Convertible(r.duration)
    && -0x8000_0000_0000_0000 <= CMTimeToMillisWide(r.start) as int + CMTimeToMillisWide(r.duration) as int
         < 0x8000_0000_0000_0000
  }

  predicate AllReportable(ranges: seq<TimeRange>) {
    forall i :: 0 <= i < |ranges| ==> Reportable(ranges[i])
  }

  /** The pair reported for one range. */
  function PairOf(r: TimeRange): MillisPair
    requires Reportable(r)
  {
    var start := CMTimeToMillisWide(r.start);
    MillisPair(start, (start as int + CMTimeToMillisWide(r.duration) as int) as Int64)
  }

  /** The whole report, one pair per range. */
  function Report(ranges: seq<TimeRange>): seq<MillisPair>
    requires AllReportable(ranges)
  {
    if ranges == [] then [] else [PairOf(ranges[0])] + Report(ranges[1..])
  }

  /** The report has one pair per range, in the same order. */
  lemma {:induction false} ReportAt(ranges: seq<TimeRange>, i: int)
    requires AllReportable(ranges)
    requires 0 <= i < |ranges|
    ensures |Report(ranges)| == |ranges|
    ensures Report(ranges)[i] == PairOf(ranges[i])
  {
    if i > 0 {
      ReportAt(ranges[1..], i - 1);
    } else if |ranges| > 1 {
      ReportAt(ranges[1..], 0);
    }
  }

  /** Reporting one more range appends its pair. */
  lemma {:induction false} ReportSnoc(ranges: seq<TimeRange>, r: TimeRange)
    requires AllReportable(ranges) && Reportable(r)
    ensures AllReportable(ranges + [r])
    ensures Report(ranges + [r]) == Report(ranges) + [PairOf(r)]
  {
    if ranges != [] {
      assert (ranges + [r])[1..] == ranges[1..] + [r];
      ReportSnoc(ranges[1..], r);
    }
  }

  /** A range of non-negative duration is reported with its end not before its start. */
  lemma PairOrdered(r: TimeRange)
    requires Reportable(r)
    requires r.duration.value >= 0 && r.duration.timescale >= 0
    ensures PairOf(r).start <= PairOf(r).end
  {
    if r.duration.timescale != 0 {
      QuotientOfNaturalsIsNatural(r.duration.value as int * 1000, r.duration.timescale as int,
                                  CMTimeToMillisWide(r.duration) as int);
    }
  }

  /**
   * The forEach loop of the loadedTimeRanges branch, filling the values
   * array one pair per range.
   */
  method BufferingValues(ranges: seq<TimeRange>) returns (values: seq<MillisPair>)
    requires AllReportable(ranges)
    ensures values == Report(ranges)
    ensures |values| == |ranges|
    ensures forall i :: 0 <= i < |ranges| ==>
      values[i].start == CMTimeToMillisWide(ranges[i].start) &&
      values[i].end as int == values[i].start as int + CMTimeToMillisWide(ranges[i].duration) as int
  {
    values := [];
    var k := 0;
    while k < |ranges|
      invariant 0 <= k <= |ranges|
      invariant values == Report(ranges[..k])
    {
      var range := ranges[k];
      var start := CMTimeToMillisWide(range.start);
      var pair := MillisPair(start, (start as int + CMTimeToMillisWide(range.duration) as int) as Int64);
      ReportSnoc(ranges[..k], range);
      assert ranges[..k + 1] == ranges[..k] + [range];
      values := values + [pair];
      k := k + 1;
    }
    assert ranges[..k] == ranges;
    forall i | 0 <= i < |ranges|
      ensures |values| == |ranges| && values[i] == PairOf(ranges[i])
    {
      ReportAt(ranges, i);
    }
    if ranges == [] { assert values == []; }
  }
}
