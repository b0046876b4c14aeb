/** Capture cadence of one camera over the reals: the shortest interval an exposure allows, the
    longest exposure an interval allows, and the clamp to the camera's own feature bounds. */
module CaptureCadence {
  import opened Optional

  datatype Cadence = Cadence(
    requestedMs: nat,
    maximumRate: real,     // Hz, 0 or less when unknown
    exposureUs: real,
    overlap: bool,
    marginMs: nat)

  /** Rounding allowance of the interval computation, in milliseconds. */
  const ALLOWANCE: real := 0.000000001

  function Max(a: real, b: real): real {
    if a < b then b else a
  }

  function Ceil(x: real): (r: int)
    ensures x <= r as real < x + 1.0
  {
    if x.Floor as real == x then x.Floor else x.Floor + 1
  }

  function FramePeriodMs(c: Cadence): real
    requires c.maximumRate > 0.0
  {
    1000.0 / c.maximumRate
  }

  /** How long one capture occupies the camera: exposure and readout, one after the other or overlapped. */
  function ActiveMs(c: Cadence): real
    requires c.maximumRate > 0.0
  {
    var exposure := Max(0.0, c.exposureUs / 1000.0);
    if c.overlap then Max(FramePeriodMs(c), exposure) else FramePeriodMs(c) + exposure
  }

  function MinimumIntervalMs(c: Cadence): int {
    if c.maximumRate <= 0.0 then 0
    else Ceil(ActiveMs(c) + c.marginMs as real - ALLOWANCE)
  }

  function ExposureLimitUs(c: Cadence): Option<real> {
    if c.requestedMs == 0 || c.maximumRate <= 0.0 then None
    else
      var period := c.requestedMs as real * 1000.0;
      var margin := c.marginMs as real * 1000.0;
      var readout := 1000000.0 / c.maximumRate;
      var available := if c.overlap then period - margin else period - readout - margin;
      if available <= 0.0 || readout + margin > period then None else Some(available)
  }

  /** The camera's value range applied to a limit; one unit above the limit is still accepted as the
      smallest value the camera offers. */
  function BoundedLimit(requested: real, minimum: real, maximum: real): Option<real> {
    if minimum > maximum || minimum > requested + 1.0 then None
    else Some(if requested < minimum then minimum else if maximum < requested then maximum else requested)
  }

  lemma CeilAtMost(x: real, n: int)
    ensures Ceil(x) <= n <==> x <= n as real
  {
    if Ceil(x) <= n {
      assert x <= Ceil(x) as real <= n as real;
    } else {
      assert x > Ceil(x) as real - 1.0 >= n as real;
    }
  }

  /** An interval is long enough exactly when the margin fits beside the exposure and the readout, each of them
      when they overlap and both in a row when they do not, give or take the allowance. */
  lemma IntervalIsExact(c: Cadence, interval: nat)
    requires c.maximumRate > 0.0 && c.exposureUs >= 0.0
    ensures var room := interval as real - c.marginMs as real + ALLOWANCE;
            var exposure, readout := c.exposureUs / 1000.0, 1000.0 / c.maximumRate;
            MinimumIntervalMs(c) <= interval <==>
              if c.overlap then exposure <= room && readout <= room else exposure + readout <= room
  {
    CeilAtMost(ActiveMs(c) + c.marginMs as real - ALLOWANCE, interval);
  }

  /** Nothing is asked of, and no limit known for, a camera that does not tell its rate. */
  lemma UnknownRateAsksNothing(c: Cadence)
    ensures c.maximumRate <= 0.0 ==> MinimumIntervalMs(c) == 0
    ensures c.maximumRate <= 0.0 || c.requestedMs == 0 ==> ExposureLimitUs(c).None?
  {
  }

  /** Microseconds and milliseconds of the readout time. */
  lemma ReadoutUnits(rate: real)
    requires rate > 0.0
    ensures 1000000.0 / rate == 1000.0 * (1000.0 / rate) && 1000.0 / rate > 0.0
  {
  }

  /** Where an exposure limit exists, the requested interval is supported exactly by the exposures up
      to the limit, give or take the rounding allowance. */
  lemma LimitIsExact(c: Cadence)
    requires ExposureLimitUs(c).Some? && c.exposureUs >= 0.0
    ensures MinimumIntervalMs(c) <= c.requestedMs <==>
            c.exposureUs <= ExposureLimitUs(c).value + 1000.0 * ALLOWANCE
  {
    ReadoutUnits(c.maximumRate);
    var exposure := c.exposureUs / 1000.0;
    assert Max(0.0, exposure) == exposure;
    CeilAtMost(ActiveMs(c) + c.marginMs as real - ALLOWANCE, c.requestedMs);
    var slack := c.requestedMs as real - c.marginMs as real;
    assert FramePeriodMs(c) <= slack;
    if c.overlap {
      assert ExposureLimitUs(c).value == 1000.0 * slack;
    } else {
      assert ExposureLimitUs(c).value == 1000.0 * (slack - FramePeriodMs(c));
    }
  }

  /** Without a limit no positive exposure beyond the allowance fits: a limit is refused only when the
      interval cannot be met at all. */
  lemma NoLimitMeansNoExposure(c: Cadence)
    requires ExposureLimitUs(c).None? && c.requestedMs > 0 && c.maximumRate > 0.0
    requires c.exposureUs > 1000.0 * ALLOWANCE && MinimumIntervalMs(c) <= c.requestedMs
    ensures c.overlap && FramePeriodMs(c) + c.marginMs as real <= c.requestedMs as real + ALLOWANCE
    ensures FramePeriodMs(c) + c.marginMs as real > c.requestedMs as real
  {
    ReadoutUnits(c.maximumRate);
    CeilAtMost(ActiveMs(c) + c.marginMs as real - ALLOWANCE, c.requestedMs);
  }

  function Distance(a: real, b: real): real {
    if a < b then b - a else a - b
  }

  /** The clamped value is inside the camera's range and no other value of the range is closer to the
      request; it is refused exactly when the range is empty or starts more than one unit too high. */
  lemma BoundedLimitIsClosest(requested: real, minimum: real, maximum: real, other: real)
    ensures BoundedLimit(requested, minimum, maximum).Some? <==> minimum <= maximum && minimum <= requested + 1.0
    ensures BoundedLimit(requested, minimum, maximum).Some? ==>
              var v := BoundedLimit(requested, minimum, maximum).value;
              && minimum <= v <= maximum && v <= requested + 1.0
              && (minimum <= other <= maximum ==> Distance(v, requested) <= Distance(other, requested))
  {
  }

  /** Feeding the limit through the camera's bounds keeps the requested interval exactly when the
      camera's smallest exposure does not exceed the limit; otherwise the interval needed is one
      millisecond longer than the one requested. */
  lemma ClampedLimitKeepsInterval(c: Cadence, minimum: real, maximum: real)
    requires ExposureLimitUs(c).Some? && minimum >= 0.0
    requires BoundedLimit(ExposureLimitUs(c).value, minimum, maximum) == Some(c.exposureUs)
    ensures MinimumIntervalMs(c) <= c.requestedMs <==> minimum <= ExposureLimitUs(c).value + 1000.0 * ALLOWANCE
    ensures MinimumIntervalMs(c) <= c.requestedMs + 1
  {
    LimitIsExact(c);
    ReadoutUnits(c.maximumRate);
    CeilAtMost(ActiveMs(c) + c.marginMs as real - ALLOWANCE, c.requestedMs + 1);
    assert c.exposureUs <= ExposureLimitUs(c).value + 1.0;
  }
}
