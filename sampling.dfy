/** The sampling task: dead-zone filtering of both ADC channels and fan-out to two queues. */
module Sampling {
  import opened Types
  import Risk
  import Queues

  /** Centre value of the joystick used as sensor stand-in, and the jitter tolerated around it. */
  const Neutral: int := 2039
  const ErrorMargin: int := 20

  predicate InDeadBand(v: int) {
    Neutral - ErrorMargin <= v <= Neutral + ErrorMargin
  }

  /** A raw sample inside the band [2019, 2059] snaps to 2039; every other sample passes through. */
  function DeadZone(raw: u16): (v: u16)
    ensures v == raw || v == 2039
    ensures v == 2039 <==> 2019 <= raw <= 2059
    ensures v != raw ==> 2019 <= raw <= 2059
    ensures InDeadBand(v) <==> InDeadBand(raw)
  {
    if raw >= Neutral - ErrorMargin && raw <= Neutral + ErrorMargin then Neutral else raw
  }

  /** The reading that one sampling cycle publishes. */
  function FilterReading(rawWater: u16, rawRain: u16): (r: Reading)
    ensures r.waterLevel == DeadZone(rawWater) && r.rainVolume == DeadZone(rawRain)
  {
    Reading(DeadZone(rawWater), DeadZone(rawRain))
  }

  lemma DeadZoneIdempotent(raw: u16)
    ensures DeadZone(DeadZone(raw)) == DeadZone(raw)
  {
  }

  /** Filtering never leaves the ADC's range. */
  lemma DeadZoneInAdcRange(raw: u16)
    requires InAdcRange(raw)
    ensures InAdcRange(DeadZone(raw))
  {
  }

  /** The whole dead band lies below both thresholds, so filtering never changes the risk state. */
  lemma FilterPreservesClassification(rawWater: u16, rawRain: u16)
    ensures Risk.Classify(FilterReading(rawWater, rawRain)) == Risk.Classify(Reading(rawWater, rawRain))
  {
  }

  /**
   * One iteration of the sampling loop, after both ADC reads: filter, then offer the same
   * reading to the display queue and to the alert queue with a zero timeout. The send
   * results are ignored, as in the source. The raw samples are parameters.
   */
  method SampleCycle(rawWater: u16, rawRain: u16, display: Queues.BoundedQueue, alert: Queues.BoundedQueue)
    returns (r: Reading)
    requires display.Valid() && alert.Valid()
    requires display.Repr !! alert.Repr
    modifies display.Repr, alert.Repr
    ensures r == FilterReading(rawWater, rawRain)
    ensures display.Valid() && alert.Valid()
    ensures display.Repr == old(display.Repr) && alert.Repr == old(alert.Repr)
    ensures display.Contents == Queues.Offer(old(display.Contents), r, display.N)
    ensures alert.Contents == Queues.Offer(old(alert.Contents), r, alert.N)
  {
    var waterLevel := if rawWater >= Neutral - ErrorMargin && rawWater <= Neutral + ErrorMargin then Neutral else rawWater;
    var rainVolume := if rawRain >= Neutral - ErrorMargin && rawRain <= Neutral + ErrorMargin then Neutral else rawRain;
    r := Reading(waterLevel, rainVolume);
    var _ := display.Send(r);
    var _ := alert.Send(r);
  }
}
