/** The threshold predicate shared by the display task and the alert task. */
module Risk {
  import opened Types

  /** 70% and 80% of the ADC's full scale. */
  const WaterThreshold: int := 2866
  const RainThreshold: int := 3276

  datatype RiskState = Normal | Alert

  /** The one definition of the alert condition; both consumer tasks evaluate it. */
  function Classify(r: Reading): (s: RiskState)
    ensures s == Alert <==> r.waterLevel >= 2866 || r.rainVolume >= 3276
  {
    if r.waterLevel >= WaterThreshold || r.rainVolume >= RainThreshold then Alert else Normal
  }

  /** The thresholds are 70% and 80% of full scale, truncated to whole ADC units. */
  lemma ThresholdsArePercentOfFullScale()
    ensures WaterThreshold == AdcMax * 70 / 100
    ensures RainThreshold == AdcMax * 80 / 100
  {
  }

  /** Raising either field never turns an alert back into normal. */
  lemma ClassifyMonotone(r: Reading, s: Reading)
    requires r.waterLevel <= s.waterLevel && r.rainVolume <= s.rainVolume
    ensures Classify(r) == Alert ==> Classify(s) == Alert
    ensures Classify(s) == Normal ==> Classify(r) == Normal
  {
  }

  /** Each threshold is inclusive, and it is the least value that alerts on its own. */
  lemma ClassifyBoundaries(water: u16, rain: u16)
    ensures Classify(Reading(2866, rain)) == Alert
    ensures Classify(Reading(water, 3276)) == Alert
    ensures rain < RainThreshold ==> Classify(Reading(2865, rain)) == Normal
    ensures water < WaterThreshold ==> Classify(Reading(water, 3275)) == Normal
  {
  }
}
