/** PWM configuration of the two buzzers: `set_volume_level` and the alert duty level. */
module Buzzer {
  import opened Types

  const SysClockHz: nat := 125000000
  const BuzzerFreq: nat := 3000

  /** The PWM counter period in ticks, `125000000 / BUZZER_FREQ` in integer division. */
  const Period: nat := SysClockHz / BuzzerFreq

  /** Volume levels the alert task passes to `set_volume_level`. */
  const LevelNormal: u8 := 1
  const LevelAlert: u8 := 2

  /** One slice's configuration: clock divisor and counter wrap value. */
  datatype PwmConfig = PwmConfig(clkdiv: int, wrap: int)

  /** The configurations written to the two buzzer slices. */
  datatype VolumeConfig = VolumeConfig(slice1: PwmConfig, slice2: PwmConfig)

  /** The `switch (level)`: 300 for level 1, 30 for level 2, 300 for any other level. */
  function VolumeDivisor(level: u8): (d: int)
    ensures d == 30 || d == 300
    ensures d == 30 <==> level == LevelAlert
  {
    match level
    case 1 => 300
    case 2 => 30
    case _ => 300
  }

  /** `set_volume_level`: both slices get the chosen divisor and the wrap `125000000 / BUZZER_FREQ - 1` that the source computes. */
  function SetVolumeLevel(level: u8): (cfg: VolumeConfig)
    ensures cfg.slice1 == cfg.slice2
    ensures cfg.slice1.wrap == 41665
    ensures level == LevelAlert ==> cfg.slice1.clkdiv == 30
    ensures level != LevelAlert ==> cfg.slice1.clkdiv == 300
  {
    var divisor := VolumeDivisor(level);
    VolumeConfig(PwmConfig(divisor, SysClockHz / BuzzerFreq - 1), PwmConfig(divisor, SysClockHz / BuzzerFreq - 1))
  }

  /**
   * `period * 0.9` computed in floating point and truncated to the 16-bit channel level. The
   * product is modelled exactly, as the rational 9 * period / 10, then rounded toward zero.
   */
  function NinetyPercent(period: nat): (level: nat)
    ensures 10 * level <= 9 * period < 10 * (level + 1)
  {
    period * 9 / 10
  }

  /** The duty level the alert branch writes to both buzzers during the on-phase. */
  const AlertDuty: nat := NinetyPercent(Period)

  /** The on-phase level is 37499 of a 41666-tick period: just under 90%, and a valid 16-bit level. */
  lemma AlertDutyValue()
    ensures Period == 41666
    ensures AlertDuty == 37499
    ensures AlertDuty < 0x1_0000 && AlertDuty <= Period - 1
  {
  }
}
