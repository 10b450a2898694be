/** Integer widths and the value types shared by every task of the controller. */
module Types {

  /** C's fixed-width unsigned integers, as subsets of the unbounded integers. */
  type u8 = x: int | 0 <= x < 0x100
  type u16 = x: int | 0 <= x < 0x1_0000
  type u32 = x: int | 0 <= x < 0x1_0000_0000

  /** Full scale of the RP2040's 12-bit ADC. */
  const AdcMax: int := 4095

  predicate InAdcRange(v: int) {
    0 <= v <= AdcMax
  }

  /** The outcome of a queue receive: a value, or nothing (timeout / still waiting). */
  datatype Option<T> = None | Some(value: T)

  /** One joint sample of both channels (`joystick_data_t`), copied by value into each queue. */
  datatype Reading = Reading(waterLevel: u16, rainVolume: u16)
}
