/**
 * The part of the `evdev` crate's vocabulary that the collector looks at:
 * the destructured `EventSummary` of one raw input event, and the codes of
 * the two absolute axes and the touch key (from the Linux input-event codes).
 */
module Evdev {
  /** Linux `__s32`, the type of an input event's value. */
  newtype i32 = x: int | -0x8000_0000 <= x < 0x8000_0000

  /** Linux `__u16`, the type of an input event's code. */
  newtype u16 = x: int | 0 <= x < 0x1_0000

  const ABS_X: u16 := 0x00
  const ABS_Y: u16 := 0x01
  const BTN_TOUCH: u16 := 0x14a

  /**
   * One raw event, tagged by kind. Timestamps, the synchronization sub-code
   * and the payloads of every other kind are not looked at by the collector,
   * so they are not modelled.
   */
  datatype EventSummary =
    | Synchronization
    | AbsoluteAxis(axis: u16, value: i32)
    | Key(key: u16, value: i32)
    | Other
}
