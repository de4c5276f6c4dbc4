/** Fixed-width machine integers used by the relay and by the administration client. */
module Bytes {
  /** An unsigned 8-bit value (`uint8_t`). */
  type byte = b: int | 0 <= b < 0x100

  /** An unsigned 16-bit value (`uint16_t`). */
  type uint16 = n: int | 0 <= n < 0x1_0000

  /** An unsigned 32-bit value (`uint32_t`). */
  type uint32 = n: int | 0 <= n < 0x1_0000_0000
}
