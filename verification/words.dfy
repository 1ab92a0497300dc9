/** Machine words, error codes and the register constants of the driver. */
module Words {
  type byte = x: int | 0 <= x < 0x100
  type u16 = x: int | 0 <= x < 0x1_0000

  /** Bytes in each of socket 0's packet rings. */
  const RING := 0x4000

  /** The driver's own receive buffer bound and the bounds it accepts for a frame. */
  const RX_BUF_SIZE := 1600
  const MIN_FRAME := 60
  const HEADER := 2

  function Hi(v: u16): byte { v / 0x100 }
  function Lo(v: u16): byte { v % 0x100 }
  function Join(h: byte, l: byte): u16 { h * 0x100 + l }

  /** Pointer arithmetic as uint16_t does it. */
  function Add16(p: u16, n: nat): u16 { (p + n) % 0x1_0000 }
  function Sub16(p: u16, q: u16): u16 { (p - q) % 0x1_0000 }

  /** esp_err_t values the driver distinguishes. */
  datatype Err =
    | Ok | Fail | NoMem | InvalidArg | InvalidState | InvalidSize
    | InvalidResponse | NotFound | Timeout

  /** Errors a failing SPI transaction can report: transmit failure, allocation failure,
      an uninitialised driver, or a lock that was not obtained in time. */
  predicate BusError(e: Err) {
    e.Fail? || e.NoMem? || e.InvalidState? || e.Timeout?
  }
}
