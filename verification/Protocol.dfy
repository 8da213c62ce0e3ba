/** Wire-level constants shared by both transports: the byte type, the
    start-of-frame sentinel and the command identifiers. */
module Protocol {

  /** An unsigned 8-bit value (`uint8_t`). */
  type Byte = b: int | 0 <= b < 256

  datatype Option<+T> = None | Some(value: T)

  /** Start-of-frame sentinel. */
  const SOF: Byte := 0xAA

  /** Command identifiers (one byte each on the wire). */
  const CMD_SENSOR: Byte := 0x01
  const CMD_MOTOR_STATE: Byte := 0x02
  const CMD_MOTOR_CTRL: Byte := 0x03
  const CMD_THRESHOLD: Byte := 0x04
  const CMD_HEART_BEAT: Byte := 0x05
  const CMD_CTRL_ACK: Byte := 0x06
  const CMD_DATA_CTRL: Byte := 0x07
  const CMD_AUTO_MODE: Byte := 0x08
  const CMD_TIME_WEATHER: Byte := 0x09
  const CMD_GET_DATA: Byte := 0x10

  /** Conversion of an `int` into a `uint8_t` parameter: the value modulo 256
      (Dafny's `%` is Euclidean, which is what the unsigned conversion does
      for negative values too). */
  function ToByte(x: int): (r: Byte)
    ensures r == x <==> 0 <= x < 256
    ensures (r - x) % 256 == 0
  {
    x % 256
  }

  /** `enable ? 1 : 0` as a payload byte. */
  function FlagByte(enable: bool): (r: Byte)
    ensures r <= 1
    ensures r == 1 <==> enable
  {
    if enable then 1 else 0
  }
}
