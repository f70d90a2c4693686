/**
 * Board constants (config.h) and the Arduino GPIO vocabulary shared by the
 * power manager, the SDS011 driver and the battery monitor.
 */
module Config {

  /** Sleep interval of the duty cycle, in seconds (`TIME_TO_SLEEP`). */
  const TimeToSleep: int32 := 5

  /** SDS011 wiring (`RX_PIN`, `TX_PIN`, `POWER_PIN`). */
  const RxPin: int := 5
  const TxPin: int := 4
  const PowerPin: int := 21

  /** LoRa radio configuration. */
  const RfFrequency: int := 868000000
  const TxOutputPower: int := 18
  const LoRaBandwidth: int := 0
  const LoRaSpreadingFactor: int := 7
  const LoRaCodingRate: int := 1
  const LoRaPreambleLength: int := 8
  const LoRaFixLengthPayloadOn: bool := false
  const LoRaIqInversionOn: bool := false

  /** The external power rail control pin (`Vext`); the rail is on when the pin is LOW. */
  const Vext: int := 43

  /** Mode set by `pinMode`. */
  datatype Mode = Input | Output | InputPullup

  /** Level set by `digitalWrite`. */
  datatype Level = Low | High

  datatype Option<T> = None | Some(value: T)

  /** An unsigned 8-bit C `uint8_t`, as an integer (bytes that are only compared and combined arithmetically). */
  type uint8 = x: int | 0 <= x < 256

  /** A signed 32-bit C `int`. */
  type int32 = x: int | -0x8000_0000 <= x < 0x8000_0000
}
