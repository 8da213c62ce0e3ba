/** The plain records exchanged between the decoder and the rest of the
    application. */
module Model {
  import opened Protocol

  /** A sensor reading. `recordTime` is assigned by the receiver from the
      wall clock; it is never transmitted. */
  datatype SensorRecord = SensorRecord(
    id: int,
    recordTime: string,
    airTemp: int,
    airHumid: int,
    soilHumid: int,
    lightIntensity: int)

  /** Actuator snapshot: status fields are 0 = off, 1 = on; `autoMode` is
      0 = manual, 1 = automatic. Every field defaults to 0. */
  datatype ActuatorStateData = ActuatorStateData(
    fanStatus: Byte,
    fanSpeed: Byte,
    pumpStatus: Byte,
    lampStatus: Byte,
    autoMode: Byte)

  const DefaultActuatorState := ActuatorStateData(0, 0, 0, 0, 0)

  /** Time and weather report. `tempNow` is a signed 16-bit value; the low
      and high temperatures are single unsigned bytes widened to `int16_t`. */
  datatype TimeWeatherData = TimeWeatherData(
    hour: Byte,
    minute: Byte,
    weatherCode: Byte,
    tempNow: int,
    tempLow: int,
    tempHigh: int)

  /** Device-reported on/off thresholds for fan, lamp and pump, kept as the
      raw payload bytes. */
  datatype Threshold = Threshold(
    fanOff: Byte,
    fanOn: Byte,
    lampOff: Byte,
    lampOn: Byte,
    pumpOff: Byte,
    pumpOn: Byte)
}
