/** Per-command payload layouts shared by the two transports' dispatchers
    and senders, and the events a dispatcher hands to the application (the
    Qt signals of the view models). */
module Payload {
  import opened Protocol
  import opened Model
  import Sensor

  /** What a dispatcher delivers for an accepted frame. */
  datatype Event =
    | SensorDataReceived(record: SensorRecord)
    | ActuatorStateReceived(state: ActuatorStateData)
    | TimeWeatherReceived(weather: TimeWeatherData)
    | HeartBeatReceived
    | ThresholdReceived(threshold: Threshold)

  /** Motor-state payload `[fanStatus, fanSpeed, pumpStatus, lampStatus, autoMode]`. */
  function DecodeActuatorState(p: seq<Byte>): ActuatorStateData
    requires |p| == 5
  {
    ActuatorStateData(p[0], p[1], p[2], p[3], p[4])
  }

  /** Time-weather payload `[hour, minute, weatherCode, tempHi, tempLo,
      tempLow, tempHigh, reserved]`; the last byte is ignored. */
  function DecodeTimeWeather(p: seq<Byte>): TimeWeatherData
    requires |p| == 8
  {
    TimeWeatherData(p[0], p[1], p[2], Sensor.BigEndianToInt16(p[3], p[4]), p[5], p[6])
  }

  /** Threshold payload as the device reports it:
      `[fanOff, fanOn, lampOff, lampOn, pumpOff, pumpOn]`. */
  function DecodeThreshold(p: seq<Byte>): Threshold
    requires |p| == 6
  {
    Threshold(p[0], p[1], p[2], p[3], p[4], p[5])
  }

  /** Motor-control payload built by `sendMotorControl`. */
  function MotorControlPayload(fanStatus: Byte, fanSpeed: Byte, pumpStatus: Byte, lampStatus: Byte): seq<Byte> {
    [fanStatus, fanSpeed, pumpStatus, lampStatus]
  }

  /** Threshold payload built by `sendThreshold`:
      `[fanOn, fanOff, pumpOn, pumpOff, lampOn, lampOff]`. */
  function ThresholdPayload(fanOn: Byte, fanOff: Byte, pumpOn: Byte, pumpOff: Byte, lampOn: Byte, lampOff: Byte): seq<Byte> {
    [fanOn, fanOff, pumpOn, pumpOff, lampOn, lampOff]
  }

  /** The send and receive layouts of thresholds disagree: what is sent as
      (fanOn, fanOff, pumpOn, pumpOff, lampOn, lampOff) decodes as fanOff =
      fanOn, fanOn = fanOff, lampOff = pumpOn, lampOn = pumpOff, pumpOff =
      lampOn, pumpOn = lampOff. Encoding then decoding is the identity only
      in the degenerate case, so never for a setting the payload builder
      accepts (every on value above its off value). */
  lemma ThresholdEncodeDecode(fanOn: Byte, fanOff: Byte, pumpOn: Byte, pumpOff: Byte, lampOn: Byte, lampOff: Byte)
    ensures DecodeThreshold(ThresholdPayload(fanOn, fanOff, pumpOn, pumpOff, lampOn, lampOff)) ==
            Threshold(fanOff := fanOn, fanOn := fanOff, lampOff := pumpOn,
                      lampOn := pumpOff, pumpOff := lampOn, pumpOn := lampOff)
    ensures DecodeThreshold(ThresholdPayload(fanOn, fanOff, pumpOn, pumpOff, lampOn, lampOff)) ==
            Threshold(fanOff := fanOff, fanOn := fanOn, lampOff := lampOff,
                      lampOn := lampOn, pumpOff := pumpOff, pumpOn := pumpOn)
            <==> fanOn == fanOff && lampOff == pumpOn && lampOn == pumpOff
  {
  }

  /** The time-weather decoding, field by field. */
  lemma TimeWeatherFields(p: seq<Byte>, reserved: Byte)
    requires |p| == 8
    ensures var w := DecodeTimeWeather(p);
      && w.hour == p[0] && w.minute == p[1] && w.weatherCode == p[2]
      && w.tempNow == (if p[3] < 0x80 then p[3] as int * 256 + p[4] else p[3] as int * 256 + p[4] - 0x10000)
      && w.tempLow == p[5] && w.tempHigh == p[6]
    ensures DecodeTimeWeather(p[7 := reserved]) == DecodeTimeWeather(p)
  {
  }
}
