/** The host-side threshold settings (`ThresholdManager`): range and
    ordering validation, all-or-nothing setters, and the transfer of the
    settings to the device through the serial transport. */
module Thresholds {
  import opened Protocol
  import opened Frames
  import opened Payload
  import Serial

  /** `ThresholdManager::ThresholdData`: one (high, low) pair per quantity. */
  datatype ThresholdData = ThresholdData(
    temperatureHigh: int, temperatureLow: int,
    airHumidityHigh: int, airHumidityLow: int,
    lightIntensityHigh: int, lightIntensityLow: int,
    soilMoistureHigh: int, soilMoistureLow: int)

  const DefaultThresholds := ThresholdData(30, 20, 70, 50, 800, 300, 70, 40)

  /** The outcome of `validateThreshold`; each failure stands for the
      `validationError` message it emits. */
  datatype Validation = Valid | OutOfRange(min: int, max: int) | NotIncreasing

  /** `validateThreshold`: the range check comes first, then the ordering. */
  function ValidateThreshold(high: int, low: int, min: int, max: int): (r: Validation)
    ensures r == Valid <==> min <= low < high <= max
    ensures r == OutOfRange(min, max) <==> low < min || high > max
    ensures r == NotIncreasing <==> min <= low && high <= max && high <= low
  {
    if low < min || high > max then OutOfRange(min, max)
    else if high <= low then NotIncreasing
    else Valid
  }

  const TEMPERATURE_MIN := 0
  const TEMPERATURE_MAX := 50
  const AIR_HUMIDITY_MIN := 0
  const AIR_HUMIDITY_MAX := 100
  const LIGHT_INTENSITY_MIN := 0
  const LIGHT_INTENSITY_MAX := 2000
  const SOIL_MOISTURE_MIN := 0
  const SOIL_MOISTURE_MAX := 100

  /** Every pair would pass its setter's validation. */
  predicate WellFormed(t: ThresholdData) {
    && ValidateThreshold(t.temperatureHigh, t.temperatureLow, TEMPERATURE_MIN, TEMPERATURE_MAX) == Valid
    && ValidateThreshold(t.airHumidityHigh, t.airHumidityLow, AIR_HUMIDITY_MIN, AIR_HUMIDITY_MAX) == Valid
    && ValidateThreshold(t.lightIntensityHigh, t.lightIntensityLow, LIGHT_INTENSITY_MIN, LIGHT_INTENSITY_MAX) == Valid
    && ValidateThreshold(t.soilMoistureHigh, t.soilMoistureLow, SOIL_MOISTURE_MIN, SOIL_MOISTURE_MAX) == Valid
  }

  /** The six bytes `sendThresholdsToDevice` hands to `sendThreshold`, whose
      parameters are `uint8_t`: each value goes out modulo 256. Air humidity
      is not sent. */
  function DeviceBytes(t: ThresholdData): (r: seq<Byte>)
    ensures |r| == 6
  {
    ThresholdPayload(ToByte(t.temperatureHigh), ToByte(t.temperatureLow),
                     ToByte(t.soilMoistureHigh), ToByte(t.soilMoistureLow),
                     ToByte(t.lightIntensityHigh), ToByte(t.lightIntensityLow))
  }

  /** The defaults are well formed, yet the default light pair 800/300 is
      sent as 32/44. */
  lemma DefaultsSent()
    ensures WellFormed(DefaultThresholds)
    ensures DeviceBytes(DefaultThresholds) == [30, 20, 70, 40, 32, 44]
  {
    assert ToByte(800) == 32 && ToByte(300) == 44;
  }

  /** For well-formed settings, temperature and soil moisture always reach
      the device intact; a light value does exactly when it is below 256. */
  lemma TruncationOnlyHitsLight(t: ThresholdData)
    requires WellFormed(t)
    ensures var b := DeviceBytes(t);
      && b[0] == t.temperatureHigh && b[1] == t.temperatureLow
      && b[2] == t.soilMoistureHigh && b[3] == t.soilMoistureLow
      && (b[4] == t.lightIntensityHigh <==> t.lightIntensityHigh < 256)
      && (b[5] == t.lightIntensityLow <==> t.lightIntensityLow < 256)
  {
  }

  /** The signal of `ThresholdManager`. */
  datatype Signal = ThresholdsChanged

  class ThresholdManager {
    var thresholds: ThresholdData
    /** The attached serial transport, if any (`m_serialViewModel`). */
    var serial: Serial.SerialViewModel?

    constructor ()
      ensures thresholds == DefaultThresholds && serial == null
    {
      thresholds := ThresholdData(30, 20, 70, 50, 800, 300, 70, 40);
      serial := null;
    }

    method SetSerialViewModel(viewModel: Serial.SerialViewModel?)
      modifies this
      ensures serial == viewModel && thresholds == old(thresholds)
    {
      serial := viewModel;
    }

    /** `setTemperatureThreshold`: both values or neither, within [0, 50]. */
    method SetTemperatureThreshold(high: int, low: int) returns (result: Validation, signals: seq<Signal>)
      modifies this
      ensures result == ValidateThreshold(high, low, TEMPERATURE_MIN, TEMPERATURE_MAX)
      ensures thresholds == if result == Valid
        then old(thresholds).(temperatureHigh := high, temperatureLow := low)
        else old(thresholds)
      ensures serial == old(serial)
      ensures old(WellFormed(thresholds)) ==> WellFormed(thresholds)
      ensures signals == if result == Valid then [ThresholdsChanged] else []
    {
      result := ValidateThreshold(high, low, TEMPERATURE_MIN, TEMPERATURE_MAX);
      if result != Valid {
        return result, [];
      }
      thresholds := thresholds.(temperatureHigh := high, temperatureLow := low);
      signals := [ThresholdsChanged];
    }

    /** `setAirHumidityThreshold`: within [0, 100]. */
    method SetAirHumidityThreshold(high: int, low: int) returns (result: Validation, signals: seq<Signal>)
      modifies this
      ensures result == ValidateThreshold(high, low, AIR_HUMIDITY_MIN, AIR_HUMIDITY_MAX)
      ensures thresholds == if result == Valid
        then old(thresholds).(airHumidityHigh := high, airHumidityLow := low)
        else old(thresholds)
      ensures serial == old(serial)
      ensures old(WellFormed(thresholds)) ==> WellFormed(thresholds)
      ensures signals == if result == Valid then [ThresholdsChanged] else []
    {
      result := ValidateThreshold(high, low, AIR_HUMIDITY_MIN, AIR_HUMIDITY_MAX);
      if result != Valid {
        return result, [];
      }
      thresholds := thresholds.(airHumidityHigh := high, airHumidityLow := low);
      signals := [ThresholdsChanged];
    }

    /** `setLightIntensityThreshold`: within [0, 2000]. */
    method SetLightIntensityThreshold(high: int, low: int) returns (result: Validation, signals: seq<Signal>)
      modifies this
      ensures result == ValidateThreshold(high, low, LIGHT_INTENSITY_MIN, LIGHT_INTENSITY_MAX)
      ensures thresholds == if result == Valid
        then old(thresholds).(lightIntensityHigh := high, lightIntensityLow := low)
        else old(thresholds)
      ensures serial == old(serial)
      ensures old(WellFormed(thresholds)) ==> WellFormed(thresholds)
      ensures signals == if result == Valid then [ThresholdsChanged] else []
    {
      result := ValidateThreshold(high, low, LIGHT_INTENSITY_MIN, LIGHT_INTENSITY_MAX);
      if result != Valid {
        return result, [];
      }
      thresholds := thresholds.(lightIntensityHigh := high, lightIntensityLow := low);
      signals := [ThresholdsChanged];
    }

    /** `setSoilMoistureThreshold`: within [0, 100]. */
    method SetSoilMoistureThreshold(high: int, low: int) returns (result: Validation, signals: seq<Signal>)
      modifies this
      ensures result == ValidateThreshold(high, low, SOIL_MOISTURE_MIN, SOIL_MOISTURE_MAX)
      ensures thresholds == if result == Valid
        then old(thresholds).(soilMoistureHigh := high, soilMoistureLow := low)
        else old(thresholds)
      ensures serial == old(serial)
      ensures old(WellFormed(thresholds)) ==> WellFormed(thresholds)
      ensures signals == if result == Valid then [ThresholdsChanged] else []
    {
      result := ValidateThreshold(high, low, SOIL_MOISTURE_MIN, SOIL_MOISTURE_MAX);
      if result != Valid {
        return result, [];
      }
      thresholds := thresholds.(soilMoistureHigh := high, soilMoistureLow := low);
      signals := [ThresholdsChanged];
    }

    /** `sendThresholdsToDevice`: the bytes written to the serial port;
        nothing without an attached (and open) transport. */
    method SendThresholdsToDevice() returns (written: seq<Byte>)
      ensures written ==
        if serial == null || !serial.portOpen then [] else Wire(CMD_THRESHOLD, DeviceBytes(thresholds))
    {
      if serial == null {
        return [];
      }
      written := serial.SendThreshold(
        ToByte(thresholds.temperatureHigh), ToByte(thresholds.temperatureLow),
        ToByte(thresholds.soilMoistureHigh), ToByte(thresholds.soilMoistureLow),
        ToByte(thresholds.lightIntensityHigh), ToByte(thresholds.lightIntensityLow));
    }
  }
}
