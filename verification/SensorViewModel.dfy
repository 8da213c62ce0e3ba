/** Decoding of the six-byte sensor payload, plausibility checks, banded
    level classification and display formatting (`SensorViewModel`). */
module Sensor {
  import opened Protocol
  import opened Model

  /** `bigEndianToInt16(high, low)`: `(int16_t(high) << 8) | low` stored in
      an `int16_t`, i.e. the two's-complement reading of the 16-bit word. */
  function BigEndianToInt16(high: Byte, low: Byte): (r: int)
    ensures -0x8000 <= r < 0x8000
    ensures (r - (high * 256 + low)) % 0x10000 == 0
    ensures r < 0 <==> high >= 0x80
  {
    var word := high * 256 + low;
    if word < 0x8000 then word else word - 0x10000
  }

  /** The byte pair a signed 16-bit value travels as (the sender's side). */
  function Int16ToBigEndian(v: int): (hl: (Byte, Byte))
    requires -0x8000 <= v < 0x8000
  {
    var word := if v < 0 then v + 0x10000 else v;
    (word / 256, word % 256)
  }

  /** `BigEndianToInt16` is a bijection from byte pairs onto the signed
      16-bit range: it inverts the sender's encoding ... */
  lemma Int16RoundTrip(v: int)
    requires -0x8000 <= v < 0x8000
    ensures BigEndianToInt16(Int16ToBigEndian(v).0, Int16ToBigEndian(v).1) == v
  {
  }

  /** ... and no two byte pairs decode to the same value. */
  lemma BigEndianToInt16Injective(h1: Byte, l1: Byte, h2: Byte, l2: Byte)
    requires BigEndianToInt16(h1, l1) == BigEndianToInt16(h2, l2)
    ensures h1 == h2 && l1 == l2
  {
  }

  /** `parseFromPayload` on `[airHum, tempHi, tempLo, soilHum, lightHi, lightLo]`.
      `now` is the receiver's wall-clock time, the one field of the record
      not taken from the payload. Humidities are not clamped to 0..100. */
  function ParseFromPayload(payload: seq<Byte>, now: string): (r: SensorRecord)
    requires |payload| == 6
    ensures r.recordTime == now && r.id == 0
    ensures r.airHumid == payload[0] && r.soilHumid == payload[3]
    ensures r.airTemp == BigEndianToInt16(payload[1], payload[2])
    ensures r.lightIntensity == BigEndianToInt16(payload[4], payload[5])
    ensures -0x8000 <= r.airTemp < 0x8000 && -0x8000 <= r.lightIntensity < 0x8000
  {
    SensorRecord(
      id := 0,
      recordTime := now,
      airTemp := BigEndianToInt16(payload[1], payload[2]),
      airHumid := payload[0],
      soilHumid := payload[3],
      lightIntensity := BigEndianToInt16(payload[4], payload[5]))
  }

  /** No information in the payload is lost: distinct payloads give
      distinct records. */
  lemma {:induction false} ParseFromPayloadInjective(p: seq<Byte>, q: seq<Byte>, now: string)
    requires |p| == 6 && |q| == 6
    requires ParseFromPayload(p, now) == ParseFromPayload(q, now)
    ensures p == q
  {
    var r := ParseFromPayload(p, now);
    SensorPayloadRoundTrip(r, p, now);
    SensorPayloadRoundTrip(r, q, now);
  }

  /** A record whose four measured fields fit the payload: humidities in a
      byte, temperature and light in a signed 16-bit word. */
  predicate Encodable(r: SensorRecord) {
    && 0 <= r.airHumid < 256 && 0 <= r.soilHumid < 256
    && -0x8000 <= r.airTemp < 0x8000 && -0x8000 <= r.lightIntensity < 0x8000
  }

  /** The payload the device builds for a record:
      `[airHum, tempHi, tempLo, soilHum, lightHi, lightLo]`, each word
      big-endian. */
  function SensorPayload(r: SensorRecord): (p: seq<Byte>)
    requires Encodable(r)
    ensures |p| == 6
  {
    var (tempHi, tempLo) := Int16ToBigEndian(r.airTemp);
    var (lightHi, lightLo) := Int16ToBigEndian(r.lightIntensity);
    [r.airHumid, tempHi, tempLo, r.soilHumid, lightHi, lightLo]
  }

  /** Parsing inverts the device's encoding in both directions: an encoded
      record comes back with its measurements intact (the id is left 0 and
      the time is the receiver's), and every six-byte payload is the
      encoding of the record parsed from it. */
  lemma SensorPayloadRoundTrip(r: SensorRecord, payload: seq<Byte>, now: string)
    requires Encodable(r) && |payload| == 6
    ensures ParseFromPayload(SensorPayload(r), now) == r.(id := 0, recordTime := now)
    ensures Encodable(ParseFromPayload(payload, now))
    ensures SensorPayload(ParseFromPayload(payload, now)) == payload
  {
    Int16RoundTrip(r.airTemp);
    Int16RoundTrip(r.lightIntensity);
    var q := ParseFromPayload(payload, now);
    Int16RoundTrip(q.airTemp);
    Int16RoundTrip(q.lightIntensity);
    BigEndianToInt16Injective(Int16ToBigEndian(q.airTemp).0, Int16ToBigEndian(q.airTemp).1, payload[1], payload[2]);
    BigEndianToInt16Injective(Int16ToBigEndian(q.lightIntensity).0, Int16ToBigEndian(q.lightIntensity).1, payload[4], payload[5]);
  }

  /** A payload with a negative temperature and a light word above 100:
      `[50, 0xFF, 0xEC, 60, 0x01, 0x90]`. */
  lemma ParseExample(now: string)
    ensures var r := ParseFromPayload([50, 0xFF, 0xEC, 60, 0x01, 0x90], now);
      r.airTemp == -20 && r.lightIntensity == 400 && r.airHumid == 50 && r.soilHumid == 60
    ensures !ValidateSensorData(ParseFromPayload([50, 0xFF, 0xEC, 60, 0x01, 0x90], now))
  {
  }

  const MIN_TEMPERATURE := -20
  const MAX_TEMPERATURE := 60
  const MIN_HUMIDITY := 0
  const MAX_HUMIDITY := 100
  const MIN_LIGHT := 0
  const MAX_LIGHT := 100

  predicate IsValidTemperature(temperature: int) {
    MIN_TEMPERATURE <= temperature <= MAX_TEMPERATURE
  }

  predicate IsValidHumidity(humidity: int) {
    MIN_HUMIDITY <= humidity <= MAX_HUMIDITY
  }

  predicate IsValidLightIntensity(lightIntensity: int) {
    MIN_LIGHT <= lightIntensity <= MAX_LIGHT
  }

  /** `validateSensorData`: all four range checks hold. */
  predicate ValidateSensorData(record: SensorRecord) {
    && IsValidTemperature(record.airTemp)
    && IsValidHumidity(record.airHumid)
    && IsValidHumidity(record.soilHumid)
    && IsValidLightIntensity(record.lightIntensity)
  }

  /** Which received payloads pass validation, in terms of the wire bytes:
      air and soil humidity bytes at most 100, the temperature word between
      -20 and 60 and the light word between 0 and 100. */
  lemma DecodedRecordValidity(payload: seq<Byte>, now: string)
    requires |payload| == 6
    ensures ValidateSensorData(ParseFromPayload(payload, now)) <==>
      && payload[0] <= 100 && payload[3] <= 100
      && ((payload[1] == 0 && payload[2] <= 60) || (payload[1] == 0xFF && payload[2] >= 0xEC))
      && payload[4] == 0 && payload[5] <= 100
  {
  }

  /** The five bands of the level classifiers, from lowest to highest. For
      temperature the labels are 偏低/较低/适宜/较高/偏高, for humidity
      干燥/较干燥/适宜/较潮湿/潮湿, for light 昏暗/较暗/适宜/较亮/强光. */
  datatype Level = TooLow | Lowish | Suitable | Highish | TooHigh

  function Rank(l: Level): nat {
    match l
    case TooLow => 0
    case Lowish => 1
    case Suitable => 2
    case Highish => 3
    case TooHigh => 4
  }

  /** `getTemperatureLevel`: bands below 15, 15..19, 20..28, 29..35, above 35. */
  function TemperatureLevel(temperature: int): (r: Level)
    ensures r == TooLow <==> temperature < 15
    ensures r == Lowish <==> 15 <= temperature < 20
    ensures r == Suitable <==> 20 <= temperature <= 28
    ensures r == Highish <==> 28 < temperature <= 35
    ensures r == TooHigh <==> 35 < temperature
  {
    if temperature < 15 then TooLow
    else if temperature < 20 then Lowish
    else if temperature <= 28 then Suitable
    else if temperature <= 35 then Highish
    else TooHigh
  }

  /** `getHumidityLevel`: bands below 30, 30..39, 40..70, 71..80, above 80. */
  function HumidityLevel(humidity: int): (r: Level)
    ensures r == TooLow <==> humidity < 30
    ensures r == Lowish <==> 30 <= humidity < 40
    ensures r == Suitable <==> 40 <= humidity <= 70
    ensures r == Highish <==> 70 < humidity <= 80
    ensures r == TooHigh <==> 80 < humidity
  {
    if humidity < 30 then TooLow
    else if humidity < 40 then Lowish
    else if humidity <= 70 then Suitable
    else if humidity <= 80 then Highish
    else TooHigh
  }

  /** `getLightLevel`: bands below 100, 100..299, 300..1000, 1001..3000, above 3000. */
  function LightLevel(lightIntensity: int): (r: Level)
    ensures r == TooLow <==> lightIntensity < 100
    ensures r == Lowish <==> 100 <= lightIntensity < 300
    ensures r == Suitable <==> 300 <= lightIntensity <= 1000
    ensures r == Highish <==> 1000 < lightIntensity <= 3000
    ensures r == TooHigh <==> 3000 < lightIntensity
  {
    if lightIntensity < 100 then TooLow
    else if lightIntensity < 300 then Lowish
    else if lightIntensity <= 1000 then Suitable
    else if lightIntensity <= 3000 then Highish
    else TooHigh
  }

  /** The classifiers are monotone: a larger reading never gets a lower band. */
  lemma LevelsAreMonotone(v: int, w: int)
    requires v <= w
    ensures Rank(TemperatureLevel(v)) <= Rank(TemperatureLevel(w))
    ensures Rank(HumidityLevel(v)) <= Rank(HumidityLevel(w))
    ensures Rank(LightLevel(v)) <= Rank(LightLevel(w))
  {
  }

  function DigitChar(d: int): char
    requires 0 <= d < 10
  {
    ('0' as int + d) as char
  }

  predicate IsDigit(c: char) {
    '0' <= c <= '9'
  }

  /** Decimal digits of a natural number, most significant first. */
  function NatString(n: nat): string {
    if n < 10 then [DigitChar(n)] else NatString(n / 10) + [DigitChar(n % 10)]
  }

  /** `QString::arg(int)`: the decimal representation, with a leading '-'
      for negative numbers. */
  function DecimalString(n: int): string {
    if n < 0 then "-" + NatString(-n) else NatString(n)
  }

  /** Canonical decimal digits: at least one digit, and no leading zero
      unless the digits are exactly "0". */
  predicate IsDigits(d: string) {
    && |d| > 0
    && (forall i :: 0 <= i < |d| ==> IsDigit(d[i]))
    && (d[0] == '0' ==> |d| == 1)
  }

  /** A canonical decimal numeral: canonical digits, optionally after a '-',
      and no "-0". */
  predicate IsNumeral(p: string) {
    |p| > 0 && if p[0] == '-' then IsDigits(p[1..]) && p[1..] != "0" else IsDigits(p)
  }

  /** The value of a string of decimal digits. */
  function DigitsValue(s: string): int {
    if s == [] then 0 else DigitsValue(s[..|s| - 1]) * 10 + (s[|s| - 1] as int - '0' as int)
  }

  /** Reading a decimal integer back. */
  function ParseDecimal(s: string): int {
    if |s| > 0 && s[0] == '-' then -DigitsValue(s[1..]) else DigitsValue(s)
  }

  /** The digits of `n` are canonical (no leading zero) and read back as `n`. */
  lemma {:induction false} NatStringRoundTrip(n: nat)
    ensures |NatString(n)| > 0
    ensures forall i :: 0 <= i < |NatString(n)| ==> IsDigit(NatString(n)[i])
    ensures NatString(n)[0] == '0' ==> n == 0
    ensures DigitsValue(NatString(n)) == n
  {
    if n >= 10 {
      NatStringRoundTrip(n / 10);
      var s := NatString(n);
      assert s[..|s| - 1] == NatString(n / 10);
    }
  }

  lemma DecimalRoundTrip(n: int)
    ensures IsNumeral(DecimalString(n))
    ensures DecimalString(n)[0] == '-' <==> n < 0
    ensures ParseDecimal(DecimalString(n)) == n
  {
    if n < 0 {
      NatStringRoundTrip(-n);
      assert DecimalString(n)[1..] == NatString(-n);
    } else {
      NatStringRoundTrip(n);
    }
  }

  /** Canonical digits are the digits of their value. */
  lemma {:induction false} DigitsCanonical(d: string)
    requires IsDigits(d)
    ensures DigitsValue(d) >= 0
    ensures NatString(DigitsValue(d)) == d
  {
    var n := |d| - 1;
    var digit := d[n] as int - '0' as int;
    if n == 0 {
      assert d[..0] == [];
      assert DigitChar(digit) == d[0];
    } else {
      var front := d[..n];
      assert front[0] == d[0];
      DigitsCanonical(front);
      var m := DigitsValue(front);
      var v := m * 10 + digit;
      assert v / 10 == m && v % 10 == digit;
      assert DigitChar(digit) == d[n];
      assert d == front + [d[n]];
    }
  }

  /** A numeral is the decimal text of its value: the text of a number is
      unique among canonical numerals. */
  lemma NumeralCanonical(p: string)
    requires IsNumeral(p)
    ensures DecimalString(ParseDecimal(p)) == p
  {
    if p[0] == '-' {
      DigitsCanonical(p[1..]);
      var m := DigitsValue(p[1..]);
      assert p == "-" + p[1..];
    } else {
      DigitsCanonical(p);
    }
  }

  const DEGREE_CELSIUS := "\U{00B0}C"

  /** `formatTemperature`: e.g. "23°C". */
  function FormatTemperature(temperature: int): (s: string)
    ensures |s| > 2 && s[|s| - 2..] == DEGREE_CELSIUS
    ensures IsNumeral(s[..|s| - 2]) && (s[0] == '-' <==> temperature < 0)
    ensures ParseDecimal(s[..|s| - 2]) == temperature
  {
    WithUnit(temperature, DEGREE_CELSIUS)
  }

  /** `formatHumidity`: e.g. "65%". */
  function FormatHumidity(humidity: int): (s: string)
    ensures |s| > 1 && s[|s| - 1..] == "%"
    ensures IsNumeral(s[..|s| - 1]) && (s[0] == '-' <==> humidity < 0)
    ensures ParseDecimal(s[..|s| - 1]) == humidity
  {
    WithUnit(humidity, "%")
  }

  /** `formatLightIntensity`: e.g. "1200 Lux". */
  function FormatLightIntensity(lightIntensity: int): (s: string)
    ensures |s| > 4 && s[|s| - 4..] == " Lux"
    ensures IsNumeral(s[..|s| - 4]) && (s[0] == '-' <==> lightIntensity < 0)
    ensures ParseDecimal(s[..|s| - 4]) == lightIntensity
  {
    WithUnit(lightIntensity, " Lux")
  }

  /** `QString("%1<unit>").arg(v)`: the decimal text of `v`, then the unit. */
  function WithUnit(v: int, unit: string): (s: string)
    ensures |s| > |unit| && s[|s| - |unit|..] == unit
    ensures IsNumeral(s[..|s| - |unit|]) && (s[0] == '-' <==> v < 0)
    ensures ParseDecimal(s[..|s| - |unit|]) == v
  {
    var d := DecimalString(v);
    DecimalRoundTrip(v);
    assert (d + unit)[..|d|] == d;
    assert (d + unit)[|d|..] == unit;
    d + unit
  }

  /** The display text is THE decimal numeral of the reading followed by
      its unit: any canonical numeral that reads back as the reading,
      followed by the unit, is exactly what the formatter returns. */
  lemma FormatRoundTrip(v: int, numeral: string)
    requires IsNumeral(numeral) && ParseDecimal(numeral) == v
    ensures FormatTemperature(v) == numeral + DEGREE_CELSIUS
    ensures FormatHumidity(v) == numeral + "%"
    ensures FormatLightIntensity(v) == numeral + " Lux"
  {
    NumeralCanonical(numeral);
  }
}
