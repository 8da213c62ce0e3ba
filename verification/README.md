# GreenHouse host: link protocol and control logic in Dafny

GreenHouse is a Qt desktop application that talks to a greenhouse
controller over a serial port or a WebSocket. Both links carry the same
binary frames, `0xAA | cmd | len | payload[len] | crc8(payload)`. The
controller reports sensor readings, actuator states, time and weather,
heartbeats, control acknowledgements and threshold settings. The host sends
motor-control, threshold, data-collection, auto-mode and get-data commands.

This project models the core of that host and proves properties about the
model:

- `Protocol.dfy` (module `Protocol`): the command identifiers, the start
  byte, bytes and the `uint8_t` truncation.
- `Model.dfy` (module `Model`): the sensor record, actuator state,
  time-weather and threshold records.
- `Crc8.dfy` (module `Crc`): the CRC-8 used by both links (polynomial 0x07,
  initial value 0, most significant bit first, no final XOR: CRC-8/SMBUS).
  `CalcCrc` is the nested loop of `calcCRC`. It is proved equal to a
  bit-vector register specification, which gives the published check
  value, the zero residue and single-byte error detection.
- `Frames.dfy` (module `Frames`): the byte-by-byte frame decoder. `Next`
  is one turn of the decoding loop and `Run` is the loop over a chunk, as a
  left fold. The class `FrameDecoder` keeps the five decoder fields and
  updates them in place. Its `Step` and `Feed` methods are proved against
  `Next` and `Run`. Both transports use this one decoder, because their
  per-byte code is the same.
- `SensorViewModel.dfy` (module `Sensor`): sensor payload decoding,
  plausibility checks, level bands and display strings.
- `Payload.dfy` (module `Payload`): the other payload layouts, and the
  events (Qt signals) that a dispatcher hands to the application.
- `WebSocketViewModel.dfy` (module `WebSocket`) and `SerialViewModel.dfy`
  (module `Serial`): the two transports. Each has its connection resets,
  its receive path (decoder, then `processFrame`) and its senders. A send
  returns the bytes written to the link.
- `ControlViewModel.dfy` (module `Control`): command payload builders with
  validation, and the locally kept actuator state with change detection.
- `ChartViewModel.dfy` (module `Chart`): the bounded record store behind
  the charts.
- `ThresholdManager.dfy` (module `Thresholds`): threshold validation, the
  setters and the transfer of the thresholds to the device.
- `DeviceController.dfy` (module `Devices`): manual toggles, the
  auto-mode lock and synchronisation with the reported actuator state.

Signals become returned sequences of events. The wall clock becomes a
`now` parameter. The socket's connected state and the serial port's open
state are fields, and an attached-or-not serial transport is a nullable
field.

The model follows the code where its behaviour is easy to misread:

- A second `0xAA` right after a start byte is not skipped. The decoder
  stores it as the command byte (`src/viewmodel/WebSocketViewModel.cpp:77-80`).
  So a valid frame preceded by a stray start byte is lost. See
  `Frames.RepeatedSofIsNotSkipped`.
- Control acknowledgements are decoded but only logged, so no event
  reaches the application (`src/viewmodel/WebSocketViewModel.cpp:186-204`).
- Decoding a sent threshold gives a fixed permutation of the values, not
  the values themselves. The send order (`src/viewmodel/WebSocketViewModel.cpp:260-265`)
  and the receive order (`src/viewmodel/WebSocketViewModel.cpp:214-225`)
  differ. See `Payload.ThresholdEncodeDecode`.
- The serial dispatcher has no threshold case
  (`src/viewmodel/SerialViewModel.cpp:72-151`).
- `src/viewmodel/SerialViewModel.h:28-31` declares no heartbeat signal, but
  `src/viewmodel/SerialViewModel.cpp:139-145` emits one. The model follows
  the `.cpp` file and delivers `HeartBeatReceived` on both links.

## Model

| member | source | states |
|---|---|---|
| Protocol.ToByte | src/untils/ThresholdManager.cpp:84-91 | passing an `int` to a `uint8_t` parameter keeps it exactly when it is in 0..255, and is congruent to it modulo 256 otherwise |
| Protocol.FlagByte | src/viewmodel/WebSocketViewModel.cpp:267-280 | the one-byte flag is 1 exactly when enabled and at most 1 |
| Crc.CalcCrc | src/viewmodel/WebSocketViewModel.cpp:282-294 | the nested byte and bit loop computes the CRC-8 register specification; the CRC of no bytes is 0 |
| Crc.RegisterSnoc | src/viewmodel/WebSocketViewModel.cpp:285-292 | the CRC of `data + [b]` folds `b` into the CRC of `data` |
| Crc.CrcResidueIsZero | src/viewmodel/WebSocketViewModel.cpp:282-294 | appending a message's own CRC gives CRC 0 |
| Crc.ShiftInjective | src/viewmodel/WebSocketViewModel.cpp:287-290 | any number of register clocks is injective |
| Crc.UpdateInjective | src/viewmodel/WebSocketViewModel.cpp:285-292 | folding one byte in is injective in the register and in the byte |
| Crc.CheckValue | src/viewmodel/WebSocketViewModel.cpp:282-294 | the CRC of ASCII "123456789" is 0xF4, the CRC-8/SMBUS check value |
| Crc.SingleByteErrorDetected | src/viewmodel/WebSocketViewModel.cpp:282-294 | two equal-length payloads that differ in exactly one byte have different CRCs |
| Frames.Resized | src/viewmodel/WebSocketViewModel.cpp:83 | resizing the buffer gives the requested length and keeps the old prefix |
| Frames.Next | src/viewmodel/WebSocketViewModel.cpp:70-112 | one decoding step keeps the decoder invariant; outside a frame non-SOF bytes change nothing; the byte after SOF is the command; payload bytes (0xAA included) are stored at the fill index; after the CRC byte the decoder waits for SOF; a frame comes out exactly when the CRC byte equals the CRC of the buffer, and it is (cmd, buffer) |
| Frames.Run | src/viewmodel/WebSocketViewModel.cpp:70-113 | feeding a chunk keeps the decoder invariant |
| Frames.RunSnoc | src/viewmodel/WebSocketViewModel.cpp:70-113 | feeding one more byte is one more decoding step |
| Frames.RunAppend | src/viewmodel/WebSocketViewModel.cpp:70-113 | feeding `a + b` gives the same final decoder and the same frames, in order, as feeding `a` then `b` |
| Frames.NoiseIsDiscarded | src/viewmodel/WebSocketViewModel.cpp:72-76 | outside a frame, input with no SOF byte is discarded with no state change |
| Frames.CollectData | src/viewmodel/WebSocketViewModel.cpp:87-94 | payload bytes fill the buffer from the fill index, and the decoder moves to the CRC phase exactly when the buffer is full |
| Frames.RunFrame | src/viewmodel/WebSocketViewModel.cpp:72-111 | a complete frame fed while waiting for SOF ends waiting for SOF and yields (cmd, payload) exactly when the CRC byte matches |
| Frames.WireRoundTrip | src/viewmodel/WebSocketViewModel.cpp:233-252 | the bytes `sendFrame` writes decode to exactly that one frame, leaving the decoder waiting for SOF |
| Frames.CorruptedPayloadIsDropped | src/viewmodel/WebSocketViewModel.cpp:95-111 | a frame with one corrupted payload byte is dropped and the decoder returns to waiting for SOF |
| Frames.CorruptedCrcIsDropped | src/viewmodel/WebSocketViewModel.cpp:95-111 | a wrong CRC byte drops the frame and the decoder returns to waiting for SOF |
| Frames.CorruptedCommandIsAccepted | src/viewmodel/WebSocketViewModel.cpp:95-103 | the CRC covers only the payload, so a frame with a corrupted command byte is accepted under that command |
| Frames.EmptyFrame | src/viewmodel/WebSocketViewModel.cpp:81-86 | a zero-length frame is delivered, with an empty payload, exactly when its CRC byte is 0 |
| Frames.RepeatedSofIsNotSkipped | src/viewmodel/WebSocketViewModel.cpp:72-80 | a stray SOF before a valid heartbeat frame makes the decoder take the second SOF as the command and lose the frame |
| Frames.FrameDecoder.constructor | src/viewmodel/WebSocketViewModel.h:58-62 | a new decoder waits for SOF with an empty buffer |
| Frames.FrameDecoder.Restart | src/viewmodel/WebSocketViewModel.cpp:47-51 | only the state goes back to waiting for SOF |
| Frames.FrameDecoder.Clear | src/viewmodel/WebSocketViewModel.cpp:53-58 | the state goes back to waiting for SOF and the buffer is emptied; nothing else changes |
| Frames.FrameDecoder.Step | src/viewmodel/WebSocketViewModel.cpp:71-111 | the in-place update of the five decoder fields is exactly `Next` |
| Frames.FrameDecoder.Feed | src/viewmodel/WebSocketViewModel.cpp:70-113 | the loop over a chunk is exactly `Run`: the same final fields and the same frames, in order |
| Sensor.BigEndianToInt16 | src/viewmodel/SensorViewModel.cpp:11-13 | the two's-complement reading of the 16-bit word: in the int16 range, congruent to `high*256+low` modulo 65536, negative exactly when the high bit is set |
| Sensor.Int16RoundTrip | src/viewmodel/SensorViewModel.cpp:11-13 | decoding inverts the big-endian encoding of every int16 value |
| Sensor.BigEndianToInt16Injective | src/viewmodel/SensorViewModel.cpp:11-13 | distinct byte pairs decode to distinct values |
| Sensor.ParseFromPayload | src/viewmodel/SensorViewModel.cpp:15-41 | the layout `[airHum, tempHi, tempLo, soilHum, lightHi, lightLo]`: humidities are the raw bytes 0 and 3 (not clamped), temperature and light the big-endian int16 of bytes 1-2 and 4-5; the record time is the receiver's clock and the id is 0 |
| Sensor.SensorPayloadRoundTrip | src/viewmodel/SensorViewModel.cpp:15-32 | parsing inverts the device's payload encoding both ways: an encoded record comes back with its four measurements, and every six-byte payload is the encoding of its parsed record |
| Sensor.ParseFromPayloadInjective | src/viewmodel/SensorViewModel.cpp:15-32 | distinct payloads give distinct records: no payload information is lost |
| Sensor.ParseExample | src/viewmodel/SensorViewModel.cpp:15-32 | `[50,0xFF,0xEC,60,0x01,0x90]` gives temperature -20, light 400, air 50, soil 60, and fails validation |
| Sensor.IsValidTemperature | src/viewmodel/SensorViewModel.cpp:69-71 | a temperature is valid exactly in the inclusive range -20..60 |
| Sensor.IsValidHumidity | src/viewmodel/SensorViewModel.cpp:73-75 | a humidity is valid exactly in the inclusive range 0..100 |
| Sensor.IsValidLightIntensity | src/viewmodel/SensorViewModel.cpp:77-79 | a light reading is valid exactly in the inclusive range 0..100 |
| Sensor.ValidateSensorData | src/viewmodel/SensorViewModel.cpp:47-67 | all four inclusive range checks hold: temperature, air humidity, soil humidity (both against the humidity range) and light |
| Sensor.DecodedRecordValidity | src/viewmodel/SensorViewModel.cpp:47-79 | a decoded record passes validation exactly when the humidity bytes are at most 100, the temperature word is in -20..60 and the light word is in 0..100 |
| Sensor.TemperatureLevel | src/viewmodel/SensorViewModel.cpp:101-107 | exactly one of five bands: below 15, 15..19, 20..28, 29..35, above 35 |
| Sensor.HumidityLevel | src/viewmodel/SensorViewModel.cpp:109-115 | exactly one of five bands: below 30, 30..39, 40..70, 71..80, above 80 |
| Sensor.LightLevel | src/viewmodel/SensorViewModel.cpp:117-123 | exactly one of five bands: below 100, 100..299, 300..1000, 1001..3000, above 3000 |
| Sensor.LevelsAreMonotone | src/viewmodel/SensorViewModel.cpp:101-123 | a larger reading never gets a lower band, for all three classifiers |
| Sensor.NatStringRoundTrip | src/viewmodel/SensorViewModel.cpp:85-95 | the digits of a natural number are decimal digits, have no leading zero and read back as the number |
| Sensor.DecimalRoundTrip | src/viewmodel/SensorViewModel.cpp:85-95 | the decimal text of any integer is a canonical numeral (a '-' exactly for negatives, digits without a leading zero, no "-0") and reads back as that integer |
| Sensor.DigitsCanonical | src/viewmodel/SensorViewModel.cpp:85-95 | canonical digits are exactly the decimal digits of their value |
| Sensor.NumeralCanonical | src/viewmodel/SensorViewModel.cpp:85-95 | every canonical numeral is the decimal text of its value, so an integer has only one |
| Sensor.FormatTemperature | src/viewmodel/SensorViewModel.cpp:85-87 | the text is a canonical decimal numeral of the temperature (with '-' exactly when negative) followed by "°C" |
| Sensor.FormatHumidity | src/viewmodel/SensorViewModel.cpp:89-91 | the text is a canonical decimal numeral of the humidity (with '-' exactly when negative) followed by "%" |
| Sensor.FormatLightIntensity | src/viewmodel/SensorViewModel.cpp:93-95 | the text is a canonical decimal numeral of the light reading (with '-' exactly when negative) followed by " Lux" |
| Sensor.FormatRoundTrip | src/viewmodel/SensorViewModel.cpp:85-95 | the display strings are unique: any canonical numeral that reads back as the reading, followed by "°C", "%" or " Lux", is exactly the formatter's text |
| Payload.ThresholdEncodeDecode | src/viewmodel/WebSocketViewModel.cpp:214-225 | decoding the threshold bytes that `sendThreshold` writes gives a fixed permutation, equal to the input only in a degenerate case |
| Payload.TimeWeatherFields | src/viewmodel/WebSocketViewModel.cpp:171-183 | hour, minute and weather code are bytes 0..2; the current temperature is the signed word of bytes 3..4; low and high are bytes 5 and 6; byte 7 is ignored |
| WebSocket.ProcessFrame | src/viewmodel/WebSocketViewModel.cpp:140-231 | an event exactly on an exact length match (sensor 6, motor state 5, time-weather 8, heartbeat 1, threshold 6), of the frame's command; acknowledgements and unknown commands give none |
| WebSocket.ProcessFrameContents | src/viewmodel/WebSocketViewModel.cpp:140-231 | each event's contents come from the payload bytes: the sensor record is the parse of the payload (whose encoding is the payload), the motor state is bytes 0-4 in field order, the time-weather report bytes 0-6 with a big-endian temperature, the threshold report bytes 0-5 |
| WebSocket.Events | src/viewmodel/WebSocketViewModel.cpp:103 | at most one event per accepted frame |
| WebSocket.EventsAppend | src/viewmodel/WebSocketViewModel.cpp:103 | the events of two frame runs are the concatenation of their events |
| WebSocket.MessagesConcatenate | src/viewmodel/WebSocketViewModel.cpp:66-114 | splitting a byte stream into two messages changes neither the events nor their order |
| WebSocket.SensorFrameDelivered | src/viewmodel/WebSocketViewModel.cpp:144-150 | a sensor frame as sent yields exactly one decoded sensor record |
| WebSocket.ControlAckIsOnlyLogged | src/viewmodel/WebSocketViewModel.cpp:186-204 | an acknowledgement frame is accepted by the decoder but yields no event |
| WebSocket.ThresholdLoopback | src/viewmodel/WebSocketViewModel.cpp:260-265 | thresholds sent and then received through a decoder arrive permuted |
| WebSocket.WebSocketViewModel.constructor | src/viewmodel/WebSocketViewModel.cpp:8-19 | a fresh decoder and a disconnected socket |
| WebSocket.WebSocketViewModel.OnConnected | src/viewmodel/WebSocketViewModel.cpp:47-51 | connected, and the decoder waits for SOF |
| WebSocket.WebSocketViewModel.OnDisconnected | src/viewmodel/WebSocketViewModel.cpp:53-58 | disconnected, and the decoder waits for SOF with its buffer emptied |
| WebSocket.WebSocketViewModel.OnBinaryMessageReceived | src/viewmodel/WebSocketViewModel.cpp:66-114 | the decoder state after the message is `Run`'s, and the events are those of the accepted frames, in order |
| WebSocket.WebSocketViewModel.OnTextMessageReceived | src/viewmodel/WebSocketViewModel.cpp:60-64 | a text message's UTF-8 bytes are decoded exactly as a binary message with those bytes |
| WebSocket.WebSocketViewModel.SendFrame | src/viewmodel/WebSocketViewModel.cpp:233-252 | writes SOF, command, length, payload and the payload's CRC when connected, and nothing otherwise |
| WebSocket.WebSocketViewModel.SendMotorControl | src/viewmodel/WebSocketViewModel.cpp:254-258 | a 0x03 frame carrying `[fan, speed, pump, lamp]` |
| WebSocket.WebSocketViewModel.SendThreshold | src/viewmodel/WebSocketViewModel.cpp:260-265 | a 0x04 frame carrying `[fanOn, fanOff, pumpOn, pumpOff, lampOn, lampOff]` |
| WebSocket.WebSocketViewModel.SendDataCollectControl | src/viewmodel/WebSocketViewModel.cpp:267-270 | a 0x07 frame carrying the one-byte flag |
| WebSocket.WebSocketViewModel.SendAutoModeControl | src/viewmodel/WebSocketViewModel.cpp:272-275 | a 0x08 frame carrying the one-byte flag |
| WebSocket.WebSocketViewModel.SendGetData | src/viewmodel/WebSocketViewModel.cpp:277-280 | a 0x10 frame carrying the one-byte flag |
| Serial.ProcessFrame | src/viewmodel/SerialViewModel.cpp:72-151 | an event exactly for sensor 6, motor state 5, time-weather 8 and heartbeat 1 bytes; threshold reports give none |
| Serial.Events | src/viewmodel/SerialViewModel.cpp:57 | at most one event per accepted frame |
| Serial.ProcessFrameMatchesWebSocket | src/viewmodel/SerialViewModel.cpp:72-151 | the serial dispatcher equals the socket one on every frame except threshold reports |
| Serial.WithoutThresholds | src/viewmodel/SerialViewModel.cpp:72-151 | removing threshold events never lengthens a sequence |
| Serial.EventsMatchWebSocket | src/viewmodel/SerialViewModel.cpp:72-151 | on the same frames, the serial link delivers the socket link's events in the same order, minus threshold reports |
| Serial.WithoutThresholdsAppend | src/viewmodel/SerialViewModel.cpp:72-151 | removing threshold events distributes over concatenation |
| Serial.StopDiscardsPartialFrame | src/viewmodel/SerialViewModel.cpp:16-19 | after a stop, whatever partial frame was held, the next complete frame is delivered intact |
| Serial.SerialViewModel.constructor | src/viewmodel/SerialViewModel.cpp:5-8 | a fresh decoder on the given port |
| Serial.SerialViewModel.StartListening | src/viewmodel/SerialViewModel.cpp:12-14 | the decoder waits for SOF |
| Serial.SerialViewModel.StopListening | src/viewmodel/SerialViewModel.cpp:16-19 | the decoder waits for SOF with its buffer emptied |
| Serial.SerialViewModel.OnSerialReadyRead | src/viewmodel/SerialViewModel.cpp:21-69 | the decoder state after the data is `Run`'s, and the events are those of the accepted frames, in order |
| Serial.SerialViewModel.SendFrame | src/viewmodel/SerialViewModel.cpp:154-169 | the five writes give SOF, command, length, payload and CRC when the port is open, and nothing otherwise |
| Serial.SerialViewModel.SendMotorControl | src/viewmodel/SerialViewModel.cpp:172-178 | a 0x03 frame carrying `[fan, speed, pump, lamp]` |
| Serial.SerialViewModel.SendThreshold | src/viewmodel/SerialViewModel.cpp:181-187 | a 0x04 frame carrying the six threshold bytes in send order |
| Serial.SerialViewModel.SendDataCollectControl | src/viewmodel/SerialViewModel.cpp:190-194 | a 0x07 frame carrying the one-byte flag |
| Serial.SerialViewModel.SendAutoModeControl | src/viewmodel/SerialViewModel.cpp:197-201 | a 0x08 frame carrying the one-byte flag |
| Control.IsValidFanSpeed | src/viewmodel/ControlViewModel.cpp:202-204 | a fan speed is valid exactly when it is at most 100 |
| Control.IsValidThreshold | src/viewmodel/ControlViewModel.cpp:206-209 | an on threshold is valid exactly when it lies strictly above its off threshold |
| Control.BuildMotorControlPayload | src/viewmodel/ControlViewModel.cpp:22-46 | empty exactly when a status is above 1 or the speed is above 100; otherwise `[fan, speed, pump, lamp]` |
| Control.BuildThresholdPayload | src/viewmodel/ControlViewModel.cpp:48-81 | empty exactly when some on value is not above its off value; otherwise the six bytes in send order |
| Control.AcceptedThresholdsComeBackPermuted | src/viewmodel/ControlViewModel.cpp:48-81 | no accepted threshold setting decodes back to itself |
| Control.BuildDataCollectPayload | src/viewmodel/ControlViewModel.cpp:83-90 | one byte, 1 when enabled and 0 otherwise |
| Control.BuildAutoModePayload | src/viewmodel/ControlViewModel.cpp:92-99 | one byte, 1 when enabled and 0 otherwise |
| Control.UpdateSignalsExact | src/viewmodel/ControlViewModel.cpp:105-141 | the whole state is always announced first, and each per-field signal is emitted exactly when that field changed |
| Control.ToggleStatus | src/viewmodel/ControlViewModel.cpp:143-151 | the toggled status is 0 or 1, and 1 exactly when it was 0 |
| Control.ToggleTwice | src/viewmodel/ControlViewModel.cpp:143-181 | two toggles restore a status exactly when it was 0 or 1 |
| Control.ControlViewModel.constructor | src/viewmodel/ControlViewModel.cpp:4-14 | every state field is 0 |
| Control.ControlViewModel.UpdateState | src/viewmodel/ControlViewModel.cpp:105-141 | the state becomes the report, with the change signals of `UpdateSignals` |
| Control.ControlViewModel.ToggleFan | src/viewmodel/ControlViewModel.cpp:143-151 | only the fan status toggles; the result says whether the fan was off |
| Control.ControlViewModel.TogglePump | src/viewmodel/ControlViewModel.cpp:153-161 | only the pump status toggles; the result says whether the pump was off |
| Control.ControlViewModel.ToggleLamp | src/viewmodel/ControlViewModel.cpp:163-171 | only the lamp status toggles; the result says whether the lamp was off |
| Control.ControlViewModel.ToggleAutoMode | src/viewmodel/ControlViewModel.cpp:173-181 | only the auto-mode byte toggles; the result says whether it was manual |
| Control.ControlViewModel.SetFanSpeed | src/viewmodel/ControlViewModel.cpp:183-196 | above 100 it refuses and changes nothing; otherwise only the fan speed changes |
| Chart.Limited | src/viewmodel/ChartViewModel.cpp:195-202 | trimming never lengthens the store |
| Chart.LimitedIsNewestSuffix | src/viewmodel/ChartViewModel.cpp:195-202 | trimming keeps a suffix of size min(size, max) and changes nothing without a positive maximum or below it |
| Chart.LimitedIdempotent | src/viewmodel/ChartViewModel.cpp:195-202 | trimming twice is trimming once |
| Chart.AddDataKeepsNewest | src/viewmodel/ChartViewModel.cpp:22-24 | with a positive maximum the new size is min(old + 1, max), the new record is last, and the rest is the newest part of the old store |
| Chart.RangeUnique | src/viewmodel/ChartViewModel.cpp:232-247 | the reported range is determined by the store: the minimum and maximum |
| Chart.ChartViewModel.constructor | src/viewmodel/ChartViewModel.h:176-177 | an empty store with no maximum (-1) |
| Chart.ChartViewModel.LimitDataCount | src/viewmodel/ChartViewModel.cpp:195-202 | the store becomes its trimmed version |
| Chart.ChartViewModel.AddData | src/viewmodel/ChartViewModel.cpp:22-31 | the store becomes the trimmed old store plus the record |
| Chart.ChartViewModel.SetMaxDataCount | src/viewmodel/ChartViewModel.cpp:184-189 | the maximum is stored and the store trimmed at once |
| Chart.ChartViewModel.ClearAllData | src/viewmodel/ChartViewModel.cpp:33-40 | the store is empty |
| Chart.ChartViewModel.GetLatestData | src/viewmodel/ChartViewModel.cpp:58-71 | the whole store when the count reaches its size, otherwise the newest max(count, 0) records in order |
| Chart.ChartViewModel.CalculateRange | src/viewmodel/ChartViewModel.cpp:232-247 | (0, 0) on an empty store; otherwise bounds of the field over all records, each attained |
| Chart.ChartViewModel.GetTemperatureRange | src/viewmodel/ChartViewModel.cpp:97-99 | the range of the air temperatures |
| Chart.ChartViewModel.GetAirHumidityRange | src/viewmodel/ChartViewModel.cpp:101-103 | the range of the air humidities |
| Chart.ChartViewModel.GetSoilHumidityRange | src/viewmodel/ChartViewModel.cpp:105-107 | the range of the soil humidities |
| Chart.ChartViewModel.GetLightIntensityRange | src/viewmodel/ChartViewModel.cpp:109-111 | the range of the light intensities |
| Thresholds.ValidateThreshold | src/untils/ThresholdManager.cpp:14-26 | valid exactly when min <= low < high <= max; a range failure is reported before an ordering failure |
| Thresholds.DeviceBytes | src/untils/ThresholdManager.cpp:84-91 | six bytes are sent |
| Thresholds.DefaultsSent | src/untils/ThresholdManager.h:19-28 | the defaults pass validation, and the default light pair 800/300 is sent as 32/44 |
| Thresholds.TruncationOnlyHitsLight | src/untils/ThresholdManager.cpp:76-94 | for valid settings, temperature and soil reach the device intact, and a light value does exactly when it is below 256 |
| Thresholds.ThresholdManager.constructor | src/untils/ThresholdManager.cpp:4-8 | the default thresholds and no serial transport |
| Thresholds.ThresholdManager.SetSerialViewModel | src/untils/ThresholdManager.cpp:10-12 | only the transport changes |
| Thresholds.ThresholdManager.SetTemperatureThreshold | src/untils/ThresholdManager.cpp:28-38 | valid in [0, 50]: only the temperature pair changes and `thresholdsChanged` is emitted; invalid: nothing changes and nothing is emitted; well-formed settings stay well formed |
| Thresholds.ThresholdManager.SetAirHumidityThreshold | src/untils/ThresholdManager.cpp:40-50 | valid in [0, 100]: only the air humidity pair changes and `thresholdsChanged` is emitted; invalid: nothing changes and nothing is emitted |
| Thresholds.ThresholdManager.SetLightIntensityThreshold | src/untils/ThresholdManager.cpp:52-62 | valid in [0, 2000]: only the light pair changes and `thresholdsChanged` is emitted; invalid: nothing changes and nothing is emitted |
| Thresholds.ThresholdManager.SetSoilMoistureThreshold | src/untils/ThresholdManager.cpp:64-74 | valid in [0, 100]: only the soil pair changes and `thresholdsChanged` is emitted; invalid: nothing changes and nothing is emitted |
| Thresholds.ThresholdManager.SendThresholdsToDevice | src/untils/ThresholdManager.cpp:76-94 | a threshold frame of the truncated temperature, soil and light pairs, and nothing without an attached, open transport |
| Devices.Toggle | src/untils/DeviceController.cpp:18-55 | a toggle never changes the lock |
| Devices.ToggleFlipsOnlyTarget | src/untils/DeviceController.cpp:18-55 | a toggle flips exactly the targeted device, and only in manual mode; two toggles restore the state |
| Devices.CommandPayload | src/untils/DeviceController.cpp:97-109 | four bytes are sent |
| Devices.CommandPayloadIsValid | src/untils/DeviceController.cpp:97-109 | every command sent passes the motor-control validation, and the fan speed is 100 exactly when the fan is on |
| Devices.SyncAnnouncesExactlyChanges | src/untils/DeviceController.cpp:69-95 | a change is announced exactly for each flag that differed; a repeated report changes and announces nothing |
| Devices.DeviceController.constructor | src/untils/DeviceController.cpp:4-12 | everything off, manual mode (locked), no transport |
| Devices.DeviceController.SetSerialViewModel | src/untils/DeviceController.cpp:14-16 | only the transport changes |
| Devices.DeviceController.SendControlCommand | src/untils/DeviceController.cpp:97-109 | a motor-control frame of the current flags, and nothing without an attached, open transport |
| Devices.DeviceController.ToggleFan | src/untils/DeviceController.cpp:18-29 | in auto mode nothing changes and nothing is sent; otherwise only the fan flag flips, and the command and the signal follow |
| Devices.DeviceController.ToggleLight | src/untils/DeviceController.cpp:31-42 | in auto mode nothing changes and nothing is sent; otherwise only the light flag flips, and the command and the signal follow |
| Devices.DeviceController.TogglePump | src/untils/DeviceController.cpp:44-55 | in auto mode nothing changes and nothing is sent; otherwise only the pump flag flips, and the command and the signal follow |
| Devices.DeviceController.SetAutoMode | src/untils/DeviceController.cpp:57-67 | the lock becomes the opposite of the request, so the mode is the one requested; the mode command is sent when a transport is attached |
| Devices.DeviceController.UpdateDeviceState | src/untils/DeviceController.cpp:69-95 | each flag becomes `status == 1`, in either mode, with a signal only for the flags that changed |

## Left out

- Qt widgets and UI (main window, pages, login, toasts): layout and presentation only.
- `src/untils/ChartManager.cpp`: chart series and axes; its trimming is a weaker copy of the chart store's.
- Persistence (database, person records) and settings: wrappers over libraries and files that are not part of this model.
- Transport lifecycle: `connectToServer`, `disconnectFromServer`, `isConnected`, `onError` and the serial connection manager. They open sockets and ports. The model keeps only the connected or open state.
- `onTextMessageReceived`: the text enters the decoder as its UTF-8 bytes, through the binary path. The conversion of the `QString` to UTF-8 is not modelled: the method takes the bytes.
- The connected and disconnected notification signals of the socket transport, and the chart store's `dataAdded`, `dataCleared` and `statisticsUpdated` signals: they carry no logic.
- `calculateAverage` and `getAverage*`: floating point.
- `getDataInRange`: date-string parsing.
- `exportToCSV` and `exportToJSON`: file I/O.
- Logging (`qDebug`, `qWarning`) is dropped, together with the `validationError` text, which is modelled by the `Validation` result.
- The wall clock in `parseFromPayload` is the `now` parameter. One reading stands for all records of one received chunk.
- `Frames.Resized`: new buffer bytes are modelled as 0. Their value is never observable, because each byte is written before the CRC check reads it.
- `Model.Threshold`: modelled with byte fields, as the decoder fills them. The record's declaration (`model/UserSetting.h`) is not part of this model, and the sign extension a `char` field may undergo is not modelled.
- Chart.ChartViewModel.GetLatestData: does not model the C++ `int` overflow of `size() - count` (src/viewmodel/ChartViewModel.cpp:64) for counts near `INT_MIN`; the model returns no records for every negative count.
- Serial.SerialViewModel: the port's open state is fixed when the view model is built (a missing port counts as closed). Opening and closing the port belong to the serial connection manager, which is not part of this model.
- The WebSocket and serial decoders are one `FrameDecoder` class. Their per-byte code and their `calcCRC` are the same.

