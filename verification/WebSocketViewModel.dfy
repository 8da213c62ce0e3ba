/** The socket transport (`WebSocketViewModel`): connection resets, the
    decoder fed with each binary message, the dispatcher and the senders. */
module WebSocket {
  import opened Protocol
  import opened Model
  import opened Crc
  import opened Frames
  import opened Payload
  import Sensor

  /** The command whose frames produce events of this kind. */
  function EventCommand(e: Event): Byte {
    match e
    case SensorDataReceived(_) => CMD_SENSOR
    case ActuatorStateReceived(_) => CMD_MOTOR_STATE
    case TimeWeatherReceived(_) => CMD_TIME_WEATHER
    case HeartBeatReceived => CMD_HEART_BEAT
    case ThresholdReceived(_) => CMD_THRESHOLD
  }

  /** `processFrame`: at most one event, and only when the payload has
      exactly the length its command requires. Control acknowledgements are
      only logged; unknown commands are dropped. */
  function ProcessFrame(f: Frame, now: string): (r: Option<Event>)
    ensures r.Some? <==>
      || (f.cmd == CMD_SENSOR && |f.payload| == 6)
      || (f.cmd == CMD_MOTOR_STATE && |f.payload| == 5)
      || (f.cmd == CMD_TIME_WEATHER && |f.payload| == 8)
      || (f.cmd == CMD_HEART_BEAT && |f.payload| == 1)
      || (f.cmd == CMD_THRESHOLD && |f.payload| == 6)
    ensures r.Some? ==> EventCommand(r.value) == f.cmd
  {
    var p := f.payload;
    if f.cmd == CMD_SENSOR then
      if |p| == 6 then Some(SensorDataReceived(Sensor.ParseFromPayload(p, now))) else None
    else if f.cmd == CMD_MOTOR_STATE then
      if |p| == 5 then Some(ActuatorStateReceived(DecodeActuatorState(p))) else None
    else if f.cmd == CMD_TIME_WEATHER then
      if |p| == 8 then Some(TimeWeatherReceived(DecodeTimeWeather(p))) else None
    else if f.cmd == CMD_CTRL_ACK then
      None
    else if f.cmd == CMD_HEART_BEAT then
      if |p| == 1 then Some(HeartBeatReceived) else None
    else if f.cmd == CMD_THRESHOLD then
      if |p| == 6 then Some(ThresholdReceived(DecodeThreshold(p))) else None
    else
      None
  }

  /** What each event carries, byte by byte: a sensor record is the parse
      of the payload (and the payload is that record's encoding), a motor
      state is `[fanStatus, fanSpeed, pumpStatus, lampStatus, autoMode]`, a
      time-weather report takes bytes 0 to 6 and a threshold report bytes
      0 to 5 in the device's order. */
  lemma ProcessFrameContents(f: Frame, now: string)
    ensures var p := f.payload; var e := ProcessFrame(f, now);
      && (e.Some? && e.value.SensorDataReceived? ==>
            |p| == 6 && e.value.record == Sensor.ParseFromPayload(p, now)
            && Sensor.SensorPayload(e.value.record) == p)
      && (e.Some? && e.value.ActuatorStateReceived? ==>
            |p| == 5 && e.value.state == ActuatorStateData(p[0], p[1], p[2], p[3], p[4]))
      && (e.Some? && e.value.TimeWeatherReceived? ==>
            && |p| == 8 && e.value.weather.hour == p[0] && e.value.weather.minute == p[1]
            && e.value.weather.weatherCode == p[2]
            && e.value.weather.tempNow == Sensor.BigEndianToInt16(p[3], p[4])
            && e.value.weather.tempLow == p[5] && e.value.weather.tempHigh == p[6])
      && (e.Some? && e.value.ThresholdReceived? ==>
            |p| == 6 && e.value.threshold == Threshold(p[0], p[1], p[2], p[3], p[4], p[5]))
  {
    if f.cmd == CMD_SENSOR && |f.payload| == 6 {
      Sensor.SensorPayloadRoundTrip(Sensor.ParseFromPayload(f.payload, now), f.payload, now);
    }
  }

  function EventList(e: Option<Event>): seq<Event> {
    if e.Some? then [e.value] else []
  }

  /** The events of a sequence of accepted frames, in frame order. */
  function Events(frames: seq<Frame>, now: string): (r: seq<Event>)
    ensures |r| <= |frames|
  {
    if frames == [] then [] else EventList(ProcessFrame(frames[0], now)) + Events(frames[1..], now)
  }

  lemma {:induction false} EventsAppend(a: seq<Frame>, b: seq<Frame>, now: string)
    ensures Events(a + b, now) == Events(a, now) + Events(b, now)
  {
    if a != [] {
      assert (a + b)[1..] == a[1..] + b;
      EventsAppend(a[1..], b, now);
    } else {
      assert a + b == b;
    }
  }

  /** Splitting a message stream into two messages changes neither the
      events nor their order. */
  lemma MessagesConcatenate(p: Parser, a: seq<Byte>, b: seq<Byte>, now: string)
    requires Inv(p)
    ensures Events(Run(p, a + b).frames, now) ==
            Events(Run(p, a).frames, now) + Events(Run(Run(p, a).parser, b).frames, now)
  {
    RunAppend(p, a, b);
    EventsAppend(Run(p, a).frames, Run(Run(p, a).parser, b).frames, now);
  }

  /** A sensor frame as the device sends it yields one decoded record. */
  lemma SensorFrameDelivered(p: Parser, payload: seq<Byte>, now: string)
    requires Inv(p) && p.phase == WaitSof && |payload| == 6
    ensures Events(Run(p, Wire(CMD_SENSOR, payload)).frames, now) ==
            [SensorDataReceived(Sensor.ParseFromPayload(payload, now))]
  {
    WireRoundTrip(p, CMD_SENSOR, payload);
  }

  /** The acknowledgement of a motor-control command is accepted by the
      decoder but only logged: no event reaches the application. */
  lemma ControlAckIsOnlyLogged(p: Parser, original: Byte, result: Byte, now: string)
    requires Inv(p) && p.phase == WaitSof
    ensures Run(p, Wire(CMD_CTRL_ACK, [original, result])).frames == [Frame(CMD_CTRL_ACK, [original, result])]
    ensures Events(Run(p, Wire(CMD_CTRL_ACK, [original, result])).frames, now) == []
  {
    WireRoundTrip(p, CMD_CTRL_ACK, [original, result]);
  }

  /** Thresholds sent by `sendThreshold` and received back through a
      decoder arrive permuted. */
  lemma ThresholdLoopback(p: Parser, fanOn: Byte, fanOff: Byte, pumpOn: Byte, pumpOff: Byte,
                          lampOn: Byte, lampOff: Byte, now: string)
    requires Inv(p) && p.phase == WaitSof
    ensures Events(Run(p, Wire(CMD_THRESHOLD, ThresholdPayload(fanOn, fanOff, pumpOn, pumpOff, lampOn, lampOff))).frames, now) ==
            [ThresholdReceived(Threshold(fanOff := fanOn, fanOn := fanOff, lampOff := pumpOn,
                                         lampOn := pumpOff, pumpOff := lampOn, pumpOn := lampOff))]
  {
    WireRoundTrip(p, CMD_THRESHOLD, ThresholdPayload(fanOn, fanOff, pumpOn, pumpOff, lampOn, lampOff));
  }

  class WebSocketViewModel {
    const decoder: FrameDecoder
    /** Whether the socket is in the connected state (`isConnected()`). */
    var connected: bool

    predicate Valid()
      reads this, decoder
    {
      decoder.Valid()
    }

    constructor ()
      ensures Valid() && fresh(decoder) && decoder.State() == Initial && !connected
    {
      decoder := new FrameDecoder();
      connected := false;
    }

    /** `onConnected`: the decoder goes back to waiting for SOF. */
    method OnConnected()
      requires Valid()
      modifies this, decoder
      ensures Valid() && connected
      ensures decoder.State() == old(decoder.State()).(phase := WaitSof)
    {
      decoder.Restart();
      connected := true;
    }

    /** `onDisconnected`: back to waiting for SOF with the buffer emptied. */
    method OnDisconnected()
      requires Valid()
      modifies this, decoder
      ensures Valid() && !connected
      ensures decoder.State() == old(decoder.State()).(phase := WaitSof, buffer := [])
    {
      decoder.Clear();
      connected := false;
    }

    /** `onBinaryMessageReceived`: every byte goes through the decoder and
      every accepted frame through `processFrame`; `now` is the clock
      reading stamped on the sensor records of this message. */
    method OnBinaryMessageReceived(message: seq<Byte>, now: string) returns (events: seq<Event>)
      requires Valid()
      modifies decoder
      ensures Valid()
      ensures decoder.State() == Run(old(decoder.State()), message).parser
      ensures events == Events(Run(old(decoder.State()), message).frames, now)
    {
      var frames := decoder.Feed(message);
      events := Events(frames, now);
    }

    /** `onTextMessageReceived`: a text message is decoded as its UTF-8
        bytes `utf8`, exactly like a binary message with those bytes. */
    method OnTextMessageReceived(utf8: seq<Byte>, now: string) returns (events: seq<Event>)
      requires Valid()
      modifies decoder
      ensures Valid()
      ensures decoder.State() == Run(old(decoder.State()), utf8).parser
      ensures events == Events(Run(old(decoder.State()), utf8).frames, now)
    {
      events := OnBinaryMessageReceived(utf8, now);
    }

    /** `sendFrame`: the bytes written to the socket; nothing when not connected. */
    method SendFrame(cmd: Byte, payload: seq<Byte>) returns (wire: seq<Byte>)
      requires |payload| <= 255
      ensures wire == if connected then Wire(cmd, payload) else []
      ensures connected ==> |wire| == |payload| + 4 && wire[0] == SOF && wire[1] == cmd
      ensures connected ==> wire[2] == |payload| && wire[3..|wire| - 1] == payload
    {
      if !connected {
        return [];
      }
      var crc := CalcCrc(payload);
      wire := [SOF, cmd, |payload|] + payload + [crc];
    }

    method SendMotorControl(fanStatus: Byte, fanSpeed: Byte, pumpStatus: Byte, lampStatus: Byte)
      returns (wire: seq<Byte>)
      ensures wire == if connected then Wire(CMD_MOTOR_CTRL, MotorControlPayload(fanStatus, fanSpeed, pumpStatus, lampStatus)) else []
    {
      wire := SendFrame(CMD_MOTOR_CTRL, [fanStatus, fanSpeed, pumpStatus, lampStatus]);
    }

    method SendThreshold(fanOn: Byte, fanOff: Byte, pumpOn: Byte, pumpOff: Byte, lampOn: Byte, lampOff: Byte)
      returns (wire: seq<Byte>)
      ensures wire == if connected then Wire(CMD_THRESHOLD, ThresholdPayload(fanOn, fanOff, pumpOn, pumpOff, lampOn, lampOff)) else []
    {
      wire := SendFrame(CMD_THRESHOLD, [fanOn, fanOff, pumpOn, pumpOff, lampOn, lampOff]);
    }

    method SendDataCollectControl(enable: bool) returns (wire: seq<Byte>)
      ensures wire == if connected then Wire(CMD_DATA_CTRL, [FlagByte(enable)]) else []
    {
      wire := SendFrame(CMD_DATA_CTRL, [if enable then 1 else 0]);
    }

    method SendAutoModeControl(enable: bool) returns (wire: seq<Byte>)
      ensures wire == if connected then Wire(CMD_AUTO_MODE, [FlagByte(enable)]) else []
    {
      wire := SendFrame(CMD_AUTO_MODE, [if enable then 1 else 0]);
    }

    method SendGetData(enable: bool) returns (wire: seq<Byte>)
      ensures wire == if connected then Wire(CMD_GET_DATA, [FlagByte(enable)]) else []
    {
      wire := SendFrame(CMD_GET_DATA, [if enable then 1 else 0]);
    }
  }
}
