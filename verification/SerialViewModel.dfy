/** The serial transport (`SerialViewModel`): the same decoder as the socket
    transport, a dispatcher without the threshold case, and the senders. */
module Serial {
  import opened Protocol
  import opened Model
  import opened Crc
  import opened Frames
  import opened Payload
  import Sensor
  import WebSocket

  /** `processFrame` of the serial copy: the socket copy's length checks and
      decoders, but no case for threshold reports. The heartbeat event is
      emitted as in the socket copy. */
  function ProcessFrame(f: Frame, now: string): (r: Option<Event>)
    ensures r.Some? <==>
      || (f.cmd == CMD_SENSOR && |f.payload| == 6)
      || (f.cmd == CMD_MOTOR_STATE && |f.payload| == 5)
      || (f.cmd == CMD_TIME_WEATHER && |f.payload| == 8)
      || (f.cmd == CMD_HEART_BEAT && |f.payload| == 1)
    ensures r.Some? ==> WebSocket.EventCommand(r.value) == f.cmd
  {
    var p := f.payload;
    if f.cmd == CMD_SENSOR then
      if |p| == 6 then Some(SensorDataReceived(Sensor.ParseFromPayload(p, now))) else None
    else if f.cmd == CMD_MOTOR_STATE then
      if |p| == 5 then Some(ActuatorStateReceived(DecodeActuatorState(p))) else None
    else if f.cmd == CMD_TIME_WEATHER then
      if |p| == 8 then Some(TimeWeatherReceived(DecodeTimeWeather(p))) else None
    else if f.cmd == CMD_CTRL_ACK then
      None
    else if f.cmd == CMD_HEART_BEAT then
      if |p| == 1 then Some(HeartBeatReceived) else None
    else
      None
  }

  /** The events of a sequence of accepted frames, in frame order. */
  function Events(frames: seq<Frame>, now: string): (r: seq<Event>)
    ensures |r| <= |frames|
  {
    if frames == [] then [] else WebSocket.EventList(ProcessFrame(frames[0], now)) + Events(frames[1..], now)
  }

  /** The two dispatchers agree on every frame except threshold reports,
      which the serial copy drops. */
  lemma ProcessFrameMatchesWebSocket(f: Frame, now: string)
    ensures ProcessFrame(f, now) ==
            if f.cmd == CMD_THRESHOLD then None else WebSocket.ProcessFrame(f, now)
  {
  }

  /** Socket events with the threshold reports removed. */
  function WithoutThresholds(events: seq<Event>): (r: seq<Event>)
    ensures |r| <= |events|
  {
    if events == [] then []
    else (if events[0].ThresholdReceived? then [] else [events[0]]) + WithoutThresholds(events[1..])
  }

  /** On the same accepted frames, the serial link delivers exactly the
      socket link's events, in the same order, minus threshold reports. */
  lemma {:induction false} EventsMatchWebSocket(frames: seq<Frame>, now: string)
    ensures Events(frames, now) == WithoutThresholds(WebSocket.Events(frames, now))
  {
    if frames != [] {
      EventsMatchWebSocket(frames[1..], now);
      var head := WebSocket.EventList(WebSocket.ProcessFrame(frames[0], now));
      var tail := WebSocket.Events(frames[1..], now);
      assert WebSocket.Events(frames, now) == head + tail;
      WithoutThresholdsAppend(head, tail);
      HeadWithoutThresholds(frames[0], now);
    }
  }

  /** One frame's socket events without threshold reports are its serial events. */
  lemma HeadWithoutThresholds(f: Frame, now: string)
    ensures WithoutThresholds(WebSocket.EventList(WebSocket.ProcessFrame(f, now))) ==
            WebSocket.EventList(ProcessFrame(f, now))
  {
    ProcessFrameMatchesWebSocket(f, now);
    var e := WebSocket.ProcessFrame(f, now);
    if e.Some? {
      assert WebSocket.EventList(e)[1..] == [];
    }
  }

  lemma {:induction false} WithoutThresholdsAppend(a: seq<Event>, b: seq<Event>)
    ensures WithoutThresholds(a + b) == WithoutThresholds(a) + WithoutThresholds(b)
  {
    if a == [] {
      assert a + b == b;
    } else {
      assert (a + b)[1..] == a[1..] + b;
      WithoutThresholdsAppend(a[1..], b);
    }
  }

  /** After a stop, whatever partial frame the decoder held is gone: the
      next complete frame is delivered intact. */
  lemma StopDiscardsPartialFrame(p: Parser, cmd: Byte, payload: seq<Byte>)
    requires Inv(p) && |payload| <= 255
    ensures Inv(p.(phase := WaitSof, buffer := []))
    ensures Run(p.(phase := WaitSof, buffer := []), Wire(cmd, payload)).frames == [Frame(cmd, payload)]
  {
    WireRoundTrip(p.(phase := WaitSof, buffer := []), cmd, payload);
  }

  class SerialViewModel {
    const decoder: FrameDecoder
    /** Whether the serial port is open (`m_serial->isOpen()`); the port is
        opened and closed by the connection manager. */
    const portOpen: bool

    predicate Valid()
      reads this, decoder
    {
      decoder.Valid()
    }

    constructor (portOpen: bool)
      ensures Valid() && fresh(decoder) && decoder.State() == Initial
      ensures this.portOpen == portOpen
    {
      decoder := new FrameDecoder();
      this.portOpen := portOpen;
    }

    /** `startListening`: back to waiting for SOF. */
    method StartListening()
      requires Valid()
      modifies decoder
      ensures Valid() && decoder.State() == old(decoder.State()).(phase := WaitSof)
    {
      decoder.Restart();
    }

    /** `stopListening`: back to waiting for SOF with the buffer emptied. */
    method StopListening()
      requires Valid()
      modifies decoder
      ensures Valid() && decoder.State() == old(decoder.State()).(phase := WaitSof, buffer := [])
    {
      decoder.Clear();
    }

    /** `onSerialReadyRead`: `data` is what `readAll()` returned. */
    method OnSerialReadyRead(data: seq<Byte>, now: string) returns (events: seq<Event>)
      requires Valid()
      modifies decoder
      ensures Valid()
      ensures decoder.State() == Run(old(decoder.State()), data).parser
      ensures events == Events(Run(old(decoder.State()), data).frames, now)
    {
      var frames := decoder.Feed(data);
      events := Events(frames, now);
    }

    /** `sendFrame`: SOF, command, length, payload and CRC, written in that
      order; nothing when the port is closed. */
    method SendFrame(cmd: Byte, payload: seq<Byte>) returns (written: seq<Byte>)
      requires |payload| <= 255
      ensures written == if portOpen then Wire(cmd, payload) else []
    {
      if !portOpen {
        return [];
      }
      var crc := CalcCrc(payload);
      written := [SOF];
      written := written + [cmd];
      written := written + [|payload|];
      written := written + payload;
      written := written + [crc];
    }

    method SendMotorControl(fanStatus: Byte, fanSpeed: Byte, pumpStatus: Byte, lampStatus: Byte)
      returns (written: seq<Byte>)
      ensures written == if portOpen then Wire(CMD_MOTOR_CTRL, MotorControlPayload(fanStatus, fanSpeed, pumpStatus, lampStatus)) else []
    {
      written := SendFrame(CMD_MOTOR_CTRL, [fanStatus, fanSpeed, pumpStatus, lampStatus]);
    }

    method SendThreshold(fanOn: Byte, fanOff: Byte, pumpOn: Byte, pumpOff: Byte, lampOn: Byte, lampOff: Byte)
      returns (written: seq<Byte>)
      ensures written == if portOpen then Wire(CMD_THRESHOLD, ThresholdPayload(fanOn, fanOff, pumpOn, pumpOff, lampOn, lampOff)) else []
    {
      written := SendFrame(CMD_THRESHOLD, [fanOn, fanOff, pumpOn, pumpOff, lampOn, lampOff]);
    }

    method SendDataCollectControl(enable: bool) returns (written: seq<Byte>)
      ensures written == if portOpen then Wire(CMD_DATA_CTRL, [FlagByte(enable)]) else []
    {
      written := SendFrame(CMD_DATA_CTRL, [if enable then 1 else 0]);
    }

    method SendAutoModeControl(enable: bool) returns (written: seq<Byte>)
      ensures written == if portOpen then Wire(CMD_AUTO_MODE, [FlagByte(enable)]) else []
    {
      written := SendFrame(CMD_AUTO_MODE, [if enable then 1 else 0]);
    }
  }
}
