/** Manual actuator control with the auto-mode lock (`DeviceController`):
    toggles that send a full motor-control command, the auto/manual switch,
    and synchronisation with the state the device reports. */
module Devices {
  import opened Protocol
  import opened Model
  import opened Frames
  import opened Payload
  import Control
  import Serial

  datatype Device = Fan | Light | Pump

  /** The controller's flags; `isLocked` means manual mode. */
  datatype DeviceState = DeviceState(fanOn: bool, lightOn: bool, pumpOn: bool, isLocked: bool)

  const InitialState := DeviceState(false, false, false, true)

  function IsOn(s: DeviceState, d: Device): bool {
    match d
    case Fan => s.fanOn
    case Light => s.lightOn
    case Pump => s.pumpOn
  }

  /** The state after a `toggle*`: in manual mode one flag flips, in auto
      mode nothing changes. */
  function Toggle(s: DeviceState, d: Device): (r: DeviceState)
    ensures r.isLocked == s.isLocked
  {
    if !s.isLocked then s
    else match d
      case Fan => s.(fanOn := !s.fanOn)
      case Light => s.(lightOn := !s.lightOn)
      case Pump => s.(pumpOn := !s.pumpOn)
  }

  /** A toggle flips exactly the targeted device, and only in manual mode;
      two toggles of the same device restore the state. */
  lemma ToggleFlipsOnlyTarget(s: DeviceState, d: Device, e: Device)
    ensures IsOn(Toggle(s, d), e) == if s.isLocked && d == e then !IsOn(s, e) else IsOn(s, e)
    ensures Toggle(Toggle(s, d), d) == s
  {
  }

  /** The motor-control payload of `sendControlCommand`: statuses 0/1 and
      fan speed 100 when the fan is on, 0 otherwise. */
  function CommandPayload(s: DeviceState): (r: seq<Byte>)
    ensures |r| == 4
  {
    MotorControlPayload(FlagByte(s.fanOn), if s.fanOn then 100 else 0, FlagByte(s.pumpOn), FlagByte(s.lightOn))
  }

  /** Every command the controller sends passes the motor-control payload
      validation of `ControlViewModel`, and encodes the three flags. */
  lemma CommandPayloadIsValid(s: DeviceState)
    ensures Control.BuildMotorControlPayload(FlagByte(s.fanOn), if s.fanOn then 100 else 0,
                                             FlagByte(s.pumpOn), FlagByte(s.lightOn)) == CommandPayload(s)
    ensures var p := CommandPayload(s);
      && (p[0] == 1 <==> s.fanOn) && (p[1] == 100 <==> s.fanOn)
      && (p[2] == 1 <==> s.pumpOn) && (p[3] == 1 <==> s.lightOn)
  {
  }

  /** The signals of `DeviceController`. */
  datatype Signal =
    | FanStateChanged(fanOn: bool)
    | LightStateChanged(lightOn: bool)
    | PumpStateChanged(pumpOn: bool)
    | AutoModeChanged(auto: bool)

  /** The state after `updateDeviceState(d)`: each flag becomes `status ==
      1`; the lock, the auto-mode byte and the fan speed play no part. */
  function Synced(s: DeviceState, d: ActuatorStateData): DeviceState {
    s.(fanOn := d.fanStatus == 1, lightOn := d.lampStatus == 1, pumpOn := d.pumpStatus == 1)
  }

  /** The signals of `updateDeviceState(d)`: fan, light, pump, each only
      when its flag changes. */
  function SyncSignals(s: DeviceState, d: ActuatorStateData): seq<Signal> {
    (if s.fanOn != (d.fanStatus == 1) then [FanStateChanged(d.fanStatus == 1)] else [])
    + (if s.lightOn != (d.lampStatus == 1) then [LightStateChanged(d.lampStatus == 1)] else [])
    + (if s.pumpOn != (d.pumpStatus == 1) then [PumpStateChanged(d.pumpStatus == 1)] else [])
  }

  /** A change is announced exactly for the flags that differed, and a
      repeated report changes nothing and announces nothing. */
  lemma SyncAnnouncesExactlyChanges(s: DeviceState, d: ActuatorStateData)
    ensures var sig := SyncSignals(s, d);
      && (FanStateChanged(d.fanStatus == 1) in sig <==> s.fanOn != Synced(s, d).fanOn)
      && (LightStateChanged(d.lampStatus == 1) in sig <==> s.lightOn != Synced(s, d).lightOn)
      && (PumpStateChanged(d.pumpStatus == 1) in sig <==> s.pumpOn != Synced(s, d).pumpOn)
      && (|sig| == 0 <==> Synced(s, d) == s)
    ensures Synced(Synced(s, d), d) == Synced(s, d)
    ensures SyncSignals(Synced(s, d), d) == []
  {
  }

  class DeviceController {
    var fanOn: bool
    var lightOn: bool
    var pumpOn: bool
    var isLocked: bool
    /** The attached serial transport, if any (`m_serialViewModel`). */
    var serial: Serial.SerialViewModel?

    function State(): DeviceState
      reads this
    {
      DeviceState(fanOn, lightOn, pumpOn, isLocked)
    }

    /** What reaches the serial port for a frame: nothing without an
        attached, open transport. */
    function Written(cmd: Byte, payload: seq<Byte>): seq<Byte>
      requires |payload| <= 255
      reads this
    {
      if serial == null || !serial.portOpen then [] else Wire(cmd, payload)
    }

    /** All off, manual mode, no transport. */
    constructor ()
      ensures State() == InitialState && serial == null
    {
      fanOn, lightOn, pumpOn := false, false, false;
      isLocked := true;
      serial := null;
    }

    method SetSerialViewModel(viewModel: Serial.SerialViewModel?)
      modifies this
      ensures serial == viewModel && State() == old(State())
    {
      serial := viewModel;
    }

    predicate IsAutoMode() reads this { !isLocked }

    /** `sendControlCommand`. */
    method SendControlCommand() returns (written: seq<Byte>)
      ensures written == Written(CMD_MOTOR_CTRL, CommandPayload(State()))
    {
      if serial == null {
        return [];
      }
      written := serial.SendMotorControl(
        if fanOn then 1 else 0, if fanOn then 100 else 0,
        if pumpOn then 1 else 0, if lightOn then 1 else 0);
    }

    /** `toggleFan`: refused in auto mode; otherwise flip, send, announce. */
    method ToggleFan() returns (signals: seq<Signal>, written: seq<Byte>)
      modifies this
      ensures State() == Toggle(old(State()), Fan) && serial == old(serial)
      ensures written == if old(isLocked) then Written(CMD_MOTOR_CTRL, CommandPayload(State())) else []
      ensures signals == if old(isLocked) then [FanStateChanged(fanOn)] else []
    {
      if !isLocked {
        return [], [];
      }
      fanOn := !fanOn;
      written := SendControlCommand();
      signals := [FanStateChanged(fanOn)];
    }

    method ToggleLight() returns (signals: seq<Signal>, written: seq<Byte>)
      modifies this
      ensures State() == Toggle(old(State()), Light) && serial == old(serial)
      ensures written == if old(isLocked) then Written(CMD_MOTOR_CTRL, CommandPayload(State())) else []
      ensures signals == if old(isLocked) then [LightStateChanged(lightOn)] else []
    {
      if !isLocked {
        return [], [];
      }
      lightOn := !lightOn;
      written := SendControlCommand();
      signals := [LightStateChanged(lightOn)];
    }

    method TogglePump() returns (signals: seq<Signal>, written: seq<Byte>)
      modifies this
      ensures State() == Toggle(old(State()), Pump) && serial == old(serial)
      ensures written == if old(isLocked) then Written(CMD_MOTOR_CTRL, CommandPayload(State())) else []
      ensures signals == if old(isLocked) then [PumpStateChanged(pumpOn)] else []
    {
      if !isLocked {
        return [], [];
      }
      pumpOn := !pumpOn;
      written := SendControlCommand();
      signals := [PumpStateChanged(pumpOn)];
    }

    /** `setAutoMode`: unlocks for automatic mode, locks for manual; the
        mode command is sent when a transport is attached. */
    method SetAutoMode(enable: bool) returns (signals: seq<Signal>, written: seq<Byte>)
      modifies this
      ensures State() == old(State()).(isLocked := !enable) && serial == old(serial)
      ensures IsAutoMode() == enable
      ensures written == Written(CMD_AUTO_MODE, [FlagByte(enable)])
      ensures signals == [AutoModeChanged(enable)]
    {
      isLocked := !enable;
      written := [];
      if serial != null {
        written := serial.SendAutoModeControl(enable);
      }
      signals := [AutoModeChanged(enable)];
    }

    /** `updateDeviceState`: adopt the reported statuses, in either mode. */
    method UpdateDeviceState(data: ActuatorStateData) returns (signals: seq<Signal>)
      modifies this
      ensures State() == Synced(old(State()), data) && serial == old(serial)
      ensures signals == SyncSignals(old(State()), data)
    {
      signals := [];
      if fanOn != (data.fanStatus == 1) {
        fanOn := data.fanStatus == 1;
        signals := signals + [FanStateChanged(fanOn)];
      }
      ghost var upToFan := signals;
      if lightOn != (data.lampStatus == 1) {
        lightOn := data.lampStatus == 1;
        signals := signals + [LightStateChanged(lightOn)];
      }
      assert upToFan == if old(fanOn) != (data.fanStatus == 1) then [FanStateChanged(data.fanStatus == 1)] else [];
      if pumpOn != (data.pumpStatus == 1) {
        pumpOn := data.pumpStatus == 1;
        signals := signals + [PumpStateChanged(pumpOn)];
      }
    }
  }
}
