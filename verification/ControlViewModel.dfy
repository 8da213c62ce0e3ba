/** Actuator command construction with validation, and the locally kept
    actuator state with change detection (`ControlViewModel`). */
module Control {
  import opened Protocol
  import opened Model
  import Payload

  predicate IsValidFanSpeed(speed: Byte) {
    speed <= 100
  }

  /** An on threshold must lie strictly above its off threshold (hysteresis). */
  predicate IsValidThreshold(onValue: Byte, offValue: Byte) {
    onValue > offValue
  }

  /** `buildMotorControlPayload`: empty when a status is not 0/1 or the speed
      is above 100, otherwise the motor-control layout. */
  function BuildMotorControlPayload(fanStatus: Byte, fanSpeed: Byte, pumpStatus: Byte, lampStatus: Byte): (r: seq<Byte>)
    ensures r == [] <==> fanStatus > 1 || pumpStatus > 1 || lampStatus > 1 || fanSpeed > 100
    ensures r != [] ==> r == Payload.MotorControlPayload(fanStatus, fanSpeed, pumpStatus, lampStatus)
  {
    if fanStatus > 1 || pumpStatus > 1 || lampStatus > 1 then []
    else if !IsValidFanSpeed(fanSpeed) then []
    else [fanStatus, fanSpeed, pumpStatus, lampStatus]
  }

  /** `buildThresholdPayload`: empty unless every on value is above its off
      value, otherwise the threshold layout. */
  function BuildThresholdPayload(fanOn: Byte, fanOff: Byte, pumpOn: Byte, pumpOff: Byte, lampOn: Byte, lampOff: Byte): (r: seq<Byte>)
    ensures r == [] <==> fanOn <= fanOff || pumpOn <= pumpOff || lampOn <= lampOff
    ensures r != [] ==> r == Payload.ThresholdPayload(fanOn, fanOff, pumpOn, pumpOff, lampOn, lampOff)
  {
    if !IsValidThreshold(fanOn, fanOff) then []
    else if !IsValidThreshold(pumpOn, pumpOff) then []
    else if !IsValidThreshold(lampOn, lampOff) then []
    else [fanOn, fanOff, pumpOn, pumpOff, lampOn, lampOff]
  }

  /** A threshold setting the builder accepts never survives the trip to the
      device and back unchanged (see `Payload.ThresholdEncodeDecode`). */
  lemma AcceptedThresholdsComeBackPermuted(fanOn: Byte, fanOff: Byte, pumpOn: Byte, pumpOff: Byte, lampOn: Byte, lampOff: Byte)
    requires BuildThresholdPayload(fanOn, fanOff, pumpOn, pumpOff, lampOn, lampOff) != []
    ensures Payload.DecodeThreshold(BuildThresholdPayload(fanOn, fanOff, pumpOn, pumpOff, lampOn, lampOff)) !=
            Threshold(fanOff := fanOff, fanOn := fanOn, lampOff := lampOff,
                      lampOn := lampOn, pumpOff := pumpOff, pumpOn := pumpOn)
  {
    Payload.ThresholdEncodeDecode(fanOn, fanOff, pumpOn, pumpOff, lampOn, lampOff);
  }

  /** `buildDataCollectPayload`: one byte, 1 to start collecting, 0 to stop. */
  function BuildDataCollectPayload(enable: bool): (r: seq<Byte>)
    ensures |r| == 1 && (r[0] == 1 <==> enable) && (r[0] == 0 <==> !enable)
  {
    [FlagByte(enable)]
  }

  /** `buildAutoModePayload`: one byte, 1 for automatic, 0 for manual. */
  function BuildAutoModePayload(enable: bool): (r: seq<Byte>)
    ensures |r| == 1 && (r[0] == 1 <==> enable) && (r[0] == 0 <==> !enable)
  {
    [FlagByte(enable)]
  }

  /** The signals of `ControlViewModel`. */
  datatype Signal =
    | StateChanged(state: ActuatorStateData)
    | FanStateChanged(fanOn: bool)
    | PumpStateChanged(pumpOn: bool)
    | LampStateChanged(lampOn: bool)
    | AutoModeChanged(auto: bool)
    | FanSpeedChanged(speed: Byte)

  /** The signals `updateState` emits when the state goes from `before` to
      `after`: the whole state, then one signal per field that changed. */
  function UpdateSignals(before: ActuatorStateData, after: ActuatorStateData): seq<Signal> {
    [StateChanged(after)]
    + (if before.fanStatus != after.fanStatus then [FanStateChanged(after.fanStatus == 1)] else [])
    + (if before.pumpStatus != after.pumpStatus then [PumpStateChanged(after.pumpStatus == 1)] else [])
    + (if before.lampStatus != after.lampStatus then [LampStateChanged(after.lampStatus == 1)] else [])
    + (if before.autoMode != after.autoMode then [AutoModeChanged(after.autoMode == 1)] else [])
    + (if before.fanSpeed != after.fanSpeed then [FanSpeedChanged(after.fanSpeed)] else [])
  }

  /** Change detection: the full state is always announced first, and a
      per-field signal is emitted exactly when that field differed. */
  lemma UpdateSignalsExact(before: ActuatorStateData, after: ActuatorStateData)
    ensures var s := UpdateSignals(before, after);
      && s[0] == StateChanged(after)
      && (FanStateChanged(after.fanStatus == 1) in s <==> before.fanStatus != after.fanStatus)
      && (PumpStateChanged(after.pumpStatus == 1) in s <==> before.pumpStatus != after.pumpStatus)
      && (LampStateChanged(after.lampStatus == 1) in s <==> before.lampStatus != after.lampStatus)
      && (AutoModeChanged(after.autoMode == 1) in s <==> before.autoMode != after.autoMode)
      && (FanSpeedChanged(after.fanSpeed) in s <==> before.fanSpeed != after.fanSpeed)
    ensures UpdateSignals(after, after) == [StateChanged(after)]
  {
  }

  /** `x ? 0 : 1` on a status byte. */
  function ToggleStatus(b: Byte): (r: Byte)
    ensures r <= 1
    ensures r == 1 <==> b == 0
  {
    if b != 0 then 0 else 1
  }

  /** Toggling twice restores a status only when it was 0 or 1. */
  lemma ToggleTwice(b: Byte)
    ensures ToggleStatus(ToggleStatus(b)) == b <==> b <= 1
  {
  }

  class ControlViewModel {
    var state: ActuatorStateData

    /** All off, manual mode, speed 0. */
    constructor ()
      ensures state == DefaultActuatorState
    {
      state := ActuatorStateData(0, 0, 0, 0, 0);
    }

    function IsFanOn(): bool reads this { state.fanStatus == 1 }
    function IsPumpOn(): bool reads this { state.pumpStatus == 1 }
    function IsLampOn(): bool reads this { state.lampStatus == 1 }
    function IsAutoMode(): bool reads this { state.autoMode == 1 }

    /** `updateState`: adopt the reported snapshot and announce what changed. */
    method UpdateState(s: ActuatorStateData) returns (signals: seq<Signal>)
      modifies this
      ensures state == s
      ensures signals == UpdateSignals(old(state), s)
    {
      var fanChanged := state.fanStatus != s.fanStatus;
      var pumpChanged := state.pumpStatus != s.pumpStatus;
      var lampChanged := state.lampStatus != s.lampStatus;
      var autoModeChanged := state.autoMode != s.autoMode;
      var fanSpeedChanged := state.fanSpeed != s.fanSpeed;
      ghost var before := state;
      state := s;
      signals := [StateChanged(state)];
      if fanChanged { signals := signals + [FanStateChanged(IsFanOn())]; }
      ghost var upToFan := signals;
      if pumpChanged { signals := signals + [PumpStateChanged(IsPumpOn())]; }
      if lampChanged { signals := signals + [LampStateChanged(IsLampOn())]; }
      ghost var upToLamp := signals;
      if autoModeChanged { signals := signals + [AutoModeChanged(IsAutoMode())]; }
      if fanSpeedChanged { signals := signals + [FanSpeedChanged(s.fanSpeed)]; }
      assert upToFan == [StateChanged(s)]
        + (if before.fanStatus != s.fanStatus then [FanStateChanged(s.fanStatus == 1)] else []);
      assert upToLamp == upToFan
        + (if before.pumpStatus != s.pumpStatus then [PumpStateChanged(s.pumpStatus == 1)] else [])
        + (if before.lampStatus != s.lampStatus then [LampStateChanged(s.lampStatus == 1)] else []);
    }

    /** `toggleFan`: returns whether the fan is now on, i.e. whether it was 0. */
    method ToggleFan() returns (on: bool, signals: seq<Signal>)
      modifies this
      ensures state == old(state).(fanStatus := ToggleStatus(old(state).fanStatus))
      ensures on <==> old(state).fanStatus == 0
      ensures signals == [FanStateChanged(on), StateChanged(state)]
    {
      state := state.(fanStatus := if state.fanStatus != 0 then 0 else 1);
      on := IsFanOn();
      signals := [FanStateChanged(on), StateChanged(state)];
    }

    method TogglePump() returns (on: bool, signals: seq<Signal>)
      modifies this
      ensures state == old(state).(pumpStatus := ToggleStatus(old(state).pumpStatus))
      ensures on <==> old(state).pumpStatus == 0
      ensures signals == [PumpStateChanged(on), StateChanged(state)]
    {
      state := state.(pumpStatus := if state.pumpStatus != 0 then 0 else 1);
      on := IsPumpOn();
      signals := [PumpStateChanged(on), StateChanged(state)];
    }

    method ToggleLamp() returns (on: bool, signals: seq<Signal>)
      modifies this
      ensures state == old(state).(lampStatus := ToggleStatus(old(state).lampStatus))
      ensures on <==> old(state).lampStatus == 0
      ensures signals == [LampStateChanged(on), StateChanged(state)]
    {
      state := state.(lampStatus := if state.lampStatus != 0 then 0 else 1);
      on := IsLampOn();
      signals := [LampStateChanged(on), StateChanged(state)];
    }

    method ToggleAutoMode() returns (auto: bool, signals: seq<Signal>)
      modifies this
      ensures state == old(state).(autoMode := ToggleStatus(old(state).autoMode))
      ensures auto <==> old(state).autoMode == 0
      ensures signals == [AutoModeChanged(auto), StateChanged(state)]
    {
      state := state.(autoMode := if state.autoMode != 0 then 0 else 1);
      auto := IsAutoMode();
      signals := [AutoModeChanged(auto), StateChanged(state)];
    }

    /** `setFanSpeed`: rejected, with nothing changed, above 100. */
    method SetFanSpeed(speed: Byte) returns (ok: bool, signals: seq<Signal>)
      modifies this
      ensures ok <==> speed <= 100
      ensures state == if ok then old(state).(fanSpeed := speed) else old(state)
      ensures signals == if ok then [FanSpeedChanged(speed), StateChanged(state)] else []
    {
      if !IsValidFanSpeed(speed) {
        return false, [];
      }
      state := state.(fanSpeed := speed);
      ok := true;
      signals := [FanSpeedChanged(speed), StateChanged(state)];
    }
  }
}
