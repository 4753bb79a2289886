/**
 * `AnalogController` as the source has it: an object whose flags, button
 * state and transfer state are updated in place, with the stick positions,
 * the six rumble-configuration bytes and the two motor levels in fixed-size
 * arrays. Each method is proved against the function of the same name in
 * `AnalogSpec`, applied to the object's state before the call; the
 * protocol's properties are proved about those functions.
 */
module AnalogCore {
  import opened AnalogSpec

  class AnalogController {
    var state: TransferState
    var analogMode: bool
    var configurationMode: bool
    var analogLocked: bool
    var analogToggleQueued: bool
    var rumbleUnlocked: bool
    var legacyRumbleUnlocked: bool
    var commandParam: bv8
    var buttonState: bv16
    var rumbleConfigLargeMotorIndex: int
    var rumbleConfigSmallMotorIndex: int

    const axisState: array<bv8>
    const rumbleConfig: array<bv8>
    const motorState: array<bv8>

    /** The settings `LoadSettings` reads: force analog mode on reset, and the left stick as D-pad in digital mode. */
    const forceAnalogOnReset: bool
    const analogDpadInDigitalMode: bool

    /** The arrays have their fixed sizes and are distinct, and each motor index names a configuration byte or none. */
    predicate Valid()
      reads this`rumbleConfigLargeMotorIndex, this`rumbleConfigSmallMotorIndex
    {
      && axisState.Length == 4 && rumbleConfig.Length == 6 && motorState.Length == 2
      && axisState != rumbleConfig && axisState != motorState && rumbleConfig != motorState
      && -1 <= rumbleConfigLargeMotorIndex < 6 && -1 <= rumbleConfigSmallMotorIndex < 6
    }

    /** The rumble part of the object's state as one value. */
    function RumbleModel(): Rumble
      requires Valid()
      reads this`rumbleUnlocked, this`legacyRumbleUnlocked, this`rumbleConfigLargeMotorIndex,
        this`rumbleConfigSmallMotorIndex, rumbleConfig, motorState
    {
      Rumble(rumbleUnlocked, legacyRumbleUnlocked, rumbleConfig[..],
             rumbleConfigLargeMotorIndex, rumbleConfigSmallMotorIndex, motorState[..])
    }

    /** The object's state as one value. */
    function Model(): Controller
      requires Valid()
      reads this`state, this`analogMode, this`configurationMode, this`analogLocked, this`analogToggleQueued,
        this`commandParam, this`buttonState, axisState, this`rumbleUnlocked, this`legacyRumbleUnlocked,
        this`rumbleConfigLargeMotorIndex, this`rumbleConfigSmallMotorIndex, rumbleConfig, motorState
    {
      Controller(state, analogMode, configurationMode, analogLocked, analogToggleQueued,
                 commandParam, buttonState, axisState[..], RumbleModel())
    }

    /**
     * `AnalogController(index)`: sticks centred, buttons released, then
     * `Reset`. That `Reset` runs before `LoadSettings`, while the
     * force-analog flag still holds its default `false`, so a new
     * controller starts in digital mode whatever `forceOnReset` is; the
     * loaded setting takes effect from the next `Reset` on.
     * `disableForcing` is the game setting that overrides `forceOnReset`.
     */
    constructor (forceOnReset: bool, dpadSetting: bool, disableForcing: bool)
      ensures Valid() && fresh(axisState) && fresh(rumbleConfig) && fresh(motorState)
      ensures forceAnalogOnReset == forceOnReset && analogDpadInDigitalMode == dpadSetting
      ensures Model() == AnalogSpec.Reset(
        Controller(Idle, false, false, false, false, 0, 0xFFFF, [0x80, 0x80, 0x80, 0x80],
                   Rumble(false, false, [0xFF, 0xFF, 0xFF, 0xFF, 0xFF, 0xFF], -1, -1, [0, 0])),
        false, disableForcing)
    ensures !Model().analogMode && AnalogSpec.GetID(Model()) == DIGITAL_MODE_ID
    {
      state := Idle;
      analogMode, configurationMode, analogLocked, analogToggleQueued := false, false, false, false;
      rumbleUnlocked, legacyRumbleUnlocked := false, false;
      commandParam := 0;
      buttonState := 0xFFFF;
      rumbleConfigLargeMotorIndex, rumbleConfigSmallMotorIndex := -1, -1;
      axisState := new bv8[4](_ => 0x80);
      rumbleConfig := new bv8[6](_ => 0xFF);
      motorState := new bv8[2](_ => 0);
      forceAnalogOnReset, analogDpadInDigitalMode := forceOnReset, dpadSetting;
      new;
      ResetWith(false, disableForcing);
    }

    // ===== identification, buttons and sticks =====

    method GetID() returns (id: bv16)
      requires Valid()
      ensures id == AnalogSpec.GetID(Model())
    {
      if configurationMode {
        return CONFIG_MODE_ID;
      }
      id := if analogMode then ANALOG_MODE_ID else DIGITAL_MODE_ID;
    }

    /** `SetButtonState(Button, bool)`. */
    method SetButton(button: Button, pressed: bool)
      requires Valid()
      modifies this
      ensures Valid() && Model() == AnalogSpec.SetButton(old(Model()), button, pressed)
    {
      if button == BUTTON_ANALOG {
        if pressed {
          analogToggleQueued := true;
        }
        return;
      }
      if pressed {
        buttonState := Press(buttonState, button);
      } else {
        buttonState := Release(buttonState, button);
      }
    }

    /** `SetButtonState(s32, bool)`. */
    method SetButtonState(code: int, pressed: bool)
      requires Valid()
      modifies this
      ensures Valid() && Model() == AnalogSpec.SetButtonState(old(Model()), code, pressed)
    {
      if code < 0 || code >= BUTTON_COUNT {
        return;
      }
      SetButton(code as bv16, pressed);
    }

    method GetButtonStateBits() returns (bits: bv32)
      requires Valid()
      ensures bits == AnalogSpec.GetButtonStateBits(Model())
    {
      bits := (buttonState as bv32) ^ 0xFFFF;
    }

    /** `SetAxisState(Axis, u8)`: the stick position as a byte, already scaled. */
    method SetAxisState(axis: nat, value: bv8)
      requires Valid() && axis < 4
      modifies axisState
      ensures Valid() && Model() == AnalogSpec.SetAxisState(old(Model()), axis, value)
    {
      axisState[axis] := value;
    }

    method GetExtraButtonMaskLSB() returns (mask: bv8)
      requires Valid()
      ensures mask == AnalogSpec.GetExtraButtonMaskLSB(Model(), analogDpadInDigitalMode)
    {
      if !analogDpadInDigitalMode || analogMode || configurationMode {
        return 0xFF;
      }
      var left := AtOrBelow(axisState[AXIS_LEFT_X], NEG_THRESHOLD);
      var right := AtOrAbove(axisState[AXIS_LEFT_X], POS_THRESHOLD);
      var up := AtOrBelow(axisState[AXIS_LEFT_Y], NEG_THRESHOLD);
      var down := AtOrAbove(axisState[AXIS_LEFT_Y], POS_THRESHOLD);
      mask := DpadMask(left, right, up, down);
    }

    // ===== modes and rumble =====

    method SetAnalogMode(enabled: bool)
      requires Valid()
      modifies this
      ensures Valid() && Model() == AnalogSpec.SetAnalogMode(old(Model()), enabled)
    {
      if analogMode == enabled {
        return;
      }
      analogMode := enabled;
    }

    method SetMotorState(motor: nat, value: bv8)
      requires Valid() && motor < 2
      modifies motorState
      ensures Valid() && Model() == old(Model()).(rumble := AnalogSpec.SetMotorState(old(Model()).rumble, motor, value))
    {
      motorState[motor] := value;
    }

    method SetMotorStateForConfigIndex(index: ConfigIndex, value: bv8)
      requires Valid()
      modifies motorState
      ensures Valid() && Model() == old(Model()).(rumble := AnalogSpec.SetMotorStateForConfigIndex(old(Model()).rumble, index, value))
    {
      if rumbleConfigSmallMotorIndex == index {
        SetMotorState(SMALL_MOTOR, SmallMotorValue(value));
      } else if rumbleConfigLargeMotorIndex == index {
        SetMotorState(LARGE_MOTOR, value);
      }
    }

    method ResetRumbleConfig()
      requires Valid()
      modifies this, rumbleConfig, motorState
      ensures Valid() && Model() == old(Model()).(rumble := AnalogSpec.ResetRumbleConfig())
    {
      legacyRumbleUnlocked := false;
      rumbleUnlocked := false;
      for i := 0 to 6
        modifies rumbleConfig
        invariant forall k | 0 <= k < i :: rumbleConfig[k] == 0xFF
      {
        rumbleConfig[i] := 0xFF;
      }
      assert rumbleConfig[..] == [0xFF, 0xFF, 0xFF, 0xFF, 0xFF, 0xFF];
      rumbleConfigLargeMotorIndex := -1;
      rumbleConfigSmallMotorIndex := -1;
      SetMotorState(LARGE_MOTOR, 0);
      SetMotorState(SMALL_MOTOR, 0);
      assert motorState[..] == [0, 0];
    }

    method ResetTransferState()
      requires Valid()
      modifies this, rumbleConfig, motorState
      ensures Valid() && Model() == AnalogSpec.ResetTransferState(old(Model()))
    {
      if analogToggleQueued {
        if !analogLocked {
          SetAnalogMode(!analogMode);
          ResetRumbleConfig();
        }
        analogToggleQueued := false;
      }
      state := Idle;
    }

    /** `Reset`: `disableForcing` is the game setting that overrides `forceAnalogOnReset`. */
    method Reset(disableForcing: bool)
      requires Valid()
      modifies this, rumbleConfig, motorState
      ensures Valid() && Model() == AnalogSpec.Reset(old(Model()), forceAnalogOnReset, disableForcing)
    {
      ResetWith(forceAnalogOnReset, disableForcing);
    }

    /** The body of `Reset`, with the force-analog flag as it stands when `Reset` runs. */
    method ResetWith(force: bool, disableForcing: bool)
      requires Valid()
      modifies this, rumbleConfig, motorState
      ensures Valid() && Model() == AnalogSpec.Reset(old(Model()), force, disableForcing)
    {
      state := Idle;
      analogMode := false;
      configurationMode := false;
      commandParam := 0;
      motorState[LARGE_MOTOR] := 0;
      motorState[SMALL_MOTOR] := 0;
      ResetRumbleConfig();
      if force && !disableForcing {
        SetAnalogMode(true);
      }
    }
  
    // ===== the transfer state machine =====

    /** The Idle state of `Transfer`. */
    method TransferIdle(dataIn: bv8) returns (dataOut: bv8, ack: bool)
      requires Valid() && state == Idle
      modifies this
      ensures Valid() && Transferred(Model(), dataOut, ack) == AnalogSpec.TransferIdle(old(Model()), dataIn)
    {
      var id := GetID();
      if dataIn == 0x42 {
        dataOut, state, ack := Low(id), GetStateIDMSB, true;
      } else if dataIn == 0x43 {
        dataOut, state, ack := Low(id), ConfigModeIDMSB, true;
      } else if configurationMode && dataIn == 0x44 {
        dataOut, state, ack := Low(id), SetAnalogModeIDMSB, true;
      } else if configurationMode && dataIn == 0x45 {
        dataOut, state, ack := Low(id), GetAnalogModeIDMSB, true;
      } else if configurationMode && dataIn == 0x46 {
        dataOut, state, ack := Low(id), Command46IDMSB, true;
      } else if configurationMode && dataIn == 0x47 {
        dataOut, state, ack := Low(id), Command47IDMSB, true;
      } else if configurationMode && dataIn == 0x4C {
        dataOut, state, ack := Low(id), Command4CIDMSB, true;
      } else if configurationMode && dataIn == 0x4D {
        rumbleUnlocked := true;
        dataOut, state := Low(id), UnlockRumbleIDMSB;
        rumbleConfigLargeMotorIndex := -1;
        rumbleConfigSmallMotorIndex := -1;
        ack := true;
      } else {
        dataOut, ack := 0xFF, dataIn == 0x01;
      }
    }

    /** An identifier-MSB state: the identifier's high byte, then `next`. */
    method IdStateMsb(next: TransferState) returns (dataOut: bv8, ack: bool)
      requires Valid() && IsIdMsbState(state) && next == AfterIdMsb(state)
      modifies this
      ensures Valid() && Transferred(Model(), dataOut, ack) == AnalogSpec.TransferIdMsb(old(Model()))
    {
      var id := GetID();
      dataOut := High(id);
      state := next;
      ack := true;
    }

    /** A state with a fixed reply: `reply`, then `next`, acknowledged as `ackValue` says. */
    method FixedReply(reply: bv8, ackValue: bool, next: TransferState) returns (dataOut: bv8, ack: bool)
      requires Valid()
      modifies this
      ensures Valid() && Model() == old(Model()).(state := next) && dataOut == reply && ack == ackValue
    {
      dataOut := reply;
      state := next;
      ack := ackValue;
    }

    /** The rumble side of `GetStateButtonsLSB`. */
    method PollRumbleLsb(dataIn: bv8)
      requires Valid()
      modifies this`legacyRumbleUnlocked, motorState
      ensures Valid() && Model() == old(Model()).(rumble := AnalogSpec.PollRumbleLsb(old(Model()).rumble, dataIn))
    {
      if rumbleUnlocked {
        SetMotorStateForConfigIndex(0, dataIn);
      } else if dataIn >= 0x40 && dataIn <= 0x7F {
        legacyRumbleUnlocked := true;
      } else {
        SetMotorState(SMALL_MOTOR, 0);
      }
    }

    method GetStateButtonsLSB(dataIn: bv8) returns (dataOut: bv8, ack: bool)
      requires Valid()
      modifies this, motorState
      ensures Valid() && Transferred(Model(), dataOut, ack) == TransferButtonsLsb(old(Model()), dataIn, analogDpadInDigitalMode)
    {
      PollRumbleLsb(dataIn);
      var mask := GetExtraButtonMaskLSB();
      var low := Low(buttonState);
      dataOut := low & mask;
      state := TransferState.GetStateButtonsMSB;
      ack := true;
    }

    /** The rumble side of `GetStateButtonsMSB`. */
    method PollRumbleMsb(dataIn: bv8)
      requires Valid()
      modifies this`legacyRumbleUnlocked, motorState
      ensures Valid() && Model() == old(Model()).(rumble := AnalogSpec.PollRumbleMsb(old(Model()).rumble, dataIn))
    {
      if rumbleUnlocked {
        SetMotorStateForConfigIndex(1, dataIn);
      } else if legacyRumbleUnlocked {
        SetMotorState(SMALL_MOTOR, SmallMotorValue(dataIn));
        legacyRumbleUnlocked := false;
      }
    }

    method GetStateButtonsMSB(dataIn: bv8) returns (dataOut: bv8, ack: bool)
      requires Valid()
      modifies this, motorState
      ensures Valid() && Transferred(Model(), dataOut, ack) == TransferButtonsMsb(old(Model()), dataIn)
    {
      PollRumbleMsb(dataIn);
      dataOut := High(buttonState);
      state := if analogMode || configurationMode then GetStateRightAxisX else Idle;
      ack := analogMode || configurationMode;
    }

    /** A stick state of the poll: configuration byte `index` drives its motor, the stick's `axis` is the reply. */
    method GetStateAxis(dataIn: bv8, index: ConfigIndex, axis: nat, next: TransferState, ackValue: bool)
      returns (dataOut: bv8, ack: bool)
      requires Valid() && axis < 4
      modifies this, motorState
      ensures Valid() && Transferred(Model(), dataOut, ack) == TransferAxis(old(Model()), dataIn, index, axis, next, ackValue)
    {
      if rumbleUnlocked {
        SetMotorStateForConfigIndex(index, dataIn);
      }
      dataOut := axisState[axis];
      state := next;
      ack := ackValue;
    }

    method ConfigModeSetMode(dataIn: bv8) returns (dataOut: bv8, ack: bool)
      requires Valid()
      modifies this
      ensures Valid() && Transferred(Model(), dataOut, ack) == TransferConfigModeSetMode(old(Model()), dataIn)
    {
      var prevConfigurationMode := configurationMode;
      configurationMode := dataIn == 1;
      dataOut := if prevConfigurationMode then 0x00 else Low(buttonState);
      state := if prevConfigurationMode then Pad(5) else TransferState.GetStateButtonsMSB;
      ack := true;
    }

    /** The shared part of `GetSetRumble1`..`6`: the old configuration byte out, the new one stored and mapped. */
    method ExchangeConfigByte(dataIn: bv8, index: ConfigIndex) returns (previous: bv8)
      requires Valid()
      modifies this`rumbleConfigSmallMotorIndex, this`rumbleConfigLargeMotorIndex, rumbleConfig
      ensures Valid() && previous == old(rumbleConfig[index])
      ensures Model() == old(Model()).(rumble := AnalogSpec.ExchangeConfigByte(old(Model()).rumble, index, dataIn))
    {
      previous := rumbleConfig[index];
      rumbleConfig[index] := dataIn;
      if dataIn == 0x00 {
        rumbleConfigSmallMotorIndex := index;
      } else if dataIn == 0x01 {
        rumbleConfigLargeMotorIndex := index;
      }
    }

    /** The end of `GetSetRumble6`: unmapped motors stop, and with neither mapped rumble locks. */
    method FinishRumbleConfig()
      requires Valid()
      modifies this`rumbleUnlocked, motorState
      ensures Valid() && Model() == old(Model()).(rumble := AnalogSpec.FinishRumbleConfig(old(Model()).rumble))
    {
      if rumbleConfigLargeMotorIndex == -1 {
        SetMotorState(LARGE_MOTOR, 0);
      }
      if rumbleConfigSmallMotorIndex == -1 {
        SetMotorState(SMALL_MOTOR, 0);
      }
      if rumbleConfigLargeMotorIndex == -1 && rumbleConfigSmallMotorIndex == -1 {
        rumbleUnlocked := false;
      }
    }

    /** `GetSetRumble1`..`6`: configuration byte `index` is exchanged; the sixth ends the command. */
    method GetSetRumble(dataIn: bv8, index: ConfigIndex) returns (dataOut: bv8, ack: bool)
      requires Valid() && state == TransferState.GetSetRumble(index)
      modifies this, rumbleConfig, motorState
      ensures Valid() && Transferred(Model(), dataOut, ack) == AnalogSpec.Transfer(old(Model()), dataIn, analogDpadInDigitalMode)
    {
      dataOut := ExchangeConfigByte(dataIn, index);
      if index < 5 {
        state := TransferState.GetSetRumble(index + 1);
        ack := true;
      } else {
        FinishRumbleConfig();
        state := Idle;
        ack := false;
      }
    }

    /** The states of a poll after the identifier. */
    method TransferPoll(dataIn: bv8) returns (dataOut: bv8, ack: bool)
      requires Valid()
      requires state.GetStateButtonsLSB? || state.GetStateButtonsMSB? || state.GetStateRightAxisX?
        || state.GetStateRightAxisY? || state.GetStateLeftAxisX? || state.GetStateLeftAxisY?
      modifies this, motorState
      ensures Valid() && Transferred(Model(), dataOut, ack) == AnalogSpec.Transfer(old(Model()), dataIn, analogDpadInDigitalMode)
    {
      match state
      case GetStateButtonsLSB => dataOut, ack := GetStateButtonsLSB(dataIn);
      case GetStateButtonsMSB => dataOut, ack := GetStateButtonsMSB(dataIn);
      case GetStateRightAxisX => dataOut, ack := GetStateAxis(dataIn, 2, AXIS_RIGHT_X, GetStateRightAxisY, true);
      case GetStateRightAxisY => dataOut, ack := GetStateAxis(dataIn, 3, AXIS_RIGHT_Y, GetStateLeftAxisX, true);
      case GetStateLeftAxisX => dataOut, ack := GetStateAxis(dataIn, 4, AXIS_LEFT_X, GetStateLeftAxisY, true);
      case GetStateLeftAxisY => dataOut, ack := GetStateAxis(dataIn, 5, AXIS_LEFT_Y, Idle, false);
    }

    /** The parameter and reply states of commands 0x43, 0x44 and 0x45. */
    method TransferModeCommand(dataIn: bv8) returns (dataOut: bv8, ack: bool)
      requires Valid()
      requires state.ConfigModeSetMode? || state.SetAnalogModeVal? || state.SetAnalogModeSel? || state.GetAnalogMode?
      modifies this
      ensures Valid() && Transferred(Model(), dataOut, ack) == AnalogSpec.Transfer(old(Model()), dataIn, analogDpadInDigitalMode)
    {
      match state
      case ConfigModeSetMode => dataOut, ack := ConfigModeSetMode(dataIn);
      case SetAnalogModeVal =>
        if dataIn == 0x00 || dataIn == 0x01 {
          SetAnalogMode(dataIn == 0x01);
        }
        dataOut, ack := FixedReply(0x00, true, SetAnalogModeSel);
      case SetAnalogModeSel =>
        if dataIn == 0x02 || dataIn == 0x03 {
          analogLocked := dataIn == 0x03;
        }
        dataOut, ack := FixedReply(0x00, true, Pad(4));
      case GetAnalogMode(n) =>
        dataOut, ack := FixedReply(GetAnalogModeReply(n, analogMode), n < 6, if n < 6 then GetAnalogMode(n + 1) else Idle);
    }

    /** `Command461`..`466`: the first byte is the parameter, the rest replies depending on it. */
    method TransferCommand46(dataIn: bv8, n: ReplyPosition) returns (dataOut: bv8, ack: bool)
      requires Valid() && state == Command46(n)
      modifies this
      ensures Valid() && Transferred(Model(), dataOut, ack) == AnalogSpec.Transfer(old(Model()), dataIn, analogDpadInDigitalMode)
    {
      if n == 1 {
        commandParam := dataIn;
        dataOut, ack := FixedReply(0x00, true, Command46(2));
      } else {
        dataOut, ack := FixedReply(Command46Reply(n, commandParam), n < 6, if n < 6 then Command46(n + 1) else Idle);
      }
    }

    /** The parameter and reply states of commands 0x47 and 0x4C. */
    method TransferQueryCommand(dataIn: bv8) returns (dataOut: bv8, ack: bool)
      requires Valid()
      requires state.Command47? || state.Command4CMode? || state.Command4C?
      modifies this
      ensures Valid() && Transferred(Model(), dataOut, ack) == AnalogSpec.Transfer(old(Model()), dataIn, analogDpadInDigitalMode)
    {
      match state
      case Command47(n) =>
        dataOut, ack := FixedReply(Command47Reply(n), n < 6, if n < 6 then Command47(n + 1) else Idle);
      case Command4CMode =>
        commandParam := dataIn;
        dataOut, ack := FixedReply(0x00, true, Command4C(1));
      case Command4C(n) =>
        dataOut, ack := FixedReply(Command4CReply(n, commandParam), n < 5, if n < 5 then Command4C(n + 1) else Idle);
    }

    /**
     * `Transfer`: one byte in, the reply out, and whether the controller
     * acknowledges; the object moves to the next transfer state. The
     * source's single switch is split by command into the methods above.
     */
    method Transfer(dataIn: bv8) returns (dataOut: bv8, ack: bool)
      requires Valid()
      modifies this, rumbleConfig, motorState
      ensures Valid() && Transferred(Model(), dataOut, ack) == AnalogSpec.Transfer(old(Model()), dataIn, analogDpadInDigitalMode)
    {
      if IsIdMsbState(state) {
        dataOut, ack := IdStateMsb(AfterIdMsb(state));
        return;
      }
      match state
      case Idle => dataOut, ack := TransferIdle(dataIn);
      case GetStateButtonsLSB => dataOut, ack := TransferPoll(dataIn);
      case GetStateButtonsMSB => dataOut, ack := TransferPoll(dataIn);
      case GetStateRightAxisX => dataOut, ack := TransferPoll(dataIn);
      case GetStateRightAxisY => dataOut, ack := TransferPoll(dataIn);
      case GetStateLeftAxisX => dataOut, ack := TransferPoll(dataIn);
      case GetStateLeftAxisY => dataOut, ack := TransferPoll(dataIn);
      case ConfigModeSetMode => dataOut, ack := TransferModeCommand(dataIn);
      case SetAnalogModeVal => dataOut, ack := TransferModeCommand(dataIn);
      case SetAnalogModeSel => dataOut, ack := TransferModeCommand(dataIn);
      case GetAnalogMode(_) => dataOut, ack := TransferModeCommand(dataIn);
      case Command46(n) => dataOut, ack := TransferCommand46(dataIn, n);
      case Command47(_) => dataOut, ack := TransferQueryCommand(dataIn);
      case Command4CMode => dataOut, ack := TransferQueryCommand(dataIn);
      case Command4C(_) => dataOut, ack := TransferQueryCommand(dataIn);
      case GetSetRumble(index) => dataOut, ack := GetSetRumble(dataIn, index);
      case Pad(left) => dataOut, ack := FixedReply(0x00, left > 1, if left > 1 then Pad(left - 1) else Idle);
    }
  }
}
