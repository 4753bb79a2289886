/**
 * What the analog controller's protocol promises: which command bytes it
 * answers, when it acknowledges, how button presses reach the reported
 * state, and how the rumble configuration and mode toggles behave.
 */
module AnalogProperties {
  import opened AnalogSpec

  // ===== buttons =====

  /** Two different buttons occupy different bits. */
  lemma ButtonBitsDistinct(code: Button, other: Button)
    requires code < 16 && other < 16 && code != other
    ensures ButtonBit(code) & ButtonBit(other) == 0
  {
  }

  /** Every button has a bit. */
  lemma ButtonBitNonZero(code: Button)
    requires code < 16
    ensures ButtonBit(code) != 0
  {
  }

  /** Clearing or setting the bits of `m` leaves the bits of a disjoint `n` as they were. */
  lemma DisjointMasks(b: bv16, m: bv16, n: bv16)
    requires m & n == 0
    ensures (b & !m) & n == b & n && (b | m) & n == b & n
  {
  }

  /** Setting the bits of `m` makes them all set; clearing them makes them all clear. */
  lemma SetAndClear(b: bv16, m: bv16)
    ensures (b & !m) & m == 0 && (b | m) & m == m
  {
  }

  /** Clearing the bits of `m` and setting them again restores a state in which they were set. */
  lemma ClearThenSet(b: bv16, m: bv16)
    requires b & m == m
    ensures (b & !m) | m == b
  {
  }

  /** Pressing or releasing one button leaves another button's bit as it was. */
  lemma OtherBitKept(buttons: bv16, code: Button, other: Button)
    requires code < 16 && other < 16 && other != code
    ensures Press(buttons, code) & ButtonBit(other) == buttons & ButtonBit(other)
    ensures Release(buttons, code) & ButtonBit(other) == buttons & ButtonBit(other)
  {
    ButtonBitsDistinct(code, other);
    DisjointMasks(buttons, ButtonBit(code), ButtonBit(other));
  }

  /** Pressing a button clears its bit; releasing it sets it. */
  lemma PressClearsReleaseSets(buttons: bv16, code: Button)
    requires code < 16
    ensures Held(Press(buttons, code), code) && !Held(Release(buttons, code), code)
  {
    ButtonBitNonZero(code);
    SetAndClear(buttons, ButtonBit(code));
  }

  /** Pressing a button changes no other button. */
  lemma PressKeepsOthers(buttons: bv16, code: Button, other: Button)
    requires code < 16 && other < 16 && other != code
    ensures Held(Press(buttons, code), other) <==> Held(buttons, other)
  {
    OtherBitKept(buttons, code, other);
  }

  /** Releasing a button changes no other button. */
  lemma ReleaseKeepsOthers(buttons: bv16, code: Button, other: Button)
    requires code < 16 && other < 16 && other != code
    ensures Held(Release(buttons, code), other) <==> Held(buttons, other)
  {
    OtherBitKept(buttons, code, other);
  }

  /**
   * `SetButtonState(Button, bool)` on a face, shoulder, stick or D-pad
   * button: the button is held afterwards exactly when `pressed`, and no mode
   * toggle is queued.
   */
  lemma SetButtonHeld(c: Controller, code: Button, pressed: bool)
    requires code < 16
    ensures var t := SetButton(c, code, pressed);
      (Held(t.buttons, code) <==> pressed) && t == c.(buttons := t.buttons)
  {
    PressClearsReleaseSets(c.buttons, code);
  }

  /** ... and every other button keeps its state. */
  lemma SetButtonKeepsOthers(c: Controller, code: Button, pressed: bool, other: Button)
    requires code < 16 && other < 16 && other != code
    ensures Held(SetButton(c, code, pressed).buttons, other) <==> Held(c.buttons, other)
  {
    if pressed {
      PressKeepsOthers(c.buttons, code, other);
    } else {
      ReleaseKeepsOthers(c.buttons, code, other);
    }
  }

  /** The Analog button changes no button bit; pressing it queues a mode toggle, releasing it does nothing. */
  lemma SetButtonAnalog(c: Controller, pressed: bool)
    ensures var t := SetButton(c, BUTTON_ANALOG, pressed);
      && t.buttons == c.buttons
      && t.analogToggleQueued == (c.analogToggleQueued || pressed)
      && (!pressed ==> t == c)
  {
  }

  /** A code outside the button range is ignored. */
  lemma SetButtonStateOutOfRange(c: Controller, code: int, pressed: bool)
    requires code < 0 || code >= BUTTON_COUNT
    ensures SetButtonState(c, code, pressed) == c
  {
  }

  /** A single button's bit is either all set or all clear in any state. */
  lemma SingleBit(b: bv16, code: Button)
    requires code < 16
    ensures b & ButtonBit(code) == 0 || b & ButtonBit(code) == ButtonBit(code)
  {
  }

  /** A button that is not held has its bit set. */
  lemma NotHeldBitSet(b: bv16, code: Button)
    requires code < 16 && !Held(b, code)
    ensures b & ButtonBit(code) == ButtonBit(code)
  {
    SingleBit(b, code);
  }

  /** Releasing a button just pressed restores a button state in which it was up. */
  lemma ReleaseUndoesPress(b: bv16, code: Button)
    requires code < 16 && !Held(b, code)
    ensures Release(Press(b, code), code) == b
  {
    NotHeldBitSet(b, code);
    ClearThenSet(b, ButtonBit(code));
  }

  /** Pressing then releasing a button that was up leaves the controller as it was. */
  lemma PressReleaseRoundTrip(c: Controller, code: Button)
    requires code < 16 && !Held(c.buttons, code)
    ensures SetButton(SetButton(c, code, true), code, false) == c
  {
    ReleaseUndoesPress(c.buttons, code);
  }

  /** Within a mask whose bits are all set or all clear, the complement is non-zero iff they were clear. */
  lemma ComplementMask(b: bv16, m: bv16)
    requires m != 0 && (b & m == 0 || b & m == m)
    ensures (!b) & m != 0 <==> b & m == 0
  {
  }

  /** A button's bit is set in the complemented button state exactly when the button is held. */
  lemma ComplementHeld(b: bv16, code: Button)
    requires code < 16
    ensures (!b) & ButtonBit(code) != 0 <==> Held(b, code)
  {
    SingleBit(b, code);
    ButtonBitNonZero(code);
    ComplementMask(b, ButtonBit(code));
  }

  /**
   * `GetButtonStateBits` reports the buttons active high: the word is the
   * complement of the button state, zero above bit 15, so by
   * `ComplementHeld` a button's bit is set exactly when it is held.
   */
  lemma ButtonStateBitsActiveHigh(c: Controller)
    ensures GetButtonStateBits(c) == (!c.buttons) as bv32
    ensures GetButtonStateBits(c) >> 16 == 0
  {
  }

  // ===== the D-pad emulated by the left stick =====

  /**
   * With the setting on, in digital mode and outside configuration mode, the
   * left stick tilted to a threshold or beyond clears the D-pad bit for that
   * direction in the low button byte; the other six bits are never cleared.
   * Otherwise the mask clears nothing.
   */
  lemma ExtraButtonMask(c: Controller, setting: bool)
    ensures var m := GetExtraButtonMaskLSB(c, setting);
      && (!setting || c.analogMode || c.configurationMode ==> m == 0xFF)
      && m & 0x0F == 0x0F
      && (setting && !c.analogMode && !c.configurationMode ==>
           && (m & 0x80 == 0 <==> c.axes[AXIS_LEFT_X] <= NEG_THRESHOLD)
           && (m & 0x20 == 0 <==> c.axes[AXIS_LEFT_X] >= POS_THRESHOLD)
           && (m & 0x10 == 0 <==> c.axes[AXIS_LEFT_Y] <= NEG_THRESHOLD)
           && (m & 0x40 == 0 <==> c.axes[AXIS_LEFT_Y] >= POS_THRESHOLD))
  {
  }

  /** A stick at rest (0x80) never presses the D-pad. */
  lemma CentredStickPressesNothing(c: Controller, setting: bool)
    requires c.axes[AXIS_LEFT_X] == 0x80 && c.axes[AXIS_LEFT_Y] == 0x80
    ensures GetExtraButtonMaskLSB(c, setting) == 0xFF
  {
    ExtraButtonMask(c, setting);
  }

  // ===== the Idle state =====

  /**
   * From Idle, 0x42 (poll) and 0x43 (configuration mode) are always
   * accepted; 0x44-0x47, 0x4C and 0x4D only in configuration mode. An
   * accepted byte is acknowledged with the identifier's low byte and starts
   * its command; any other byte leaves the controller untouched, replies
   * 0xFF and is acknowledged only when it is 0x01.
   */
  lemma IdleAcceptance(c: Controller, dataIn: bv8, setting: bool)
    requires c.state == Idle
    ensures var r := Transfer(c, dataIn, setting);
      var accepted := dataIn == 0x42 || dataIn == 0x43 || (c.configurationMode && IsConfigCommand(dataIn));
      && (accepted <==> r.next.state != Idle)
      && (accepted ==> r.ack && r.dataOut == IdLow(c) && IsIdMsbState(r.next.state))
      && (!accepted ==> r.next == c && r.dataOut == 0xFF && (r.ack <==> dataIn == 0x01))
  {
  }

  /** Outside configuration mode the configuration commands are not recognised. */
  lemma ConfigCommandsNeedConfigMode(c: Controller, dataIn: bv8, setting: bool)
    requires c.state == Idle && !c.configurationMode && dataIn != 0x42 && dataIn != 0x43
    ensures Transfer(c, dataIn, setting) == Transferred(c, 0xFF, dataIn == 0x01)
  {
  }

  /** 0x4D in configuration mode unlocks rumble and unmaps both motors before their bytes are exchanged. */
  lemma UnlockRumbleCommand(c: Controller, setting: bool)
    requires c.state == Idle && c.configurationMode
    ensures var r := Transfer(c, 0x4D, setting);
      && r.next.state == UnlockRumbleIDMSB && r.ack
      && r.next.rumble == c.rumble.(unlocked := true, largeMotorIndex := -1, smallMotorIndex := -1)
  {
  }

  /** The identifier's high byte, the reply in every identifier-MSB state, is 0x5A whatever the mode. */
  lemma IdMsbReply(c: Controller, dataIn: bv8, setting: bool)
    requires IsIdMsbState(c.state)
    ensures var r := Transfer(c, dataIn, setting);
      r.dataOut == 0x5A && r.ack && r.next == c.(state := AfterIdMsb(c.state))
  {
  }

  // ===== acknowledgement =====

  /**
   * The controller acknowledges a byte exactly when it expects another one:
   * outside Idle, `ack` holds iff the transfer continues, and it never
   * leaves Idle without acknowledging.
   */
  lemma AckIffContinues(c: Controller, dataIn: bv8, setting: bool)
    ensures var r := Transfer(c, dataIn, setting);
      && (c.state != Idle ==> (r.ack <==> r.next.state != Idle))
      && (r.next.state != Idle ==> r.ack)
  {
  }

  /** The state that ends each command: it returns to Idle without acknowledging. */
  predicate IsTerminalState(st: TransferState) {
    || st == GetStateLeftAxisY || st == GetAnalogMode(6) || st == Command46(6) || st == Command47(6)
    || st == Command4C(5) || st == GetSetRumble(5) || st == Pad(1)
  }

  lemma TerminalStates(c: Controller, dataIn: bv8, setting: bool)
    requires IsTerminalState(c.state)
    ensures var r := Transfer(c, dataIn, setting);
      r.next.state == Idle && !r.ack
  {
    if c.state.GetSetRumble? {
      ExchangeStep(c, 5, dataIn);
    }
  }

  // ===== polling =====

  /**
   * The second button byte: the poll goes on to the right stick, with an
   * acknowledgement, only in analog or configuration mode; in digital mode
   * it ends in Idle without one. The reply is the high button byte.
   */
  lemma ButtonsMsbContinuesInAnalogMode(c: Controller, dataIn: bv8, setting: bool)
    requires c.state == GetStateButtonsMSB
    ensures var r := Transfer(c, dataIn, setting);
      && (r.ack <==> c.analogMode || c.configurationMode)
      && r.next.state == (if r.ack then GetStateRightAxisX else Idle)
      && r.dataOut == High(c.buttons)
  {
  }

  /**
   * The start of every poll from Idle: the address byte 0x01 is answered
   * with 0xFF, the command 0x42 with the identifier's low byte, the next
   * byte with 0x5A; all three are acknowledged and nothing but the transfer
   * state changes.
   */
  lemma PollPreamble(c: Controller, third: bv8, setting: bool)
    requires c.state == Idle
    ensures var r0 := Transfer(c, 0x01, setting);
      var r1 := Transfer(r0.next, 0x42, setting);
      var r2 := Transfer(r1.next, third, setting);
      && [r0.dataOut, r1.dataOut, r2.dataOut] == [0xFF, IdLow(c), 0x5A]
      && r0.ack && r1.ack && r2.ack
      && r2.next == c.(state := GetStateButtonsLSB)
  {
  }

  /**
   * The rest of a digital-mode poll with rumble locked: the two button
   * bytes, low then high, only the first acknowledged, and back to Idle.
   */
  lemma DigitalPollButtons(c: Controller, setting: bool)
    requires c.state == GetStateButtonsLSB && !c.analogMode && !c.configurationMode && !c.rumble.unlocked
    ensures var r3 := Transfer(c, 0x00, setting);
      var r4 := Transfer(r3.next, 0x00, setting);
      && [r3.dataOut, r4.dataOut] == [Low(c.buttons) & GetExtraButtonMaskLSB(c, setting), High(c.buttons)]
      && r3.ack && !r4.ack
      && r4.next.state == Idle
  {
  }

  /**
   * The button bytes of an analog-mode poll with rumble locked: low byte
   * then high byte, unmasked, both acknowledged, continuing with the right
   * stick; sticks and mode are left as they were.
   */
  lemma AnalogPollButtons(c: Controller, setting: bool)
    requires c.state == GetStateButtonsLSB && c.analogMode && !c.rumble.unlocked
    ensures var r3 := Transfer(c, 0x00, setting);
      var r4 := Transfer(r3.next, 0x00, setting);
      && [r3.dataOut, r4.dataOut] == [Low(c.buttons), High(c.buttons)]
      && r3.ack && r4.ack
      && r4.next.state == GetStateRightAxisX && r4.next.axes == c.axes && !r4.next.rumble.unlocked
  {
    var r3 := Transfer(c, 0x00, setting);
    assert r3 == TransferButtonsLsb(c, 0x00, setting);
    assert Transfer(r3.next, 0x00, setting) == TransferButtonsMsb(r3.next, 0x00);
  }

  /**
   * The stick bytes of a poll with rumble locked: right X, right Y, left X,
   * left Y, every byte but the last acknowledged, then Idle.
   */
  lemma PollSticks(c: Controller, a: bv8, b: bv8, d: bv8, e: bv8, setting: bool)
    requires c.state == GetStateRightAxisX && !c.rumble.unlocked
    ensures var r5 := Transfer(c, a, setting);
      var r6 := Transfer(r5.next, b, setting);
      var r7 := Transfer(r6.next, d, setting);
      var r8 := Transfer(r7.next, e, setting);
      && [r5.dataOut, r6.dataOut, r7.dataOut, r8.dataOut]
         == [c.axes[AXIS_RIGHT_X], c.axes[AXIS_RIGHT_Y], c.axes[AXIS_LEFT_X], c.axes[AXIS_LEFT_Y]]
      && r5.ack && r6.ack && r7.ack && !r8.ack
      && r8.next == c.(state := Idle)
  {
  }

  // ===== configuration mode =====

  /**
   * The byte after 0x43's identifier: configuration mode is entered iff it
   * is 1 (left otherwise). From outside configuration mode the command
   * doubles as a poll and replies the low button byte, continuing with the
   * high one; from within it replies 0x00 and pads five more bytes.
   */
  lemma ConfigModeSetModeReply(c: Controller, dataIn: bv8, setting: bool)
    requires c.state == ConfigModeSetMode
    ensures var r := Transfer(c, dataIn, setting);
      && r.next.configurationMode == (dataIn == 1) && r.ack
      && (c.configurationMode ==> r.dataOut == 0x00 && r.next.state == Pad(5))
      && (!c.configurationMode ==> r.dataOut == Low(c.buttons) && r.next.state == GetStateButtonsMSB)
      && r.next == c.(configurationMode := dataIn == 1, state := r.next.state)
  {
    assert Transfer(c, dataIn, setting) == TransferConfigModeSetMode(c, dataIn);
  }

  /**
   * Command 0x44: the first parameter 0x00/0x01 selects digital/analog mode
   * (other values keep the mode); the second 0x02/0x03 unlocks/locks it
   * (other values keep the lock).
   */
  lemma SetAnalogModeCommand(c: Controller, mode: bv8, lock: bv8, setting: bool)
    requires c.state == SetAnalogModeVal
    ensures var r1 := Transfer(c, mode, setting);
      var r2 := Transfer(r1.next, lock, setting);
      && r2.next.analogMode == (if mode == 0x00 || mode == 0x01 then mode == 0x01 else c.analogMode)
      && r2.next.analogLocked == (if lock == 0x02 || lock == 0x03 then lock == 0x03 else c.analogLocked)
      && r2.next.state == Pad(4) && r1.ack && r2.ack
  {
  }

  /** Command 0x45's third reply byte tells the mode: 0x01 analog, 0x00 digital. */
  lemma GetAnalogModeReportsMode(c: Controller, dataIn: bv8, setting: bool)
    requires c.state == GetAnalogMode(3)
    ensures Transfer(c, dataIn, setting).dataOut == (if c.analogMode then 0x01 else 0x00)
  {
  }

  /** Command 0x4C's third reply byte: 0x04 after mode byte 0x00, 0x07 after 0x01, else 0x00. */
  lemma Command4CReportsActuator(c: Controller, dataIn: bv8, setting: bool)
    requires c.state == Command4C(3)
    ensures Transfer(c, dataIn, setting).dataOut ==
      (if c.commandParam == 0x00 then 0x04 else if c.commandParam == 0x01 then 0x07 else 0x00)
  {
  }

  // ===== rumble =====

  /**
   * Each configuration byte of command 0x4D is exchanged: the old byte is
   * the reply, the input is stored, and an input of 0x00 maps the small
   * motor, 0x01 the large motor, to that byte.
   */
  lemma GetSetRumbleExchange(c: Controller, dataIn: bv8, setting: bool)
    requires c.state.GetSetRumble?
    ensures var i := c.state.index;
      var r := Transfer(c, dataIn, setting);
      && r.dataOut == c.rumble.config[i]
      && r.next.rumble.config == c.rumble.config[i := dataIn]
      && (dataIn == 0x00 ==> r.next.rumble.smallMotorIndex == i)
      && (dataIn == 0x01 ==> r.next.rumble.largeMotorIndex == i)
      && (dataIn != 0x00 ==> r.next.rumble.smallMotorIndex == c.rumble.smallMotorIndex)
      && (dataIn != 0x01 ==> r.next.rumble.largeMotorIndex == c.rumble.largeMotorIndex)
      && (r.ack <==> i < 5)
  {
    assert Transfer(c, dataIn, setting) == TransferGetSetRumble(c, c.state.index, dataIn);
    ExchangeStep(c, c.state.index, dataIn);
  }

  /** One configuration byte exchanged, stated on `TransferGetSetRumble` directly. */
  lemma ExchangeStep(c: Controller, i: ConfigIndex, dataIn: bv8)
    ensures var r := TransferGetSetRumble(c, i, dataIn);
      var u := ExchangeConfigByte(c.rumble, i, dataIn);
      && r.dataOut == c.rumble.config[i]
      && r.next.rumble.config == u.config
      && r.next.rumble.smallMotorIndex == u.smallMotorIndex
      && r.next.rumble.largeMotorIndex == u.largeMotorIndex
      && (r.ack <==> i < 5)
  {
  }

  /** Exchanging the same configuration byte again replies what the previous exchange stored. */
  lemma GetSetRumbleRoundTrip(c: Controller, dataIn: bv8, again: bv8, setting: bool)
    requires c.state.GetSetRumble?
    ensures var r := Transfer(c, dataIn, setting);
      Transfer(r.next.(state := c.state), again, setting).dataOut == dataIn
  {
  }

  /**
   * After the sixth byte: a motor left unmapped is stopped, a mapped one
   * keeps running, and rumble locks again exactly when neither is mapped.
   */
  lemma GetSetRumbleFinish(c: Controller, dataIn: bv8, setting: bool)
    requires c.state == GetSetRumble(5)
    ensures var r := Transfer(c, dataIn, setting);
      var large := r.next.rumble.largeMotorIndex;
      var small := r.next.rumble.smallMotorIndex;
      && (large == -1 ==> r.next.rumble.motors[LARGE_MOTOR] == 0)
      && (large != -1 ==> r.next.rumble.motors[LARGE_MOTOR] == c.rumble.motors[LARGE_MOTOR])
      && (small == -1 ==> r.next.rumble.motors[SMALL_MOTOR] == 0)
      && (small != -1 ==> r.next.rumble.motors[SMALL_MOTOR] == c.rumble.motors[SMALL_MOTOR])
      && r.next.rumble.unlocked == (c.rumble.unlocked && !(large == -1 && small == -1))
  {
  }

  /** With no motor mapped, a configuration byte drives nothing; the small motor wins when both are mapped to it. */
  lemma MotorForConfigIndex(r: Rumble, index: ConfigIndex, value: bv8)
    ensures var t := SetMotorStateForConfigIndex(r, index, value);
      && (r.smallMotorIndex != index && r.largeMotorIndex != index ==> t == r)
      && (r.smallMotorIndex == index ==> t.motors == [r.motors[LARGE_MOTOR], SmallMotorValue(value)])
      && (r.smallMotorIndex != index && r.largeMotorIndex == index ==> t.motors == [value, r.motors[SMALL_MOTOR]])
  {
  }

  /** After `ResetRumbleConfig` no configuration byte drives a motor, and every byte reads back as 0xFF. */
  lemma ResetRumbleConfigDrivesNothing(index: ConfigIndex, value: bv8)
    ensures SetMotorStateForConfigIndex(ResetRumbleConfig(), index, value) == ResetRumbleConfig()
    ensures ResetRumbleConfig().config[index] == 0xFF
  {
  }

  /**
   * A poll's button bytes when rumble is locked: a first byte in 0x40-0x7F
   * arms the legacy small-motor control, any other first byte stops the
   * small motor. If the control is armed after the first byte (by it, or
   * left armed by an earlier poll that never reached its second byte), the
   * second byte's bit 0 drives the small motor and disarms the control;
   * otherwise the small motor stays stopped. The large motor is untouched.
   */
  lemma LegacyRumble(c: Controller, first: bv8, second: bv8, setting: bool)
    requires c.state == GetStateButtonsLSB && !c.rumble.unlocked
    ensures var r1 := Transfer(c, first, setting);
      var r2 := Transfer(r1.next, second, setting);
      var armed := 0x40 <= first <= 0x7F || c.rumble.legacyUnlocked;
      && r1.next.rumble.legacyUnlocked == armed
      && r2.next.rumble.motors[SMALL_MOTOR] == (if armed then SmallMotorValue(second) else 0)
      && !r2.next.rumble.legacyUnlocked
      && r2.next.rumble.motors[LARGE_MOTOR] == c.rumble.motors[LARGE_MOTOR]
  {
    assert Transfer(c, first, setting) == TransferButtonsLsb(c, first, setting);
    var r1 := Transfer(c, first, setting);
    assert Transfer(r1.next, second, setting) == TransferButtonsMsb(r1.next, second);
  }

  /**
   * The legacy arming survives the end of a transfer: `ResetTransferState`
   * keeps it unless a queued Analog-button toggle fires and resets the
   * rumble configuration.
   */
  lemma LegacyArmingSurvivesReset(c: Controller)
    ensures ResetTransferState(c).rumble.legacyUnlocked
            == (c.rumble.legacyUnlocked && !(c.analogToggleQueued && !c.analogLocked))
  {
  }

  // ===== mode toggles and reset =====

  /**
   * `ResetTransferState` always ends in Idle with no toggle queued. A queued
   * toggle flips the mode and resets the rumble configuration unless the
   * mode is locked; otherwise mode and rumble are kept.
   */
  lemma ResetTransferStateToggle(c: Controller)
    ensures var t := ResetTransferState(c);
      var flip := c.analogToggleQueued && !c.analogLocked;
      && t.state == Idle && !t.analogToggleQueued
      && t.analogMode == (if flip then !c.analogMode else c.analogMode)
      && t.rumble == (if flip then ResetRumbleConfig() else c.rumble)
      && t == c.(state := Idle, analogToggleQueued := false, analogMode := t.analogMode, rumble := t.rumble)
  {
  }

  /** Toggling twice with the Analog button (mode unlocked) returns to the original mode. */
  lemma ToggleTwice(c: Controller)
    requires !c.analogLocked
    ensures var t := ResetTransferState(SetButton(ResetTransferState(SetButton(c, BUTTON_ANALOG, true)), BUTTON_ANALOG, true));
      t.analogMode == c.analogMode && t.rumble == ResetRumbleConfig()
  {
    ResetTransferStateToggle(SetButton(c, BUTTON_ANALOG, true));
  }

  /**
   * `Reset`: Idle, outside configuration mode, rumble configuration reset,
   * and digital mode unless the controller is set to force analog mode on
   * reset and forcing is not disabled; buttons, sticks, lock and queued
   * toggle are kept.
   */
  lemma ResetController(c: Controller, force: bool, disable: bool)
    ensures var t := Reset(c, force, disable);
      && t.state == Idle && !t.configurationMode && t.commandParam == 0
      && t.analogMode == (force && !disable)
      && GetID(t) == (if force && !disable then ANALOG_MODE_ID else DIGITAL_MODE_ID)
      && t.rumble == ResetRumbleConfig()
      && t.buttons == c.buttons && t.axes == c.axes
      && t.analogLocked == c.analogLocked && t.analogToggleQueued == c.analogToggleQueued
  {
  }
}
