/**
 * The command side of src/CommandMessenger.cpp: the table of callbacks that
 * attachCommandCallbacks installs, the dispatch of a decoded command to its
 * handler or to the default one, and what the handlers shown in that file
 * do. Handlers of other files are opaque: the model records that they ran.
 */
module Commands {

  import opened Clock
  import opened Board
  import opened Selection
  import opened PowerSaving

  /** One `cmdMessenger.attach(code, handler)` call. */
  datatype Registration = Registration(code: Code, handler: Handler)

  // The attach calls of attachCommandCallbacks after the default one, block by
  // block as its #ifdefs group them.

  /** Compiled in with MF_SEGMENT_SUPPORT. */
  const SEGMENT_CALLBACKS: seq<Registration> := [
    Registration(kInitModule, LedSegmentOnInitModule),
    Registration(kSetModule, LedSegmentOnSetModule),
    Registration(kSetModuleBrightness, LedSegmentOnSetModuleBrightness),
    Registration(kSetModuleSingleSegment, LedSegmentOnSetModuleSingleSegment)
  ]

  /** Always compiled in. */
  const OUTPUT_CALLBACKS: seq<Registration> := [
    Registration(kSetPin, OutputOnSet)
  ]

  /** Compiled in with MF_STEPPER_SUPPORT. */
  const STEPPER_CALLBACKS: seq<Registration> := [
    Registration(kSetStepper, StepperOnSet),
    Registration(kResetStepper, StepperOnReset),
    Registration(kSetZeroStepper, StepperOnSetZero),
    Registration(kSetStepperSpeedAccel, StepperOnSetSpeedAccel)
  ]

  /** Compiled in with MF_SERVO_SUPPORT. */
  const SERVO_CALLBACKS: seq<Registration> := [
    Registration(kSetServo, ServosOnSet)
  ]

  /** Always compiled in. */
  const CORE_CALLBACKS: seq<Registration> := [
    Registration(kGetInfo, OnGetInfo),
    Registration(kGetConfig, OnGetConfig),
    Registration(kSetConfig, OnSetConfig),
    Registration(kResetConfig, OnResetConfig),
    Registration(kSaveConfig, OnSaveConfig),
    Registration(kActivateConfig, OnActivateConfig),
    Registration(kSetName, OnSetName),
    Registration(kGenNewSerial, OnGenNewSerial),
    Registration(kTrigger, OnTrigger),
    Registration(kSetPowerSavingMode, OnSetPowerSavingMode)
  ]

  /** Compiled in with MF_LCD_SUPPORT. */
  const LCD_CALLBACKS: seq<Registration> := [
    Registration(kSetLcdDisplayI2C, LCDDisplayOnSet)
  ]

  /** Compiled in with MF_OUTPUT_SHIFTER_SUPPORT. */
  const OUTPUT_SHIFTER_CALLBACKS: seq<Registration> := [
    Registration(kSetShiftRegisterPins, OutputShifterOnSet)
  ]

  /** Compiled in with MF_CUSTOMDEVICE_SUPPORT. */
  const CUSTOM_DEVICE_CALLBACKS: seq<Registration> := [
    Registration(kSetCustomDevice, CustomDeviceOnSet)
  ]

  /** Every attach call after the default one, in order. */
  const CALLBACKS: seq<Registration> :=
    SEGMENT_CALLBACKS
    + OUTPUT_CALLBACKS
    + STEPPER_CALLBACKS
    + SERVO_CALLBACKS
    + CORE_CALLBACKS
    + LCD_CALLBACKS
    + OUTPUT_SHIFTER_CALLBACKS
    + CUSTOM_DEVICE_CALLBACKS

  /** Position of a code's attach call in attachCommandCallbacks; 23 for codes never attached. */
  function CodeRank(c: Code): nat
  {
    match c
    case kInitModule => 0
    case kSetModule => 1
    case kSetModuleBrightness => 2
    case kSetModuleSingleSegment => 3
    case kSetPin => 4
    case kSetStepper => 5
    case kResetStepper => 6
    case kSetZeroStepper => 7
    case kSetStepperSpeedAccel => 8
    case kSetServo => 9
    case kGetInfo => 10
    case kGetConfig => 11
    case kSetConfig => 12
    case kResetConfig => 13
    case kSaveConfig => 14
    case kActivateConfig => 15
    case kSetName => 16
    case kGenNewSerial => 17
    case kTrigger => 18
    case kSetPowerSavingMode => 19
    case kSetLcdDisplayI2C => 20
    case kSetShiftRegisterPins => 21
    case kSetCustomDevice => 22
    case _ => 23
  }

  function RegistrationRank(r: Registration): nat
  {
    CodeRank(r.code)
  }

  /** Whether an attach call is compiled in (the #ifdef around it). */
  predicate Attached(f: Features, r: Registration)
  {
    match r.handler
    case LedSegmentOnInitModule => f.segment
    case LedSegmentOnSetModule => f.segment
    case LedSegmentOnSetModuleBrightness => f.segment
    case LedSegmentOnSetModuleSingleSegment => f.segment
    case StepperOnSet => f.stepper
    case StepperOnReset => f.stepper
    case StepperOnSetZero => f.stepper
    case StepperOnSetSpeedAccel => f.stepper
    case ServosOnSet => f.servo
    case LCDDisplayOnSet => f.lcd
    case OutputShifterOnSet => f.outputShifter
    case CustomDeviceOnSet => f.customDevice
    case _ => true
  }

  function IsAttached(f: Features): Registration -> bool
  {
    (r: Registration) => Attached(f, r)
  }

  predicate DistinctCodes(regs: seq<Registration>)
  {
    forall i, j :: 0 <= i < j < |regs| ==> regs[i].code != regs[j].code
  }

  /** The calls `regs` sit at positions lo, lo + 1, ... of attachCommandCallbacks. */
  predicate RanksFrom(regs: seq<Registration>, lo: nat)
  {
    forall i :: 0 <= i < |regs| ==> RegistrationRank(regs[i]) == lo + i
  }

  lemma RanksFromAppend(a: seq<Registration>, b: seq<Registration>, lo: nat)
    requires RanksFrom(a, lo) && RanksFrom(b, lo + |a|)
    ensures RanksFrom(a + b, lo)
  {
    forall i | 0 <= i < |a + b| ensures RegistrationRank((a + b)[i]) == lo + i {
      if i < |a| {
        assert (a + b)[i] == a[i];
      } else {
        assert (a + b)[i] == b[i - |a|];
      }
    }
  }

  lemma CoreCallbacksRanked()
    ensures RanksFrom(CORE_CALLBACKS, 10)
  {
    forall i | 0 <= i < |CORE_CALLBACKS| ensures RegistrationRank(CORE_CALLBACKS[i]) == 10 + i {
      if i < 5 {
        assert i == 0 || i == 1 || i == 2 || i == 3 || i == 4;
      } else {
        assert i == 5 || i == 6 || i == 7 || i == 8 || i == 9;
      }
    }
  }

  /** Each #ifdef block holds the positions after the previous one's. */
  lemma FirstBlocksRanked()
    ensures RanksFrom(SEGMENT_CALLBACKS, 0) && RanksFrom(OUTPUT_CALLBACKS, 4)
    ensures RanksFrom(STEPPER_CALLBACKS, 5) && RanksFrom(SERVO_CALLBACKS, 9)
  {
    assert RanksFrom(SEGMENT_CALLBACKS, 0);
    assert RanksFrom(STEPPER_CALLBACKS, 5);
  }

  lemma LastBlocksRanked()
    ensures RanksFrom(CORE_CALLBACKS, 10) && RanksFrom(LCD_CALLBACKS, 20)
    ensures RanksFrom(OUTPUT_SHIFTER_CALLBACKS, 21) && RanksFrom(CUSTOM_DEVICE_CALLBACKS, 22)
  {
    CoreCallbacksRanked();
  }

  /** Each attach call sits at the position CodeRank gives its code, so no code is attached twice. */
  lemma CallbacksInAttachOrder()
    ensures RanksFrom(CALLBACKS, 0)
    ensures Increasing(CALLBACKS, RegistrationRank)
  {
    FirstBlocksRanked();
    LastBlocksRanked();
    ghost var p1 := SEGMENT_CALLBACKS;
    RanksFromAppend(p1, OUTPUT_CALLBACKS, 0);
    ghost var p2 := p1 + OUTPUT_CALLBACKS;
    RanksFromAppend(p2, STEPPER_CALLBACKS, 0);
    ghost var p3 := p2 + STEPPER_CALLBACKS;
    RanksFromAppend(p3, SERVO_CALLBACKS, 0);
    ghost var p4 := p3 + SERVO_CALLBACKS;
    RanksFromAppend(p4, CORE_CALLBACKS, 0);
    ghost var p5 := p4 + CORE_CALLBACKS;
    RanksFromAppend(p5, LCD_CALLBACKS, 0);
    ghost var p6 := p5 + LCD_CALLBACKS;
    RanksFromAppend(p6, OUTPUT_SHIFTER_CALLBACKS, 0);
    ghost var p7 := p6 + OUTPUT_SHIFTER_CALLBACKS;
    RanksFromAppend(p7, CUSTOM_DEVICE_CALLBACKS, 0);
    ghost var p8 := p7 + CUSTOM_DEVICE_CALLBACKS;
    assert p8 == CALLBACKS;
  }

  /** The attach calls this build makes, in order. */
  function Registrations(f: Features): seq<Registration>
  {
    Keep(CALLBACKS, IsAttached(f))
  }

  /** The attach calls of a build are exactly its compiled-in ones, each with its own code. */
  lemma RegistrationsAreTheCompiledCalls(f: Features)
    ensures DistinctCodes(Registrations(f))
    ensures forall r :: r in Registrations(f) <==> r in CALLBACKS && Attached(f, r)
  {
    CallbacksInAttachOrder();
    KeepIsOrderedSubsequence(CALLBACKS, IsAttached(f), RegistrationRank);
  }

  /**
   * The handler table after the attach calls `regs`, made in order on the
   * table `base` (a later call for a code replaces an earlier one).
   */
  function BuildTable(base: map<Code, Handler>, regs: seq<Registration>): map<Code, Handler>
    decreases |regs|
  {
    if regs == [] then base
    else
      var last := regs[|regs| - 1];
      BuildTable(base, regs[..|regs| - 1])[last.code := last.handler]
  }

  /** The table attachCommandCallbacks leaves in this build. */
  function Table(f: Features): map<Code, Handler>
  {
    BuildTable(map[], Registrations(f))
  }

  lemma BuildTableSnoc(base: map<Code, Handler>, regs: seq<Registration>, r: Registration)
    ensures BuildTable(base, regs + [r]) == BuildTable(base, regs)[r.code := r.handler]
  {
    assert (regs + [r])[..|regs|] == regs;
  }

  /** Attaching two lists in turn is attaching their concatenation. */
  lemma {:induction false} BuildTableAppend(base: map<Code, Handler>, a: seq<Registration>, b: seq<Registration>)
    ensures BuildTable(base, a + b) == BuildTable(BuildTable(base, a), b)
    decreases |b|
  {
    if b == [] {
      assert a + b == a;
    } else {
      var n := |b| - 1;
      assert a + b == (a + b[..n]) + [b[n]];
      assert b == b[..n] + [b[n]];
      BuildTableSnoc(base, a + b[..n], b[n]);
      BuildTableSnoc(BuildTable(base, a), b[..n], b[n]);
      BuildTableAppend(base, a, b[..n]);
    }
  }

  /** One attach calls in a row, one map update each. */
  lemma BuildTable1(m: map<Code, Handler>, a: Registration)
    ensures BuildTable(m, [a]) == m[a.code := a.handler]
  {
    assert [] + [a] == [a];
    BuildTableSnoc(m, [], a);
  }

  /** Four attach calls in a row, one map update each. */
  lemma BuildTable4(m: map<Code, Handler>, a: Registration, b: Registration, c: Registration, d: Registration)
    ensures BuildTable(m, [a, b, c, d]) == m[a.code := a.handler][b.code := b.handler][c.code := c.handler][d.code := d.handler]
  {
    assert [] + [a] == [a];
    BuildTableSnoc(m, [], a);
    assert [a] + [b] == [a, b];
    BuildTableSnoc(m, [a], b);
    assert [a, b] + [c] == [a, b, c];
    BuildTableSnoc(m, [a, b], c);
    assert [a, b, c] + [d] == [a, b, c, d];
    BuildTableSnoc(m, [a, b, c], d);
  }

  /** Five attach calls in a row, one map update each. */
  lemma BuildTable5(m: map<Code, Handler>, a: Registration, b: Registration, c: Registration, d: Registration, e: Registration)
    ensures BuildTable(m, [a, b, c, d, e]) == m[a.code := a.handler][b.code := b.handler][c.code := c.handler][d.code := d.handler][e.code := e.handler]
  {
    BuildTable4(m, a, b, c, d);
    assert [a, b, c, d] + [e] == [a, b, c, d, e];
    BuildTableSnoc(m, [a, b, c, d], e);
  }

  /** Ten attach calls in a row, one map update each. */
  lemma BuildTable10(m: map<Code, Handler>, a: Registration, b: Registration, c: Registration, d: Registration, e: Registration,
                     f: Registration, g: Registration, h: Registration, i: Registration, j: Registration)
    ensures BuildTable(m, [a, b, c, d, e, f, g, h, i, j])
            == m[a.code := a.handler][b.code := b.handler][c.code := c.handler][d.code := d.handler][e.code := e.handler]
                [f.code := f.handler][g.code := g.handler][h.code := h.handler][i.code := i.handler][j.code := j.handler]
  {
    assert [a, b, c, d, e, f, g, h, i, j] == [a, b, c, d, e] + [f, g, h, i, j];
    BuildTableAppend(m, [a, b, c, d, e], [f, g, h, i, j]);
    BuildTable5(m, a, b, c, d, e);
    BuildTable5(m[a.code := a.handler][b.code := b.handler][c.code := c.handler][d.code := d.handler][e.code := e.handler], f, g, h, i, j);
  }

  /** A block whose calls are all compiled in, or all compiled out, is kept or dropped whole. */
  lemma BlockKept(f: Features, block: seq<Registration>, on: bool)
    requires forall i :: 0 <= i < |block| ==> Attached(f, block[i]) == on
    ensures Keep(block, IsAttached(f)) == if on then block else []
  {
    KeepUniform(block, IsAttached(f), on);
  }

  /** The blocks up to the servo one, each kept or dropped whole. */
  lemma FirstBlocksKept(f: Features)
    ensures Keep(SEGMENT_CALLBACKS + OUTPUT_CALLBACKS + STEPPER_CALLBACKS + SERVO_CALLBACKS, IsAttached(f))
            == (if f.segment then SEGMENT_CALLBACKS else [])
               + OUTPUT_CALLBACKS
               + (if f.stepper then STEPPER_CALLBACKS else [])
               + (if f.servo then SERVO_CALLBACKS else [])
  {
    assert forall i :: 0 <= i < |SEGMENT_CALLBACKS| ==> Attached(f, SEGMENT_CALLBACKS[i]) == f.segment;
    assert forall i :: 0 <= i < |OUTPUT_CALLBACKS| ==> Attached(f, OUTPUT_CALLBACKS[i]) == true;
    assert forall i :: 0 <= i < |STEPPER_CALLBACKS| ==> Attached(f, STEPPER_CALLBACKS[i]) == f.stepper;
    assert forall i :: 0 <= i < |SERVO_CALLBACKS| ==> Attached(f, SERVO_CALLBACKS[i]) == f.servo;
    BlockKept(f, SEGMENT_CALLBACKS, f.segment);
    BlockKept(f, OUTPUT_CALLBACKS, true);
    BlockKept(f, STEPPER_CALLBACKS, f.stepper);
    BlockKept(f, SERVO_CALLBACKS, f.servo);
    KeepAppend(SEGMENT_CALLBACKS, OUTPUT_CALLBACKS, IsAttached(f));
    KeepAppend(SEGMENT_CALLBACKS + OUTPUT_CALLBACKS, STEPPER_CALLBACKS, IsAttached(f));
    KeepAppend(SEGMENT_CALLBACKS + OUTPUT_CALLBACKS + STEPPER_CALLBACKS, SERVO_CALLBACKS, IsAttached(f));
  }

  /** The blocks from the configuration commands on, each kept or dropped whole. */
  lemma LastBlocksKept(f: Features)
    ensures Keep(CORE_CALLBACKS + LCD_CALLBACKS + OUTPUT_SHIFTER_CALLBACKS + CUSTOM_DEVICE_CALLBACKS, IsAttached(f))
            == CORE_CALLBACKS
               + (if f.lcd then LCD_CALLBACKS else [])
               + (if f.outputShifter then OUTPUT_SHIFTER_CALLBACKS else [])
               + (if f.customDevice then CUSTOM_DEVICE_CALLBACKS else [])
  {
    assert forall i :: 0 <= i < |CORE_CALLBACKS| ==> Attached(f, CORE_CALLBACKS[i]) == true;
    assert forall i :: 0 <= i < |LCD_CALLBACKS| ==> Attached(f, LCD_CALLBACKS[i]) == f.lcd;
    assert forall i :: 0 <= i < |OUTPUT_SHIFTER_CALLBACKS| ==> Attached(f, OUTPUT_SHIFTER_CALLBACKS[i]) == f.outputShifter;
    assert forall i :: 0 <= i < |CUSTOM_DEVICE_CALLBACKS| ==> Attached(f, CUSTOM_DEVICE_CALLBACKS[i]) == f.customDevice;
    BlockKept(f, CORE_CALLBACKS, true);
    BlockKept(f, LCD_CALLBACKS, f.lcd);
    BlockKept(f, OUTPUT_SHIFTER_CALLBACKS, f.outputShifter);
    BlockKept(f, CUSTOM_DEVICE_CALLBACKS, f.customDevice);
    KeepAppend(CORE_CALLBACKS, LCD_CALLBACKS, IsAttached(f));
    KeepAppend(CORE_CALLBACKS + LCD_CALLBACKS, OUTPUT_SHIFTER_CALLBACKS, IsAttached(f));
    KeepAppend(CORE_CALLBACKS + LCD_CALLBACKS + OUTPUT_SHIFTER_CALLBACKS, CUSTOM_DEVICE_CALLBACKS, IsAttached(f));
  }

  /** The attach calls of a build are its #ifdef blocks, each compiled in or out whole. */
  lemma RegistrationsInBlocks(f: Features)
    ensures Registrations(f)
            == ((if f.segment then SEGMENT_CALLBACKS else [])
                + OUTPUT_CALLBACKS
                + (if f.stepper then STEPPER_CALLBACKS else [])
                + (if f.servo then SERVO_CALLBACKS else []))
               + (CORE_CALLBACKS
                  + (if f.lcd then LCD_CALLBACKS else [])
                  + (if f.outputShifter then OUTPUT_SHIFTER_CALLBACKS else [])
                  + (if f.customDevice then CUSTOM_DEVICE_CALLBACKS else []))
  {
    FirstBlocksKept(f);
    LastBlocksKept(f);
    ghost var first := SEGMENT_CALLBACKS + OUTPUT_CALLBACKS + STEPPER_CALLBACKS + SERVO_CALLBACKS;
    ghost var last := CORE_CALLBACKS + LCD_CALLBACKS + OUTPUT_SHIFTER_CALLBACKS + CUSTOM_DEVICE_CALLBACKS;
    assert CALLBACKS == first + last by {
      AppendAssoc(first, CORE_CALLBACKS + LCD_CALLBACKS + OUTPUT_SHIFTER_CALLBACKS, CUSTOM_DEVICE_CALLBACKS);
      AppendAssoc(first, CORE_CALLBACKS + LCD_CALLBACKS, OUTPUT_SHIFTER_CALLBACKS);
      AppendAssoc(first, CORE_CALLBACKS, LCD_CALLBACKS);
    }
    KeepAppend(first, last, IsAttached(f));
  }

  /** The first four #ifdef blocks of attachCommandCallbacks, from the segment calls to the servo call. */
  lemma TableFirstBlocks(f: Features, base: map<Code, Handler>)
    ensures BuildTable(base, (if f.segment then SEGMENT_CALLBACKS else []) + OUTPUT_CALLBACKS
                             + (if f.stepper then STEPPER_CALLBACKS else []) + (if f.servo then SERVO_CALLBACKS else []))
            == var m1 := if f.segment then base[kInitModule := LedSegmentOnInitModule][kSetModule := LedSegmentOnSetModule][kSetModuleBrightness := LedSegmentOnSetModuleBrightness][kSetModuleSingleSegment := LedSegmentOnSetModuleSingleSegment] else base;
               var m2 := m1[kSetPin := OutputOnSet];
               var m3 := if f.stepper then m2[kSetStepper := StepperOnSet][kResetStepper := StepperOnReset][kSetZeroStepper := StepperOnSetZero][kSetStepperSpeedAccel := StepperOnSetSpeedAccel] else m2;
               var m4 := if f.servo then m3[kSetServo := ServosOnSet] else m3;
               m4
  {
    ghost var k1 := if f.segment then SEGMENT_CALLBACKS else [];
    ghost var k2 := OUTPUT_CALLBACKS;
    ghost var k3 := if f.stepper then STEPPER_CALLBACKS else [];
    ghost var k4 := if f.servo then SERVO_CALLBACKS else [];
    ghost var m1 := if f.segment then base[kInitModule := LedSegmentOnInitModule][kSetModule := LedSegmentOnSetModule][kSetModuleBrightness := LedSegmentOnSetModuleBrightness][kSetModuleSingleSegment := LedSegmentOnSetModuleSingleSegment] else base;
    assert BuildTable(base, k1) == m1 by {
      if f.segment {
        BuildTable4(base, Registration(kInitModule, LedSegmentOnInitModule), Registration(kSetModule, LedSegmentOnSetModule), Registration(kSetModuleBrightness, LedSegmentOnSetModuleBrightness), Registration(kSetModuleSingleSegment, LedSegmentOnSetModuleSingleSegment));
      }
    }
    ghost var m2 := m1[kSetPin := OutputOnSet];
    assert BuildTable(base, k1 + k2) == m2 by {
      BuildTableAppend(base, k1, k2);
      BuildTable1(m1, Registration(kSetPin, OutputOnSet));
    }
    ghost var m3 := if f.stepper then m2[kSetStepper := StepperOnSet][kResetStepper := StepperOnReset][kSetZeroStepper := StepperOnSetZero][kSetStepperSpeedAccel := StepperOnSetSpeedAccel] else m2;
    assert BuildTable(base, k1 + k2 + k3) == m3 by {
      BuildTableAppend(base, k1 + k2, k3);
      if f.stepper {
        BuildTable4(m2, Registration(kSetStepper, StepperOnSet), Registration(kResetStepper, StepperOnReset), Registration(kSetZeroStepper, StepperOnSetZero), Registration(kSetStepperSpeedAccel, StepperOnSetSpeedAccel));
      }
    }
    ghost var m4 := if f.servo then m3[kSetServo := ServosOnSet] else m3;
    assert BuildTable(base, k1 + k2 + k3 + k4) == m4 by {
      BuildTableAppend(base, k1 + k2 + k3, k4);
      if f.servo {
        BuildTable1(m3, Registration(kSetServo, ServosOnSet));
      }
    }
  }

  /** The last four #ifdef blocks, from the configuration commands to the custom device call. */
  lemma TableLastBlocks(f: Features, m0: map<Code, Handler>)
    ensures BuildTable(m0, CORE_CALLBACKS + (if f.lcd then LCD_CALLBACKS else [])
                           + (if f.outputShifter then OUTPUT_SHIFTER_CALLBACKS else [])
                           + (if f.customDevice then CUSTOM_DEVICE_CALLBACKS else []))
            == var m5 := m0[kGetInfo := OnGetInfo][kGetConfig := OnGetConfig][kSetConfig := OnSetConfig][kResetConfig := OnResetConfig][kSaveConfig := OnSaveConfig][kActivateConfig := OnActivateConfig][kSetName := OnSetName][kGenNewSerial := OnGenNewSerial][kTrigger := OnTrigger][kSetPowerSavingMode := OnSetPowerSavingMode];
               var m6 := if f.lcd then m5[kSetLcdDisplayI2C := LCDDisplayOnSet] else m5;
               var m7 := if f.outputShifter then m6[kSetShiftRegisterPins := OutputShifterOnSet] else m6;
               var m8 := if f.customDevice then m7[kSetCustomDevice := CustomDeviceOnSet] else m7;
               m8
  {
    ghost var k5 := CORE_CALLBACKS;
    ghost var k6 := if f.lcd then LCD_CALLBACKS else [];
    ghost var k7 := if f.outputShifter then OUTPUT_SHIFTER_CALLBACKS else [];
    ghost var k8 := if f.customDevice then CUSTOM_DEVICE_CALLBACKS else [];
    ghost var m5 := m0[kGetInfo := OnGetInfo][kGetConfig := OnGetConfig][kSetConfig := OnSetConfig][kResetConfig := OnResetConfig][kSaveConfig := OnSaveConfig][kActivateConfig := OnActivateConfig][kSetName := OnSetName][kGenNewSerial := OnGenNewSerial][kTrigger := OnTrigger][kSetPowerSavingMode := OnSetPowerSavingMode];
    assert BuildTable(m0, k5) == m5 by {
      BuildTable10(m0, Registration(kGetInfo, OnGetInfo), Registration(kGetConfig, OnGetConfig), Registration(kSetConfig, OnSetConfig), Registration(kResetConfig, OnResetConfig), Registration(kSaveConfig, OnSaveConfig), Registration(kActivateConfig, OnActivateConfig), Registration(kSetName, OnSetName), Registration(kGenNewSerial, OnGenNewSerial), Registration(kTrigger, OnTrigger), Registration(kSetPowerSavingMode, OnSetPowerSavingMode));
    }
    ghost var m6 := if f.lcd then m5[kSetLcdDisplayI2C := LCDDisplayOnSet] else m5;
    assert BuildTable(m0, k5 + k6) == m6 by {
      BuildTableAppend(m0, k5, k6);
      if f.lcd {
        BuildTable1(m5, Registration(kSetLcdDisplayI2C, LCDDisplayOnSet));
      }
    }
    ghost var m7 := if f.outputShifter then m6[kSetShiftRegisterPins := OutputShifterOnSet] else m6;
    assert BuildTable(m0, k5 + k6 + k7) == m7 by {
      BuildTableAppend(m0, k5 + k6, k7);
      if f.outputShifter {
        BuildTable1(m6, Registration(kSetShiftRegisterPins, OutputShifterOnSet));
      }
    }
    ghost var m8 := if f.customDevice then m7[kSetCustomDevice := CustomDeviceOnSet] else m7;
    assert BuildTable(m0, k5 + k6 + k7 + k8) == m8 by {
      BuildTableAppend(m0, k5 + k6 + k7, k8);
      if f.customDevice {
        BuildTable1(m7, Registration(kSetCustomDevice, CustomDeviceOnSet));
      }
    }
  }

  /**
   * The table attachCommandCallbacks builds, written as its #ifdef blocks:
   * each block's attach calls are made, in order, when the block is
   * compiled in.
   */
  lemma TableUnrolled(f: Features, base: map<Code, Handler>)
    ensures BuildTable(base, Registrations(f))
            == var m1 := if f.segment then base[kInitModule := LedSegmentOnInitModule][kSetModule := LedSegmentOnSetModule][kSetModuleBrightness := LedSegmentOnSetModuleBrightness][kSetModuleSingleSegment := LedSegmentOnSetModuleSingleSegment] else base;
               var m2 := m1[kSetPin := OutputOnSet];
               var m3 := if f.stepper then m2[kSetStepper := StepperOnSet][kResetStepper := StepperOnReset][kSetZeroStepper := StepperOnSetZero][kSetStepperSpeedAccel := StepperOnSetSpeedAccel] else m2;
               var m4 := if f.servo then m3[kSetServo := ServosOnSet] else m3;
               var m5 := m4[kGetInfo := OnGetInfo][kGetConfig := OnGetConfig][kSetConfig := OnSetConfig][kResetConfig := OnResetConfig][kSaveConfig := OnSaveConfig][kActivateConfig := OnActivateConfig][kSetName := OnSetName][kGenNewSerial := OnGenNewSerial][kTrigger := OnTrigger][kSetPowerSavingMode := OnSetPowerSavingMode];
               var m6 := if f.lcd then m5[kSetLcdDisplayI2C := LCDDisplayOnSet] else m5;
               var m7 := if f.outputShifter then m6[kSetShiftRegisterPins := OutputShifterOnSet] else m6;
               var m8 := if f.customDevice then m7[kSetCustomDevice := CustomDeviceOnSet] else m7;
               m8
  {
    RegistrationsInBlocks(f);
    ghost var k1 := if f.segment then SEGMENT_CALLBACKS else [];
    ghost var k2 := OUTPUT_CALLBACKS;
    ghost var k3 := if f.stepper then STEPPER_CALLBACKS else [];
    ghost var k4 := if f.servo then SERVO_CALLBACKS else [];
    ghost var k5 := CORE_CALLBACKS;
    ghost var k6 := if f.lcd then LCD_CALLBACKS else [];
    ghost var k7 := if f.outputShifter then OUTPUT_SHIFTER_CALLBACKS else [];
    ghost var k8 := if f.customDevice then CUSTOM_DEVICE_CALLBACKS else [];
    ghost var first := k1 + k2 + k3 + k4;
    BuildTableAppend(base, first, k5 + k6 + k7 + k8);
    TableFirstBlocks(f, base);
    TableLastBlocks(f, BuildTable(base, first));
  }

  function CodesOf(regs: seq<Registration>): set<Code>
  {
    set r | r in regs :: r.code
  }

  /**
   * With distinct codes, the table maps each attached code to exactly the
   * handler attached for it, and every other code as `base` did.
   */
  lemma {:induction false} BuildTableMapsEachCode(base: map<Code, Handler>, regs: seq<Registration>)
    requires DistinctCodes(regs)
    ensures BuildTable(base, regs).Keys == base.Keys + CodesOf(regs)
    ensures forall r :: r in regs ==> BuildTable(base, regs)[r.code] == r.handler
    ensures forall c :: c in base && c !in CodesOf(regs) ==> BuildTable(base, regs)[c] == base[c]
    decreases |regs|
  {
    if regs != [] {
      var n := |regs| - 1;
      var prefix := regs[..n];
      var last := regs[n];
      assert regs == prefix + [last];
      DistinctCodesPrefix(regs);
      BuildTableMapsEachCode(base, prefix);
      var t := BuildTable(base, prefix);
      assert BuildTable(base, regs) == t[last.code := last.handler];
      assert CodesOf(regs) == CodesOf(prefix) + {last.code} by {
        CodesOfSnoc(prefix, last);
      }
      forall r | r in regs ensures BuildTable(base, regs)[r.code] == r.handler {
        if r != last {
          assert r in prefix;
          assert r.code in CodesOf(prefix);
        }
      }
    }
  }

  /** Dropping the last call keeps the codes distinct, and the last code is not among the others. */
  lemma DistinctCodesPrefix(regs: seq<Registration>)
    requires DistinctCodes(regs) && regs != []
    ensures DistinctCodes(regs[..|regs| - 1])
    ensures regs[|regs| - 1].code !in CodesOf(regs[..|regs| - 1])
  {
    var prefix := regs[..|regs| - 1];
    forall i, j | 0 <= i < j < |prefix| ensures prefix[i].code != prefix[j].code {
      assert prefix[i] == regs[i] && prefix[j] == regs[j];
    }
    forall r | r in prefix ensures r.code != regs[|regs| - 1].code {
      var i :| 0 <= i < |prefix| && prefix[i] == r;
      assert regs[i] == r;
    }
  }

  lemma CodesOfSnoc(regs: seq<Registration>, r: Registration)
    ensures CodesOf(regs + [r]) == CodesOf(regs) + {r.code}
  {
    forall c | c in CodesOf(regs + [r]) ensures c in CodesOf(regs) + {r.code} {
      var x :| x in regs + [r] && x.code == c;
      if x != r { assert x in regs; }
    }
    forall c | c in CodesOf(regs) + {r.code} ensures c in CodesOf(regs + [r]) {
      if c != r.code {
        var x :| x in regs && x.code == c;
        assert x in regs + [r];
      } else {
        assert r in regs + [r];
      }
    }
  }

  /** CmdMessenger's choice: the handler attached for the code, else the default one, if any. */
  function Lookup(table: map<Code, Handler>, default: Option<Handler>, c: Code): Option<Handler>
  {
    if c in table then Some(table[c]) else default
  }

  /** The codes that have a handler in this build. */
  function AttachedCodes(f: Features): set<Code>
  {
    CodesOf(Registrations(f))
  }

  /**
   * Dispatch through the table of attachCommandCallbacks: an attached code
   * selects exactly its handler, and every other code, including response
   * codes and numbers the firmware does not name, selects OnUnknownCommand.
   */
  lemma DispatchSelectsAttachedOrDefault(f: Features, c: Code)
    ensures forall r :: r in Registrations(f) && r.code == c
              ==> Lookup(Table(f), Some(OnUnknownCommand), c) == Some(r.handler)
    ensures c !in AttachedCodes(f) ==> Lookup(Table(f), Some(OnUnknownCommand), c) == Some(OnUnknownCommand)
  {
    RegistrationsAreTheCompiledCalls(f);
    BuildTableMapsEachCode(map[], Registrations(f));
  }

  /** A compiled-in attach call decides the dispatch of its code. */
  lemma AttachedHandlerSelected(f: Features, r: Registration)
    requires r in CALLBACKS && Attached(f, r)
    ensures Lookup(Table(f), Some(OnUnknownCommand), r.code) == Some(r.handler)
  {
    RegistrationsAreTheCompiledCalls(f);
    DispatchSelectsAttachedOrDefault(f, r.code);
  }

  // ---------------------------------------------------------------------
  // Handlers
  // ---------------------------------------------------------------------

  /**
   * A decoded command as CmdMessenger hands it over: its code, the value
   * readBoolArg yields for its first argument, and the millis() reading a
   * handler takes while it runs.
   */
  datatype Frame = Frame(code: Code, flag: bool, now: uint32)

  /** What handling changes: lastCommand, and the events it adds. */
  datatype Effect = Effect(lastCommand: uint32, events: seq<Event>)

  /** The order in which OnTrigger calls the input families' OnTrigger. */
  const TRIGGER_ORDER: seq<Family> := [Button, InputShifter, DigInMux, Analog]

  /** Position in OnTrigger's call order; 4 for families it does not call. */
  function TriggerRank(fam: Family): nat
  {
    match fam
    case Button => 0
    case InputShifter => 1
    case DigInMux => 2
    case Analog => 3
    case _ => 4
  }

  function TriggerCalls(fams: seq<Family>): (r: seq<Event>)
    ensures |r| == |fams| && forall i :: 0 <= i < |fams| ==> r[i] == Trigger(fams[i])
  {
    seq(|fams|, i requires 0 <= i < |fams| => Trigger(fams[i]))
  }

  lemma TriggerCallsSnoc(fams: seq<Family>, x: Family)
    ensures TriggerCalls(fams + [x]) == TriggerCalls(fams) + [Trigger(x)]
  {
  }

  /** One more family of OnTrigger's list, compiled in or not. */
  lemma TriggerStep(f: Features, done: seq<Family>, fam: Family)
    ensures TriggerCalls(EnabledIn(f, done + [fam]))
            == TriggerCalls(EnabledIn(f, done)) + (if Enabled(f, fam) then [Trigger(fam)] else [])
  {
    EnabledInSnoc(f, done, fam);
    if Enabled(f, fam) {
      TriggerCallsSnoc(EnabledIn(f, done), fam);
    } else {
      assert EnabledIn(f, done) + [] == EnabledIn(f, done);
    }
  }

  /** The OnTrigger calls OnTrigger makes in this build. */
  function TriggerFanOut(f: Features): seq<Event>
  {
    TriggerCalls(EnabledIn(f, TRIGGER_ORDER))
  }

  /** A Trigger call's position in OnTrigger's call order. */
  function TriggerCallRank(e: Event): nat
  {
    if e.Trigger? then TriggerRank(e.family) else 4
  }

  /** The calls of a family list name exactly its families, and keep their order. */
  lemma TriggerCallsFollowFamilies(fams: seq<Family>)
    ensures forall fam :: Trigger(fam) in TriggerCalls(fams) <==> fam in fams
    ensures Increasing(fams, TriggerRank) ==> Increasing(TriggerCalls(fams), TriggerCallRank)
  {
    var r := TriggerCalls(fams);
    forall fam ensures Trigger(fam) in r <==> fam in fams {
      if Trigger(fam) in r {
        var i :| 0 <= i < |r| && r[i] == Trigger(fam);
        assert fams[i] == fam;
      }
      if fam in fams {
        var i :| 0 <= i < |fams| && fams[i] == fam;
        assert r[i] == Trigger(fam);
      }
    }
    if Increasing(fams, TriggerRank) {
      forall i, j | 0 <= i < j < |r| ensures TriggerCallRank(r[i]) < TriggerCallRank(r[j]) {
        assert r[i].family == fams[i] && r[j].family == fams[j];
      }
    }
  }

  /** The call order lists each input family that reports on request, ranked as the order says. */
  lemma TriggerOrderListsInputFamilies()
    ensures Increasing(TRIGGER_ORDER, TriggerRank)
    ensures forall fam :: fam in TRIGGER_ORDER <==> TriggerRank(fam) < 4
  {
  }

  /**
   * OnTrigger reaches every compiled-in input family that reports on
   * request once, in the order Button, InputShifter, DigInMux, Analog, and
   * nothing else.
   */
  lemma TriggerFanOutReachesInputFamilies(f: Features)
    ensures forall i :: 0 <= i < |TriggerFanOut(f)| ==> TriggerFanOut(f)[i].Trigger?
    ensures forall fam :: Trigger(fam) in TriggerFanOut(f) <==> TriggerRank(fam) < 4 && Enabled(f, fam)
    ensures forall i, j :: 0 <= i < j < |TriggerFanOut(f)| ==>
              TriggerRank(TriggerFanOut(f)[i].family) < TriggerRank(TriggerFanOut(f)[j].family)
  {
    var fams := EnabledIn(f, TRIGGER_ORDER);
    var r := TriggerFanOut(f);
    assert r == TriggerCalls(fams);
    TriggerOrderListsInputFamilies();
    EnabledInIsOrderedSubsequence(f, TRIGGER_ORDER, TriggerRank);
    TriggerCallsFollowFamilies(fams);
    assert Increasing(r, TriggerCallRank);
  }

  /** OnTrigger's calls, one per family of its list that is compiled in. */
  lemma {:induction false} TriggerFanOutInCallOrder(f: Features)
    ensures TriggerFanOut(f)
            == [Trigger(Button)]
               + (if Enabled(f, InputShifter) then [Trigger(InputShifter)] else [])
               + (if Enabled(f, DigInMux) then [Trigger(DigInMux)] else [])
               + (if Enabled(f, Analog) then [Trigger(Analog)] else [])
  {
    var d0: seq<Family> := [];
    var d1 := d0 + [Button];
    var d2 := d1 + [InputShifter];
    var d3 := d2 + [DigInMux];
    var d4 := d3 + [Analog];
    TriggerStep(f, d0, Button);
    TriggerStep(f, d1, InputShifter);
    TriggerStep(f, d2, DigInMux);
    TriggerStep(f, d3, Analog);
    assert TriggerCalls(EnabledIn(f, d1)) == [Trigger(Button)];
    assert d4 == TRIGGER_ORDER;
  }

  /** The same calls, one #ifdef at a time, appended to the events `before`. */
  lemma TriggerFanOutUnrolled(f: Features, before: seq<Event>)
    ensures before + TriggerFanOut(f)
            == before + [Trigger(Button)]
               + (if f.inputShifter then [Trigger(InputShifter)] else [])
               + (if f.digInMux then [Trigger(DigInMux)] else [])
               + (if f.analog then [Trigger(Analog)] else [])
  {
    TriggerFanOutInCallOrder(f);
    var x2 := if f.inputShifter then [Trigger(InputShifter)] else [];
    var x3 := if f.digInMux then [Trigger(DigInMux)] else [];
    var x4 := if f.analog then [Trigger(Analog)] else [];
    var c1 := [Trigger(Button)];
    var c2 := c1 + x2;
    var c3 := c2 + x3;
    assert TriggerFanOut(f) == c3 + x4;
    AppendAssoc(before, c3, x4);
    AppendAssoc(before, c2, x3);
    AppendAssoc(before, c1, x2);
  }

  /**
   * What running handler `h` on frame `fr` does, starting from `lastCommand`.
   * OnUnknownCommand, OnSetPowerSavingMode and OnTrigger are modelled from
   * their bodies; every other handler belongs to another file, and the model
   * takes it to leave lastCommand as it was and records only that it ran.
   */
  function Execute(f: Features, h: Handler, lastCommand: uint32, fr: Frame): Effect
  {
    match h
    case OnUnknownCommand => Effect(fr.now, [Send(kStatus, "n/a")])
    case OnSetPowerSavingMode => Effect(if fr.flag then 0 else fr.now, [])
    case OnTrigger => Effect(lastCommand, TriggerFanOut(f))
    case _ => Effect(lastCommand, [Handled(h)])
  }

  /** Dispatching one frame through `table` with default `default`. */
  function Receive(f: Features, table: map<Code, Handler>, default: Option<Handler>, lastCommand: uint32, fr: Frame): Effect
  {
    match Lookup(table, default, fr.code)
    case None => Effect(lastCommand, [])
    case Some(h) => Execute(f, h, lastCommand, fr)
  }

  /** Dispatching the frames in order. */
  function Intake(f: Features, table: map<Code, Handler>, default: Option<Handler>, lastCommand: uint32, frames: seq<Frame>): Effect
    decreases |frames|
  {
    if frames == [] then Effect(lastCommand, [])
    else
      var e := Intake(f, table, default, lastCommand, frames[..|frames| - 1]);
      var e' := Receive(f, table, default, e.lastCommand, frames[|frames| - 1]);
      Effect(e'.lastCommand, e.events + e'.events)
  }

  lemma IntakeSnoc(f: Features, table: map<Code, Handler>, default: Option<Handler>, lastCommand: uint32, frames: seq<Frame>, fr: Frame)
    ensures Intake(f, table, default, lastCommand, frames + [fr])
            == var e := Intake(f, table, default, lastCommand, frames);
               var e' := Receive(f, table, default, e.lastCommand, fr);
               Effect(e'.lastCommand, e.events + e'.events)
  {
    assert (frames + [fr])[..|frames|] == frames;
  }

  /**
   * What the handlers can be seen to do: the only message sent is the
   * unknown-command reply, only OnTrigger asks families to report (and only
   * input families), and every other handler has at most one effect.
   */
  lemma HandlerEffects(f: Features, h: Handler, lastCommand: uint32, fr: Frame)
    ensures var e := Execute(f, h, lastCommand, fr);
            forall i :: 0 <= i < |e.events| && e.events[i].Send? ==>
              h == OnUnknownCommand && e.events[i] == Send(kStatus, "n/a")
    ensures var e := Execute(f, h, lastCommand, fr);
            forall i :: 0 <= i < |e.events| && e.events[i].Trigger? ==>
              h == OnTrigger && TriggerRank(e.events[i].family) < 4
    ensures h != OnTrigger ==> |Execute(f, h, lastCommand, fr).events| <= 1
  {
    TriggerFanOutReachesInputFamilies(f);
  }

  /**
   * Among the handlers of src/CommandMessenger.cpp only OnUnknownCommand and
   * OnSetPowerSavingMode write lastCommand; OnTrigger leaves it alone, and so,
   * by the model's assumption, do the handlers of other files.
   */
  lemma OnlyTwoHandlersWriteLastCommand(f: Features, h: Handler, lastCommand: uint32, fr: Frame)
    ensures Execute(f, h, lastCommand, fr).lastCommand != lastCommand
            ==> h == OnUnknownCommand || h == OnSetPowerSavingMode
  {
  }

  /**
   * An unattached code (a response code, or a number not named) refreshes
   * lastCommand with the clock and is answered with exactly one
   * (kStatus, "n/a") message.
   */
  lemma UnknownCodeRepliesNotApplicable(f: Features, lastCommand: uint32, fr: Frame)
    requires fr.code !in AttachedCodes(f)
    ensures Receive(f, Table(f), Some(OnUnknownCommand), lastCommand, fr) == Effect(fr.now, [Send(kStatus, "n/a")])
  {
    DispatchSelectsAttachedOrDefault(f, fr.code);
  }

  /** A kTrigger command fans out to the input families and leaves lastCommand alone. */
  lemma TriggerCommandFansOut(f: Features, lastCommand: uint32, fr: Frame)
    requires fr.code == kTrigger
    ensures Receive(f, Table(f), Some(OnUnknownCommand), lastCommand, fr) == Effect(lastCommand, TriggerFanOut(f))
  {
    assert CALLBACKS[18] == Registration(kTrigger, OnTrigger);
    AttachedHandlerSelected(f, CALLBACKS[18]);
  }

  /**
   * Override off, then evaluate: set-power-saving-mode(false) at time t
   * stores t and sends nothing; an evaluation less than 900 000 ms later
   * switches saving off if it was on.
   */
  lemma OverrideOffThenEvaluate(f: Features, lastCommand: uint32, t: uint32, t1: uint32, t2: uint32)
    ensures var e := Receive(f, Table(f), Some(OnUnknownCommand), lastCommand, Frame(kSetPowerSavingMode, false, t));
            e == Effect(t, [])
            && (Elapsed(t2, t) < POWER_SAVING_MS ==> Decision(true, e.lastCommand, t1, t2) == Some(false))
  {
    assert CALLBACKS[19] == Registration(kSetPowerSavingMode, OnSetPowerSavingMode);
    AttachedHandlerSelected(f, CALLBACKS[19]);
  }

  /**
   * Override on, then evaluate: set-power-saving-mode(true) stores 0 and
   * sends nothing, so the idle time is the clock reading itself: the next
   * evaluation switches saving on only once the clock is past 900 000 ms,
   * not during the first fifteen minutes after reset.
   */
  lemma OverrideOnThenEvaluate(f: Features, lastCommand: uint32, t: uint32, t1: uint32, t2: uint32)
    ensures var e := Receive(f, Table(f), Some(OnUnknownCommand), lastCommand, Frame(kSetPowerSavingMode, true, t));
            e == Effect(0, [])
            && (Decision(false, e.lastCommand, t1, t2) == Some(true) <==> t1 > POWER_SAVING_MS)
  {
    assert CALLBACKS[19] == Registration(kSetPowerSavingMode, OnSetPowerSavingMode);
    AttachedHandlerSelected(f, CALLBACKS[19]);
  }
}
