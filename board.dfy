/**
 * The vocabulary shared by the runtime's two files: which device families
 * are compiled in, the periodic tasks of the control loop, and the
 * observable events the model records in place of the device drivers'
 * unseen bodies.
 */
module Board {

  import opened Clock
  import opened Selection

  datatype Option<T> = None | Some(value: T)

  /**
   * The compile-time feature switches (MF_..._SUPPORT in config.h). Buttons,
   * encoders and outputs are always built in. `customDevicePollMs` is
   * MF_CUSTOMDEVICE_POLL_MS modulo 256 when it is defined: it reaches
   * timedUpdate as its `uint8_t intv` argument.
   */
  datatype Features = Features(
    segment: bool,
    stepper: bool,
    servo: bool,
    analog: bool,
    inputShifter: bool,
    lcd: bool,
    outputShifter: bool,
    digInMux: bool,
    customDevice: bool,
    customDeviceHasUpdate: bool,
    customDevicePollMs: Option<uint8>)

  /** Device families, each a driver module whose body is not modelled. */
  datatype Family =
    | Button | Encoder | Output | LedSegment | Stepper | Servos | Analog
    | InputShifter | DigInMux | LCDDisplay | OutputShifter | CustomDevice

  /** Whether a family's driver is compiled into this build. */
  predicate Enabled(f: Features, fam: Family)
  {
    match fam
    case Button => true
    case Encoder => true
    case Output => true
    case LedSegment => f.segment
    case Stepper => f.stepper
    case Servos => f.servo
    case Analog => f.analog
    case InputShifter => f.inputShifter
    case DigInMux => f.digInMux
    case LCDDisplay => f.lcd
    case OutputShifter => f.outputShifter
    case CustomDevice => f.customDevice
  }

  function IsEnabled(f: Features): Family -> bool
  {
    (fam: Family) => Enabled(f, fam)
  }

  /** The families among `fams` that are compiled in, in their order. */
  function EnabledIn(f: Features, fams: seq<Family>): seq<Family>
  {
    Keep(fams, IsEnabled(f))
  }

  lemma EnabledInSnoc(f: Features, fams: seq<Family>, x: Family)
    ensures EnabledIn(f, fams + [x]) == EnabledIn(f, fams) + (if Enabled(f, x) then [x] else [])
  {
    KeepSnoc(fams, x, IsEnabled(f));
  }

  /** Dropping the families compiled out keeps exactly the others, in the same order. */
  lemma EnabledInIsOrderedSubsequence(f: Features, fams: seq<Family>, rank: Family -> nat)
    ensures forall x :: x in EnabledIn(f, fams) <==> x in fams && Enabled(f, x)
    ensures Increasing(fams, rank) ==> Increasing(EnabledIn(f, fams), rank)
  {
    KeepIsOrderedSubsequence(fams, IsEnabled(f), rank);
  }

  /** The driver entry points the control loop calls periodically. */
  datatype Task =
    | ButtonRead | EncoderRead | StepperUpdate | ServosUpdate | AnalogRead
    | AnalogReadAverage | InputShifterRead | DigInMuxRead | CustomDeviceUpdate

  /** Every periodic task. */
  const ALL_TASKS: set<Task> := {ButtonRead, EncoderRead, StepperUpdate, ServosUpdate, AnalogRead,
                                 AnalogReadAverage, InputShifterRead, DigInMuxRead, CustomDeviceUpdate}

  /**
   * Whether the task owns a field of the `lastUpdate` struct in this build
   * (Stepper::update has none: it is called on every pass).
   */
  predicate HasStamp(f: Features, t: Task)
  {
    match t
    case ButtonRead => true
    case EncoderRead => true
    case StepperUpdate => false
    case ServosUpdate => f.servo
    case AnalogRead => f.analog
    case AnalogReadAverage => f.analog
    case InputShifterRead => f.inputShifter
    case DigInMuxRead => f.digInMux
    case CustomDeviceUpdate => f.customDevice
  }

  /**
   * The command codes the runtime names. `Other(n)` stands for any code
   * on the wire that is not one of the named ones; the named codes are
   * distinct symbols, as the members of the firmware's command enum are.
   */
  datatype Code =
    | kInitModule | kSetModule | kSetModuleBrightness | kSetModuleSingleSegment
    | kSetPin | kSetStepper | kResetStepper | kSetZeroStepper | kSetStepperSpeedAccel
    | kSetServo | kGetInfo | kGetConfig | kSetConfig | kResetConfig | kSaveConfig
    | kActivateConfig | kSetName | kGenNewSerial | kTrigger | kSetPowerSavingMode
    | kSetLcdDisplayI2C | kSetShiftRegisterPins | kSetCustomDevice
    | kStatus | kDebug
    | Other(n: nat)

  /** The command handlers attached to the messenger. */
  datatype Handler =
    | OnUnknownCommand | OnSetPowerSavingMode | OnTrigger
    | LedSegmentOnInitModule | LedSegmentOnSetModule | LedSegmentOnSetModuleBrightness
    | LedSegmentOnSetModuleSingleSegment | OutputOnSet
    | StepperOnSet | StepperOnReset | StepperOnSetZero | StepperOnSetSpeedAccel
    | ServosOnSet | OnGetInfo | OnGetConfig | OnSetConfig | OnResetConfig
    | OnSaveConfig | OnActivateConfig | OnSetName | OnGenNewSerial
    | LCDDisplayOnSet | OutputShifterOnSet | CustomDeviceOnSet

  /** What the model observes of the runtime, in the order it happens. */
  datatype Event =
    | PowerSave(family: Family, on: bool)  // Family::PowerSave(on)
    | Run(task: Task)                      // one call of a periodic task
    | Trigger(family: Family)              // Family::OnTrigger()
    | Send(code: Code, text: string)       // cmdMessenger.sendCmd(code, text)
    | Handled(handler: Handler)            // a handler whose body is not modelled ran
}
