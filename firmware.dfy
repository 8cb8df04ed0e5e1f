/**
 * The firmware's global state and the functions of src/mobiflight.cpp and
 * src/CommandMessenger.cpp that change it, as one object: the stored
 * power-saving mode, the poll stamps of `lastUpdate`, `lastCommand`, and the
 * command messenger's callback list. Clock readings (`millis()`) are
 * parameters; what the device drivers do is recorded in `trace`.
 */
module Firmware {

  import opened Clock
  import opened Board
  import opened Selection
  import opened Scheduler
  import opened PowerSaving
  import opened Commands

  class Runtime {
    /** The build's compile-time switches. */
    const features: Features
    /** powerSavingMode of src/mobiflight.cpp. */
    var powerSavingMode: bool
    /** The lastUpdate struct: one 32-bit stamp per polled task of this build. */
    var lastUpdate: map<Task, uint32>
    /** lastCommand of src/CommandMessenger.cpp. */
    var lastCommand: uint32
    /** The messenger's callback list, and its default callback. */
    var handlers: map<Code, Handler>
    var defaultHandler: Option<Handler>
    /** What the drivers and the serial link saw, in order. */
    var trace: seq<Event>

    /** lastUpdate has exactly the fields this build declares. */
    ghost predicate Valid()
      reads this
    {
      StampsFor(features, lastUpdate)
    }

    /** Static initialisation: every global starts zeroed, no callback attached. */
    constructor (features: Features)
      ensures this.features == features && Valid()
      ensures !powerSavingMode && lastCommand == 0
      ensures forall t :: t in lastUpdate ==> lastUpdate[t] == 0
      ensures handlers == map[] && defaultHandler == None && trace == []
    {
      this.features := features;
      powerSavingMode := false;
      lastUpdate := map t | t in ALL_TASKS && HasStamp(features, t) :: 0;
      lastCommand := 0;
      handlers := map[];
      defaultHandler := None;
      trace := [];
    }

    // -------------------------------------------------------------------
    // src/CommandMessenger.cpp
    // -------------------------------------------------------------------

    /**
     * attachCommandCallbacks: the default callback, then one
     * cmdMessenger.attach(code, handler) per compiled-in command, in order;
     * each attach stores the handler for its code.
     */
    method AttachCommandCallbacks()
      modifies this`handlers, this`defaultHandler
      ensures defaultHandler == Some(Handler.OnUnknownCommand)
      ensures handlers == BuildTable(old(handlers), Registrations(features))
    {
      TableUnrolled(features, handlers);
      defaultHandler := Some(Handler.OnUnknownCommand);
      var table := handlers;
      if features.segment {
        table := table[kInitModule := LedSegmentOnInitModule];
        table := table[kSetModule := LedSegmentOnSetModule];
        table := table[kSetModuleBrightness := LedSegmentOnSetModuleBrightness];
        table := table[kSetModuleSingleSegment := LedSegmentOnSetModuleSingleSegment];
      }
      table := table[kSetPin := OutputOnSet];
      if features.stepper {
        table := table[kSetStepper := StepperOnSet];
        table := table[kResetStepper := StepperOnReset];
        table := table[kSetZeroStepper := StepperOnSetZero];
        table := table[kSetStepperSpeedAccel := StepperOnSetSpeedAccel];
      }
      if features.servo {
        table := table[kSetServo := ServosOnSet];
      }
      table := table[kGetInfo := OnGetInfo];
      table := table[kGetConfig := OnGetConfig];
      table := table[kSetConfig := OnSetConfig];
      table := table[kResetConfig := OnResetConfig];
      table := table[kSaveConfig := OnSaveConfig];
      table := table[kActivateConfig := OnActivateConfig];
      table := table[kSetName := OnSetName];
      table := table[kGenNewSerial := OnGenNewSerial];
      table := table[kTrigger := Handler.OnTrigger];
      table := table[kSetPowerSavingMode := Handler.OnSetPowerSavingMode];
      if features.lcd {
        table := table[kSetLcdDisplayI2C := LCDDisplayOnSet];
      }
      if features.outputShifter {
        table := table[kSetShiftRegisterPins := OutputShifterOnSet];
      }
      if features.customDevice {
        table := table[kSetCustomDevice := CustomDeviceOnSet];
      }
      handlers := table;
    }

    /** The default callback: refreshes lastCommand and answers "n/a". */
    method OnUnknownCommand(now: uint32)
      modifies this`lastCommand, this`trace
      ensures lastCommand == now
      ensures trace == old(trace) + [Send(kStatus, "n/a")]
    {
      lastCommand := now;
      trace := trace + [Send(kStatus, "n/a")];
    }

    /**
     * The desktop's power-saving override: `enable` is the command's boolean
     * argument, `now` the clock when it is handled.
     */
    method OnSetPowerSavingMode(enable: bool, now: uint32)
      modifies this`lastCommand
      ensures enable ==> lastCommand == 0
      ensures !enable ==> lastCommand == now
    {
      if enable {
        lastCommand := 0;
      } else {
        lastCommand := now;
      }
    }

    method GetLastCommandMillis() returns (r: uint32)
      ensures r == lastCommand
    {
      r := lastCommand;
    }

    /** Asks the compiled-in input families to report their current state. */
    method OnTrigger()
      modifies this`trace
      ensures trace == old(trace) + TriggerFanOut(features)
    {
      TriggerFanOutUnrolled(features, trace);
      trace := trace + [Trigger(Button)];
      trace := trace + (if features.inputShifter then [Trigger(InputShifter)] else []);
      trace := trace + (if features.digInMux then [Trigger(DigInMux)] else []);
      trace := trace + (if features.analog then [Trigger(Analog)] else []);
    }

    /** CmdMessenger handing one decoded command to its callback. */
    method Dispatch(fr: Frame)
      modifies this`lastCommand, this`trace
      ensures var e := Receive(features, handlers, defaultHandler, old(lastCommand), fr);
              lastCommand == e.lastCommand && trace == old(trace) + e.events
    {
      var h := Lookup(handlers, defaultHandler, fr.code);
      if h == Some(Handler.OnUnknownCommand) {
        OnUnknownCommand(fr.now);
      } else if h == Some(Handler.OnSetPowerSavingMode) {
        OnSetPowerSavingMode(fr.flag, fr.now);
      } else if h == Some(Handler.OnTrigger) {
        OnTrigger();
      } else if h.Some? {
        trace := trace + [Handled(h.value)];
      }
    }

    /** feedinSerialData: every command that has arrived, in order. */
    method FeedinSerialData(frames: seq<Frame>)
      modifies this`lastCommand, this`trace
      ensures var e := Intake(features, handlers, defaultHandler, old(lastCommand), frames);
              lastCommand == e.lastCommand && trace == old(trace) + e.events
    {
      var i := 0;
      while i < |frames|
        invariant 0 <= i <= |frames|
        invariant var e := Intake(features, handlers, defaultHandler, old(lastCommand), frames[..i]);
                  lastCommand == e.lastCommand && trace == old(trace) + e.events
      {
        IntakeSnoc(features, handlers, defaultHandler, old(lastCommand), frames[..i], frames[i]);
        Dispatch(frames[i]);
        assert frames[..i + 1] == frames[..i] + [frames[i]];
        i := i + 1;
      }
      assert frames[..|frames|] == frames;
    }

    // -------------------------------------------------------------------
    // src/mobiflight.cpp
    // -------------------------------------------------------------------

    /**
     * Staggers the first input polls: each argument is the clock reading
     * taken for that field's assignment.
     */
    method InitPollIntervals(tButtons: uint32, tEncoders: uint32, tServos: uint32,
                             tAnalogAverage: uint32, tAnalog: uint32,
                             tInputShifters: uint32, tDigInMux: uint32)
      requires Valid()
      modifies this`lastUpdate
      ensures Valid()
      ensures lastUpdate[ButtonRead] == tButtons && lastUpdate[EncoderRead] == tEncoders
      ensures features.servo ==> lastUpdate[ServosUpdate] == AddWrap(tServos, 2)
      ensures features.analog ==> lastUpdate[AnalogReadAverage] == AddWrap(tAnalogAverage, 4)
      ensures features.analog ==> lastUpdate[AnalogRead] == AddWrap(tAnalog, 4)
      ensures features.inputShifter ==> lastUpdate[InputShifterRead] == AddWrap(tInputShifters, 6)
      ensures features.digInMux ==> lastUpdate[DigInMuxRead] == AddWrap(tDigInMux, 8)
      ensures features.customDevice ==> lastUpdate[CustomDeviceUpdate] == old(lastUpdate[CustomDeviceUpdate])
    {
      var stamps := lastUpdate;
      assert ButtonRead in stamps && EncoderRead in stamps;
      stamps := stamps[ButtonRead := tButtons];
      stamps := stamps[EncoderRead := tEncoders];
      if features.servo {
        stamps := stamps[ServosUpdate := AddWrap(tServos, 2)];
      }
      if features.analog {
        stamps := stamps[AnalogReadAverage := AddWrap(tAnalogAverage, 4)];
        stamps := stamps[AnalogRead := AddWrap(tAnalog, 4)];
      }
      if features.inputShifter {
        stamps := stamps[InputShifterRead := AddWrap(tInputShifters, 6)];
      }
      if features.digInMux {
        stamps := stamps[DigInMuxRead := AddWrap(tDigInMux, 8)];
      }
      assert stamps.Keys == lastUpdate.Keys;
      lastUpdate := stamps;
    }

    /**
     * timedUpdate: runs `task` when `intv` ms have passed since its stamp
     * (reading `r.before`), then stores the reading `r.after`.
     */
    method TimedUpdate(task: Task, intv: uint8, r: Reading)
      requires task in lastUpdate
      modifies this`lastUpdate, this`trace
      ensures Due(r.before, old(lastUpdate[task]), intv) ==>
                trace == old(trace) + [Run(task)] && lastUpdate == old(lastUpdate)[task := r.after]
      ensures !Due(r.before, old(lastUpdate[task]), intv) ==>
                trace == old(trace) && lastUpdate == old(lastUpdate)
      ensures lastUpdate.Keys == old(lastUpdate.Keys)
    {
      if Elapsed(r.before, lastUpdate[task]) >= intv {
        trace := trace + [Run(task)];
        lastUpdate := lastUpdate[task := r.after];
      }
    }

    /** Stores the mode and passes it to every compiled-in power-aware family. */
    method SetPowerSavingMode(state: bool)
      modifies this`powerSavingMode, this`trace
      ensures powerSavingMode == state
      ensures trace == old(trace) + FanOut(features, state)
    {
      powerSavingMode := state;
      FanOutUnrolled(features, state, trace);
      trace := trace + [PowerSave(Output, state)];
      trace := trace + (if features.segment then [PowerSave(LedSegment, state)] else []);
      trace := trace + (if features.stepper then [PowerSave(Stepper, state)] else []);
      trace := trace + (if features.customDevice then [PowerSave(CustomDevice, state)] else []);
      trace := trace + (if features.outputShifter then [PowerSave(OutputShifter, state)] else []);
      trace := trace + (if features.lcd then [PowerSave(LCDDisplay, state)] else []);
    }

    /**
     * The idle check of every loop pass; `t1` and `t2` are the clock readings
     * of its first and second condition.
     */
    method UpdatePowerSaving(t1: uint32, t2: uint32)
      modifies this`powerSavingMode, this`trace
      ensures var d := Decision(old(powerSavingMode), lastCommand, t1, t2);
              powerSavingMode == Apply(old(powerSavingMode), d)
              && trace == old(trace) + (if d.Some? then FanOut(features, d.value) else [])
    {
      var last := GetLastCommandMillis();
      if !powerSavingMode && Elapsed(t1, last) > POWER_SAVING_TIME * 1000 {
        SetPowerSavingMode(true);
      } else {
        last := GetLastCommandMillis();
        if powerSavingMode && Elapsed(t2, last) < POWER_SAVING_TIME * 1000 {
          SetPowerSavingMode(false);
        }
      }
    }

    /**
     * One statement of the gated body of loop(), as this build compiles it:
     * nothing when its #ifdef is off; otherwise a timed task goes through
     * timedUpdate with its own field of lastUpdate, and any other one is
     * called directly. The membership test stands for that field existing,
     * which holds for every timed step of the schedule (Schedule's ensures)
     * in a valid state; it is the same test RunSlot makes.
     */
    method PollStep(s: Slot, clock: Readings)
      modifies this`lastUpdate, this`trace
      ensures lastUpdate.Keys == old(lastUpdate.Keys)
      ensures PassResult(trace, lastUpdate) == StepIf(features, s, PassResult(old(trace), old(lastUpdate)), clock)
    {
      if Compiled(features, s.task) {
        match s {
          case Timed(t, intv) =>
            if t in lastUpdate {
              TimedUpdate(t, intv, At(clock, t));
            }
          case Always(t) =>
            trace := trace + [Run(t)];
        }
      }
    }

    /**
     * The gated body of loop(): its statements in their order, the timed
     * ones through timedUpdate; `At(clock, t)` gives the readings around t.
     */
    method PollInputs(clock: Readings)
      requires Valid()
      modifies this`lastUpdate, this`trace
      ensures Valid()
      ensures PassResult(trace, lastUpdate)
              == PassFrom(Schedule(features), PassResult(old(trace), old(lastUpdate)), clock)
    {
      ghost var r0 := PassResult(trace, lastUpdate);
      PollStep(Timed(ButtonRead, BUTTON_DEBOUNCE_MS), clock);
      PollStep(Timed(EncoderRead, ENCODER_DEBOUNCE_MS), clock);
      PollStep(Always(StepperUpdate), clock);
      PollStep(Timed(ServosUpdate, SERVO_DELAY_MS), clock);
      PollStep(Timed(AnalogRead, ANALOGREAD_DELAY_MS), clock);
      PollStep(Timed(AnalogReadAverage, ANALOGAVERAGE_DELAY_MS), clock);
      PollStep(Timed(InputShifterRead, INSHIFTER_POLL_MS), clock);
      PollStep(Timed(DigInMuxRead, INMUX_POLL_MS), clock);
      PollStep(CustomDeviceStep(features), clock);
      PassUnrolled(features, r0, clock);
    }

    /**
     * One pass of loop(): the commands that have arrived, the idle check,
     * then, when the configuration is active, the input polls.
     */
    method Loop(frames: seq<Frame>, t1: uint32, t2: uint32, configActive: bool, clock: Readings)
      requires Valid()
      modifies this`lastCommand, this`powerSavingMode, this`lastUpdate, this`trace
      ensures Valid()
      ensures var intake := Intake(features, handlers, defaultHandler, old(lastCommand), frames);
              var d := Decision(old(powerSavingMode), intake.lastCommand, t1, t2);
              var mid := old(trace) + intake.events + (if d.Some? then FanOut(features, d.value) else []);
              lastCommand == intake.lastCommand
              && powerSavingMode == Apply(old(powerSavingMode), d)
              && (configActive ==> PassResult(trace, lastUpdate)
                                     == PassFrom(Schedule(features), PassResult(mid, old(lastUpdate)), clock))
              && (!configActive ==> trace == mid && lastUpdate == old(lastUpdate))
    {
      FeedinSerialData(frames);
      UpdatePowerSaving(t1, t2);
      if configActive {
        PollInputs(clock);
      }
    }

    /**
     * The parts of setup() this model covers: the callbacks, then the poll
     * stamps.
     */
    method Setup(tButtons: uint32, tEncoders: uint32, tServos: uint32,
                 tAnalogAverage: uint32, tAnalog: uint32,
                 tInputShifters: uint32, tDigInMux: uint32)
      requires Valid()
      modifies this`handlers, this`defaultHandler, this`lastUpdate
      ensures Valid()
      ensures defaultHandler == Some(Handler.OnUnknownCommand)
      ensures handlers == BuildTable(old(handlers), Registrations(features))
      ensures lastUpdate[ButtonRead] == tButtons && lastUpdate[EncoderRead] == tEncoders
      ensures features.servo ==> lastUpdate[ServosUpdate] == AddWrap(tServos, 2)
      ensures features.analog ==> lastUpdate[AnalogReadAverage] == AddWrap(tAnalogAverage, 4)
      ensures features.analog ==> lastUpdate[AnalogRead] == AddWrap(tAnalog, 4)
      ensures features.inputShifter ==> lastUpdate[InputShifterRead] == AddWrap(tInputShifters, 6)
      ensures features.digInMux ==> lastUpdate[DigInMuxRead] == AddWrap(tDigInMux, 8)
      ensures features.customDevice ==> lastUpdate[CustomDeviceUpdate] == old(lastUpdate[CustomDeviceUpdate])
    {
      AttachCommandCallbacks();
      InitPollIntervals(tButtons, tEncoders, tServos, tAnalogAverage, tAnalog, tInputShifters, tDigInMux);
    }
  }
}
