# MobiFlight firmware runtime, modelled in Dafny

MobiFlight firmware runs on a microcontroller that links flight-simulator
software to buttons, encoders, LEDs, steppers, servos, displays and similar
hardware. This project models the single-threaded runtime in
`src/mobiflight.cpp` and `src/CommandMessenger.cpp` that drives it:

- **Timed poll scheduler.** Each periodic input task keeps a 32-bit stamp
  in `lastUpdate`.
  - `timedUpdate` runs the task once the wrap-around time since that stamp
    reaches the task's interval, then re-reads the clock into the stamp.
  - `initPollIntervals` staggers the first stamps.
  - The gated body of `loop()` takes the compiled-in tasks in a fixed order,
    and only while the configuration is active.
- **Idle / power-saving state machine.** `powerSavingMode` is stored.
  - On every pass, `updatePowerSaving` compares the time since `lastCommand`
    with 900 000 ms. It switches saving on above the threshold and off below
    it.
  - Each switch fans out `PowerSave(state)` to the power-aware device
    families in a fixed order.
  - The set-power-saving-mode command rewrites `lastCommand` to 0 or to the
    current time.
- **Command callback table.** `attachCommandCallbacks` installs
  `OnUnknownCommand` as the default callback, then one handler per
  compiled-in command code.
  - The unknown-command handler refreshes `lastCommand` and replies
    `(kStatus, "n/a")`.
  - `OnTrigger` asks the input families to report their state.

Layout:

- **`Clock`**: unsigned 32-bit clock arithmetic.
- **`Board`**: the compile-time feature switches, the device families, the
  tasks, the command codes and handlers, and the observable events.
- **`Selection`**: the `#ifdef` selection of a fixed call list.
- **`Scheduler`**, **`PowerSaving`** and **`Commands`**: the specification
  functions of the three parts, and the lemmas about them.
- **`Firmware.Runtime`**: one class holding the globals of both files.
  - Fields: `powerSavingMode`, `lastUpdate`, `lastCommand`, the callback
    table and an event trace.
  - One method per C++ function. Each is proved against the specification
    functions.

Conventions of the model:

- Every `millis()` reading is a parameter. `timedUpdate` takes one reading
  before the call and one after it; `updatePowerSaving` takes one per
  condition.
- The fields of `lastUpdate` that a build declares are the keys of a map,
  and `Runtime.Valid()` says the keys are exactly those fields.
- What the device drivers do is recorded as events: `Run`, `PowerSave`,
  `Trigger`, `Send` and `Handled`.

Points where the code does something other than a natural reading of its
design; the model follows the code:

- The comparisons against 900 000 ms are strict in both directions. At
  exactly 900 000 ms nothing changes, rather than saving switching on at
  "15 minutes or more".
- Of the handlers in `src/CommandMessenger.cpp`, only `OnUnknownCommand` and
  `OnSetPowerSavingMode` write `lastCommand`. Nothing in the two files writes
  it while a command is dispatched, and the model assumes the CmdMessenger
  library does not either (see Left out).
- Idle time is measured in 32 bits. After 2^32 ms (about 49.7 days) without
  a command it laps back to zero, and saving is switched off for up to 15
  minutes (`PowerSaving.IdleLapSwitchesSavingOff`).
- Override-on stores 0. It therefore switches saving on only once the clock
  itself is past 900 000 ms, not on the next evaluation in every case.
- The power mode is a stored flag that `updatePowerSaving` reads and
  compares, rather than a value recomputed from the idle time alone.

Two comments in the source promise more than their code does. The model
keeps the code's behaviour and proves what actually happens:

- `src/mobiflight.cpp:89` says the staggered stamps keep the inputs from
  being read in the same loop pass. The stamps are set 2 to 8 ms ahead of the
  clock, so while the clock has not reached them they look almost 2^32 ms
  old. Every staggered task is therefore due on the first pass
  (`Scheduler.StampAheadIsDue`).
- `src/CommandMessenger.cpp:113-115` says override-on turns saving on the
  next time `loop()` runs. During the first 900 000 ms after reset, the idle
  time `now - 0` is below the threshold, so it does not
  (`Commands.OverrideOnThenEvaluate`).

## Model

| member | source | states |
|---|---|---|
| Clock.Elapsed | src/mobiflight.cpp:109 | `now - last` in uint32 is the unique 32-bit d with `last + d ≡ now`: the plain difference without a wrap, `2^32 - (last - now)` across one |
| Clock.AddWrap | src/mobiflight.cpp:93-103 | `millis() + k` in uint32: `t + k`, or `t + k - 2^32` when it overflows |
| Clock.ElapsedAfterAdd | src/mobiflight.cpp:93-109 | the elapsed time from `t` to `t + k` is `k` for every 32-bit k, across a wrap too |
| Clock.AddAfterElapsed | src/mobiflight.cpp:109 | adding the elapsed time to `last` gives `now` back on the wrapping clock |
| Clock.ElapsedToStampAhead | src/mobiflight.cpp:93-109 | a stamp `k` ms ahead of the clock, seen from a reading only `j < k` ms later, is `2^32 - (k - j)` ms in the past |
| Scheduler.Due | src/mobiflight.cpp:109 | the guard of timedUpdate in both cases: without a wrap the plain difference reaches the interval; across a wrap the distance through 2^32 does |
| Scheduler.NextStamp | src/mobiflight.cpp:109-111 | the stamp only ever changes to the reading taken after the task returned; a task that has just run (with a non-zero interval) is not due again at its own post-run reading |
| Scheduler.StampIsEndOfLastRun | src/mobiflight.cpp:109-111 | after a run and no run since, the stamp equals the reading taken after that run returned |
| Scheduler.NextRunWhenIntervalElapsed | src/mobiflight.cpp:109-111 | after a run, a later call runs the task iff its guard reading is at least `intv` past the post-run reading in wrap-around arithmetic; two runs are never closer than `intv` |
| Scheduler.StampAheadIsDue | src/mobiflight.cpp:93-109 | a stamp that initPollIntervals set 2..8 ms ahead is due, whatever the interval, while the clock has not reached it: the task runs on the first pass |
| Scheduler.Candidates | src/mobiflight.cpp:194-225 | the steps loop() can hold, in its statement order (strictly increasing task rank) |
| Scheduler.Schedule | src/mobiflight.cpp:194-225 | every timed step of a build's pass has its own field in lastUpdate |
| Scheduler.ScheduleFollowsLoopOrder | src/mobiflight.cpp:192-228 | a pass takes exactly the compiled-in steps (Buttons, Encoders, Stepper, Servos, Analog, AnalogAverage, InputShifters, DigInMux, CustomDevice order), each task at most once |
| Scheduler.ScheduleUnrolled | src/mobiflight.cpp:194-225 | the schedule is the #ifdef blocks of loop() one after the other, the custom device polled when it has an interval and called directly otherwise |
| Scheduler.PassUnrolled | src/mobiflight.cpp:194-225 | a pass is the nine statements of loop()'s gated body taken in order, each skipped when compiled out |
| Scheduler.PassRunsExactlyTheDueTasks | src/mobiflight.cpp:107-113 | with distinct, stamped tasks, a pass logs exactly the runs of the tasks due on the stamps it started with, in step order; each timed stamp becomes what one timedUpdate leaves; other stamps are unchanged |
| Scheduler.LoopPassRunsTheDueTasks | src/mobiflight.cpp:192-228 | the same for the pass of loop() from a stamp map with exactly the build's fields |
| PowerSaving.PowerOrderListsPowerAwareFamilies | src/mobiflight.cpp:122-136 | SetPowerSavingMode's call list names each power-aware family once, in rank order |
| PowerSaving.FanOutReachesPowerAwareFamilies | src/mobiflight.cpp:118-137 | the fan-out calls PowerSave(state) on exactly the compiled-in power-aware families, once each, in the order Output, LedSegment, Stepper, CustomDevice, OutputShifter, LCDDisplay, and nothing else |
| PowerSaving.FanOutInCallOrder | src/mobiflight.cpp:122-137 | the fan-out is Output's call followed by each optional family's call when compiled in |
| PowerSaving.FanOutUnrolled | src/mobiflight.cpp:122-137 | the same laid out as the #ifdef blocks, appended to the trace |
| PowerSaving.Decision | src/mobiflight.cpp:147-156 | a call of updatePowerSaving that switches always switches to the other mode |
| PowerSaving.DecisionRule | src/mobiflight.cpp:149-155 | both directions of the switching rule: on iff off and idle > 900 000 ms; off iff on and idle < 900 000 ms; nothing at exactly 900 000 ms |
| PowerSaving.DecisionReadsOneClock | src/mobiflight.cpp:149-152 | only the first condition's reading matters when saving is off, only the second's when it is on |
| PowerSaving.DecisionIdempotent | src/mobiflight.cpp:149-155 | after a switch, evaluating again at the same reading does nothing: at most one fan-out per evaluation, the steady state is a no-op |
| PowerSaving.StaysOnWhileIdle | src/mobiflight.cpp:149-155 | with saving on and idle time above the threshold and growing, no evaluation switches again |
| PowerSaving.IdleTimeoutSwitchesOnOnce | src/mobiflight.cpp:147-156 | with saving off, no command and idle time growing, saving is switched on exactly once if the idle time ends above 900 000 ms, never otherwise, and never switched off |
| PowerSaving.IdleLapSwitchesSavingOff | src/mobiflight.cpp:152-154 | with saving on, an evaluation whose real idle time is a whole 2^32 ms lap plus less than 900 000 ms sees only the remainder and switches saving off |
| PowerSaving.ColdStartSwitchesOnPastThreshold | src/mobiflight.cpp:147-151 | from reset (lastCommand 0, saving off) and no command, saving switches on iff the clock reading exceeds 900 000 ms; over rising readings it has been switched on exactly once after each evaluation whose reading is past the threshold, and not at all before the first such one |
| Commands.CallbacksInAttachOrder | src/CommandMessenger.cpp:53-94 | the i-th attach call has CodeRank i, so ranks strictly increase and each code appears once: none is attached twice |
| Commands.RegistrationsAreTheCompiledCalls | src/CommandMessenger.cpp:53-94 | a build attaches exactly its compiled-in calls, each with a distinct code |
| Commands.RegistrationsInBlocks | src/CommandMessenger.cpp:53-94 | a build's attach calls are the #ifdef blocks, each kept or dropped whole, in source order |
| Commands.TableUnrolled | src/CommandMessenger.cpp:53-94 | the table after the attach calls is the chain of one map update per compiled-in attach call, in source order |
| Commands.BuildTableMapsEachCode | src/CommandMessenger.cpp:54-93 | with distinct codes, the table's keys are the old ones plus the attached codes, each attached code maps to its handler, and every other code keeps its old entry |
| Commands.DispatchSelectsAttachedOrDefault | src/CommandMessenger.cpp:48-94 | an attached code selects exactly its handler; every other code (response codes, unnamed numbers) selects OnUnknownCommand |
| Commands.AttachedHandlerSelected | src/CommandMessenger.cpp:53-94 | every compiled-in attach call decides the dispatch of its code |
| Commands.TriggerOrderListsInputFamilies | src/CommandMessenger.cpp:140-148 | OnTrigger's call list names each input family that reports on request once, in rank order |
| Commands.TriggerFanOutReachesInputFamilies | src/CommandMessenger.cpp:138-150 | OnTrigger calls OnTrigger on exactly the compiled-in families among Button, InputShifter, DigInMux, Analog, once each, in that order, and nothing else |
| Commands.TriggerFanOutInCallOrder | src/CommandMessenger.cpp:138-150 | the trigger fan-out is Button's call followed by each optional family's call when compiled in |
| Commands.TriggerFanOutUnrolled | src/CommandMessenger.cpp:138-150 | the same laid out as the #ifdef blocks, appended to the trace |
| Commands.HandlerEffects | src/CommandMessenger.cpp:102-150 | about Execute, the handlers as dispatched: the only message sent is (kStatus, "n/a"), and only by OnUnknownCommand; only OnTrigger asks families to report, and only input families; every other handler has at most one observable effect |
| Commands.OnlyTwoHandlersWriteLastCommand | src/CommandMessenger.cpp:102-131 | among the handlers of src/CommandMessenger.cpp, one that changes lastCommand is OnUnknownCommand or OnSetPowerSavingMode; handlers of other files are assumed to keep it (see Left out) |
| Commands.UnknownCodeRepliesNotApplicable | src/CommandMessenger.cpp:102-106 | an unattached code sets lastCommand to the clock and sends exactly one (kStatus, "n/a") |
| Commands.TriggerCommandFansOut | src/CommandMessenger.cpp:138-150 | kTrigger fans out to the input families and leaves lastCommand alone |
| Commands.OverrideOffThenEvaluate | src/CommandMessenger.cpp:125-130 | set-power-saving-mode(false) at t stores t and sends nothing; an evaluation less than 900 000 ms later switches saving off |
| Commands.OverrideOnThenEvaluate | src/CommandMessenger.cpp:116-121 | set-power-saving-mode(true) stores 0 and sends nothing; the next evaluation switches saving on iff the clock reading exceeds 900 000 ms |
| Firmware.Runtime.constructor | src/mobiflight.cpp:52-83 | static initialisation: saving off, every declared stamp 0, no callbacks, empty trace, and lastCommand 0 (the zero-initialised global of src/CommandMessenger.cpp:41) |
| Firmware.Runtime.AttachCommandCallbacks | src/CommandMessenger.cpp:48-99 | installs OnUnknownCommand as the default and applies the build's attach calls in order to the table |
| Firmware.Runtime.OnUnknownCommand | src/CommandMessenger.cpp:102-106 | lastCommand becomes the clock reading; exactly one (kStatus, "n/a") is sent; nothing else changes |
| Firmware.Runtime.OnSetPowerSavingMode | src/CommandMessenger.cpp:109-131 | true stores 0, false stores the clock reading; only lastCommand changes, nothing is sent |
| Firmware.Runtime.GetLastCommandMillis | src/CommandMessenger.cpp:133-136 | returns lastCommand and changes nothing |
| Firmware.Runtime.OnTrigger | src/CommandMessenger.cpp:138-150 | appends the build's trigger fan-out to the trace; stamps, lastCommand and mode are untouched |
| Firmware.Runtime.Dispatch | src/CommandMessenger.cpp:101-150 | one decoded command runs its attached handler, else the default, with the effect Receive gives |
| Firmware.Runtime.FeedinSerialData | src/mobiflight.cpp:185-186 | the arrived commands are dispatched in order, with the effect Intake gives |
| Firmware.Runtime.InitPollIntervals | src/mobiflight.cpp:87-105 | each declared stamp gets its reading plus 0, 0, 2, 4, 4, 6, 8 in uint32; the custom-device stamp is unchanged; the stamp fields stay those of the build |
| Firmware.Runtime.TimedUpdate | src/mobiflight.cpp:107-113 | when due on the before-reading, one Run is logged and the stamp takes the after-reading; otherwise nothing changes |
| Firmware.Runtime.SetPowerSavingMode | src/mobiflight.cpp:118-145 | stores the mode, then appends the build's PowerSave fan-out |
| Firmware.Runtime.UpdatePowerSaving | src/mobiflight.cpp:147-156 | mode and trace change as Decision says, with at most one fan-out |
| Firmware.Runtime.PollStep | src/mobiflight.cpp:194-225 | one statement of loop()'s gated body: the step as StepIf gives it |
| Firmware.Runtime.PollInputs | src/mobiflight.cpp:192-228 | the gated body leaves trace and stamps as the build's pass (PassFrom over Schedule) does, keeping the stamp fields |
| Firmware.Runtime.Loop | src/mobiflight.cpp:183-229 | serial intake, then the idle check, then, only when the configuration is active, the poll pass; otherwise trace and stamps are left as the first two steps leave them |
| Firmware.Runtime.Setup | src/mobiflight.cpp:170-178 | the callbacks are attached, then the poll stamps are staggered |

## Left out

- The CmdMessenger library (`src/commandmessenger.h` and the library itself
  are not part of this model). The following are represented as follows:
  - Frame decoding, `feedinSerialData`'s reading of the serial port and
    `readBoolArg` become a sequence of decoded frames, each carrying a code,
    its boolean argument and the clock reading.
  - `sendCmd` appends a `Send` event.
  - The library's dispatch is taken to write none of the firmware's
    globals: `lastCommand` changes only in the handlers.
  - The numeric values of the command codes are not modelled. The codes
    are distinct symbols, plus `Other(n)` for any other number on the wire.
- `Serial.begin`, `cmdMessenger.printLfCr`, `MFeeprom.init`, `ResetBoard`
  (`restoreName`, `loadConfig`): I/O and configuration defined in other files.
  `Setup` covers only `attachCommandCallbacks` and `initPollIntervals`.
- `getStatusConfig()`: its result is a boolean parameter of `Loop`.
- Device drivers (Button, Encoder, Analog, InputShifter, DigInMux, Output,
  LedSegment, Stepper, Servos, LCDDisplay, OutputShifter, CustomDevice,
  MFMuxDriver): their bodies are hardware code outside this model. Their
  calls become `Run`, `PowerSave`, `Trigger` and `Handled` events.
- The handlers of other files (OnGetInfo, OnSetConfig, the device OnSet
  handlers, ...): their bodies are not part of this model. The model assumes
  they leave `lastCommand`, `lastUpdate` and `powerSavingMode` as they were,
  and records only a `Handled(h)` event (`Commands.Execute`, catch-all
  case).
- Commands.OnlyTwoHandlersWriteLastCommand: proved for the handlers of
  `src/CommandMessenger.cpp`. For the handlers of other files it holds only
  by the assumption above.
- The `DEBUG2CMDMESSENGER` sends: diagnostic only; the model is of a
  non-debug build.
- `millis()` as a hardware clock: every reading is a parameter. The
  readings of one pass are not constrained to rise; the lemmas state their
  own assumptions.
- `src/allocateMem.h`: declarations only, with no behaviour shown.
- Scheduler.RunSlot: the membership test on the stamp map stands for the
  struct field existing at compile time. The schedule's timed steps always
  own a field in a valid state (`Schedule`'s ensures), so the test never
  fails there.
- Firmware.Runtime.PollStep: the same membership stand-in for the
  compile-time field.
- Firmware.Runtime.Dispatch: a command with no attached handler and no
  default is ignored. The firmware always installs the default first, so
  this case does not arise after `Setup`.
- The loop is modelled one pass at a time (`Loop`). Properties over many
  passes are stated on the specification functions (`StampAfter`,
  `Switches`) rather than on repeated method calls.
