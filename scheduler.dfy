/**
 * The cooperative poll scheduler of src/mobiflight.cpp: each periodic input
 * task keeps a 32-bit stamp of its last run, and `timedUpdate` runs the task
 * when the wrap-around time since that stamp has reached the task's interval,
 * then re-reads the clock into the stamp. One pass of the control loop
 * considers the compiled-in tasks in a fixed order.
 */
module Scheduler {

  import opened Clock
  import opened Board
  import opened Selection

  // Poll intervals, in milliseconds (MF_..._MS in src/mobiflight.cpp)
  const BUTTON_DEBOUNCE_MS: uint8 := 10
  const ENCODER_DEBOUNCE_MS: uint8 := 1
  const INSHIFTER_POLL_MS: uint8 := 10
  const INMUX_POLL_MS: uint8 := 10
  const SERVO_DELAY_MS: uint8 := 5
  const ANALOGAVERAGE_DELAY_MS: uint8 := 10
  const ANALOGREAD_DELAY_MS: uint8 := 50

  /**
   * The two clock readings of one `timedUpdate` call: `before` is the one the
   * guard compares, `after` the one stored once the task has returned.
   */
  datatype Reading = Reading(before: uint32, after: uint32)

  /** The readings taken around each task's call in one pass of loop(). */
  datatype Readings = Readings(
    buttons: Reading, encoders: Reading, stepper: Reading, servos: Reading,
    analog: Reading, analogAverage: Reading, inputShifters: Reading,
    digInMux: Reading, customDevice: Reading)

  /** The readings around task `t`'s call. */
  function At(c: Readings, t: Task): Reading
  {
    match t
    case ButtonRead => c.buttons
    case EncoderRead => c.encoders
    case StepperUpdate => c.stepper
    case ServosUpdate => c.servos
    case AnalogRead => c.analog
    case AnalogReadAverage => c.analogAverage
    case InputShifterRead => c.inputShifters
    case DigInMuxRead => c.digInMux
    case CustomDeviceUpdate => c.customDevice
  }

  /** The guard of timedUpdate: the interval has elapsed since `last`. */
  predicate Due(now: uint32, last: uint32, intv: uint8)
    // without a wrap: the plain difference reaches the interval
    ensures last <= now ==> (Due(now, last, intv) <==> now - last >= intv)
    // across a wrap: the distance through 2^32 reaches it
    ensures now < last ==> (Due(now, last, intv) <==> MODULUS - (last - now) >= intv)
  {
    Elapsed(now, last) >= intv
  }

  /** The stamp a timedUpdate call leaves behind. */
  function NextStamp(last: uint32, intv: uint8, r: Reading): (s: uint32)
    // the stamp only ever changes to the reading taken after the task returned
    ensures s != last ==> s == r.after
    // a task that has just run is not due again at its own post-run reading
    ensures Due(r.before, last, intv) && intv > 0 ==> !Due(r.after, s, intv)
  {
    if Due(r.before, last, intv) then r.after else last
  }

  // ---------------------------------------------------------------------
  // One task over many passes
  // ---------------------------------------------------------------------

  /** The stamp of a task after the timedUpdate calls that took the readings `rs`. */
  function StampAfter(last: uint32, intv: uint8, rs: seq<Reading>): uint32
    decreases |rs|
  {
    if rs == [] then last
    else NextStamp(StampAfter(last, intv, rs[..|rs| - 1]), intv, rs[|rs| - 1])
  }

  /** Whether the task ran in the k-th of these timedUpdate calls. */
  predicate RanAt(last: uint32, intv: uint8, rs: seq<Reading>, k: nat)
    requires k < |rs|
  {
    Due(rs[k].before, StampAfter(last, intv, rs[..k]), intv)
  }

  /** After a run and no run since, the stamp holds the reading taken after that run. */
  lemma {:induction false} StampIsEndOfLastRun(last: uint32, intv: uint8, rs: seq<Reading>, i: nat, j: nat)
    requires i < j <= |rs|
    requires RanAt(last, intv, rs, i)
    requires forall k :: i < k < j ==> !RanAt(last, intv, rs, k)
    ensures StampAfter(last, intv, rs[..j]) == rs[i].after
  {
    assert rs[..j][..j - 1] == rs[..j - 1];
    if j == i + 1 {
      assert rs[..j][j - 1] == rs[i];
    } else {
      StampIsEndOfLastRun(last, intv, rs, i, j - 1);
      assert !RanAt(last, intv, rs, j - 1);
      assert rs[..j][j - 1] == rs[j - 1];
    }
  }

  /**
   * Fairness of the scheduler: after a run, the next run happens exactly at
   * the first call whose guard reading is at least `intv` past the reading
   * taken when that run finished, measured in wrap-around arithmetic, so it
   * holds across a 2^32 rollover too. In particular two consecutive runs are
   * never closer than `intv`.
   */
  lemma NextRunWhenIntervalElapsed(last: uint32, intv: uint8, rs: seq<Reading>, i: nat, j: nat)
    requires i < j < |rs|
    requires RanAt(last, intv, rs, i)
    requires forall k :: i < k < j ==> !RanAt(last, intv, rs, k)
    ensures RanAt(last, intv, rs, j) <==> Elapsed(rs[j].before, rs[i].after) >= intv
  {
    StampIsEndOfLastRun(last, intv, rs, i, j);
  }

  /**
   * initPollIntervals stores `millis() + k` (k = 2, 4, 6, 8) for some tasks.
   * While the clock has not yet reached such a stamp, the wrap-around time
   * since it is close to 2^32, so the task is already due: it runs on the
   * first pass rather than `k` milliseconds later.
   */
  lemma StampAheadIsDue(t: uint32, j: nat, k: nat, intv: uint8)
    requires j < k <= 8
    ensures Due(AddWrap(t, j), AddWrap(t, k), intv)
  {
    ElapsedToStampAhead(t, j, k);
  }

  // ---------------------------------------------------------------------
  // One pass over all tasks
  // ---------------------------------------------------------------------

  /** A step of the gated body of loop(): a timedUpdate call, or a call made on every pass. */
  datatype Slot = Timed(task: Task, interval: uint8) | Always(task: Task)

  /** Position of each task in the body of loop(). */
  function Rank(t: Task): nat
  {
    match t
    case ButtonRead => 0
    case EncoderRead => 1
    case StepperUpdate => 2
    case ServosUpdate => 3
    case AnalogRead => 4
    case AnalogReadAverage => 5
    case InputShifterRead => 6
    case DigInMuxRead => 7
    case CustomDeviceUpdate => 8
  }

  /** The custom device's step: polled when it has an interval, else called on every pass. */
  function CustomDeviceStep(f: Features): Slot
  {
    match f.customDevicePollMs
    case Some(ms) => Timed(CustomDeviceUpdate, ms)
    case None => Always(CustomDeviceUpdate)
  }

  /** Every step the gated body of loop() can hold, in its order. */
  function Candidates(f: Features): (c: seq<Slot>)
    ensures Increasing(c, SlotRank)
  {
    [ Timed(ButtonRead, BUTTON_DEBOUNCE_MS),
      Timed(EncoderRead, ENCODER_DEBOUNCE_MS),
      Always(StepperUpdate),
      Timed(ServosUpdate, SERVO_DELAY_MS),
      Timed(AnalogRead, ANALOGREAD_DELAY_MS),
      Timed(AnalogReadAverage, ANALOGAVERAGE_DELAY_MS),
      Timed(InputShifterRead, INSHIFTER_POLL_MS),
      Timed(DigInMuxRead, INMUX_POLL_MS),
      CustomDeviceStep(f) ]
  }

  /** Whether a task's call is compiled into loop() (the #ifdef around it). */
  predicate Compiled(f: Features, t: Task)
  {
    match t
    case ButtonRead => true
    case EncoderRead => true
    case StepperUpdate => f.stepper
    case ServosUpdate => f.servo
    case AnalogRead => f.analog
    case AnalogReadAverage => f.analog
    case InputShifterRead => f.inputShifter
    case DigInMuxRead => f.digInMux
    case CustomDeviceUpdate => f.customDevice && f.customDeviceHasUpdate
  }

  function SlotRank(s: Slot): nat
  {
    Rank(s.task)
  }

  function IsCompiled(f: Features): Slot -> bool
  {
    (s: Slot) => Compiled(f, s.task)
  }

  /** The compiled-in steps among `steps`, in their order. */
  function Select(f: Features, steps: seq<Slot>): seq<Slot>
  {
    Keep(steps, IsCompiled(f))
  }

  /** A step as one build has it: present when its #ifdef is compiled in, absent otherwise. */
  function Step(f: Features, s: Slot): seq<Slot>
  {
    if Compiled(f, s.task) then [s] else []
  }

  lemma SelectSnoc(f: Features, steps: seq<Slot>, x: Slot)
    ensures Select(f, steps + [x]) == Select(f, steps) + Step(f, x)
  {
    KeepSnoc(steps, x, IsCompiled(f));
  }

  /** The steps of one scheduler pass in this build, in the order loop() takes them. */
  function Schedule(f: Features): (s: seq<Slot>)
    // every timed step has its field in lastUpdate
    ensures forall i :: 0 <= i < |s| && s[i].Timed? ==> HasStamp(f, s[i].task)
  {
    KeepIsOrderedSubsequence(Candidates(f), IsCompiled(f), SlotRank);
    var s := Select(f, Candidates(f));
    assert forall i :: 0 <= i < |s| ==> s[i] in s;
    s
  }

  /** A pass takes exactly the compiled-in steps, in the task order of loop(), each task at most once. */
  lemma ScheduleFollowsLoopOrder(f: Features)
    ensures Increasing(Schedule(f), SlotRank) && DistinctTasks(Schedule(f))
    ensures forall x :: x in Schedule(f) <==> x in Candidates(f) && Compiled(f, x.task)
  {
    KeepIsOrderedSubsequence(Candidates(f), IsCompiled(f), SlotRank);
  }

  /** The schedule written out as the #ifdef blocks of loop(), one after the other. */
  lemma ScheduleUnrolled(f: Features)
    ensures Schedule(f) == Step(f, Timed(ButtonRead, BUTTON_DEBOUNCE_MS))
            + Step(f, Timed(EncoderRead, ENCODER_DEBOUNCE_MS))
            + Step(f, Always(StepperUpdate))
            + Step(f, Timed(ServosUpdate, SERVO_DELAY_MS))
            + Step(f, Timed(AnalogRead, ANALOGREAD_DELAY_MS))
            + Step(f, Timed(AnalogReadAverage, ANALOGAVERAGE_DELAY_MS))
            + Step(f, Timed(InputShifterRead, INSHIFTER_POLL_MS))
            + Step(f, Timed(DigInMuxRead, INMUX_POLL_MS))
            + Step(f, CustomDeviceStep(f))
  {
    // the candidates, built one step at a time
    ghost var p0: seq<Slot> := [];
    SelectSnoc(f, p0, Timed(ButtonRead, BUTTON_DEBOUNCE_MS));
    ghost var p1 := p0 + [Timed(ButtonRead, BUTTON_DEBOUNCE_MS)];
    SelectSnoc(f, p1, Timed(EncoderRead, ENCODER_DEBOUNCE_MS));
    ghost var p2 := p1 + [Timed(EncoderRead, ENCODER_DEBOUNCE_MS)];
    SelectSnoc(f, p2, Always(StepperUpdate));
    ghost var p3 := p2 + [Always(StepperUpdate)];
    SelectSnoc(f, p3, Timed(ServosUpdate, SERVO_DELAY_MS));
    ghost var p4 := p3 + [Timed(ServosUpdate, SERVO_DELAY_MS)];
    SelectSnoc(f, p4, Timed(AnalogRead, ANALOGREAD_DELAY_MS));
    ghost var p5 := p4 + [Timed(AnalogRead, ANALOGREAD_DELAY_MS)];
    SelectSnoc(f, p5, Timed(AnalogReadAverage, ANALOGAVERAGE_DELAY_MS));
    ghost var p6 := p5 + [Timed(AnalogReadAverage, ANALOGAVERAGE_DELAY_MS)];
    SelectSnoc(f, p6, Timed(InputShifterRead, INSHIFTER_POLL_MS));
    ghost var p7 := p6 + [Timed(InputShifterRead, INSHIFTER_POLL_MS)];
    SelectSnoc(f, p7, Timed(DigInMuxRead, INMUX_POLL_MS));
    ghost var p8 := p7 + [Timed(DigInMuxRead, INMUX_POLL_MS)];
    SelectSnoc(f, p8, CustomDeviceStep(f));
    ghost var p9 := p8 + [CustomDeviceStep(f)];
    assert Select(f, p0) == [];
    assert p9 == Candidates(f);
  }

  /** The trace and the stamps, as a pass leaves them. */
  datatype PassResult = PassResult(events: seq<Event>, stamps: map<Task, uint32>)

  predicate SlotsStamped(slots: seq<Slot>, stamps: map<Task, uint32>)
  {
    forall i :: 0 <= i < |slots| && slots[i].Timed? ==> slots[i].task in stamps
  }

  predicate DistinctTasks(slots: seq<Slot>)
  {
    forall i, j :: 0 <= i < j < |slots| ==> slots[i].task != slots[j].task
  }

  /**
   * One step: the task runs (and is logged) when due; a timed task's stamp
   * takes the later reading. A timed step always finds its field, since the
   * schedule only holds timed tasks that own one (the ensures of Schedule);
   * the membership test only makes the function total.
   */
  function RunSlot(s: Slot, r: PassResult, clock: Readings): (r': PassResult)
    ensures r'.stamps.Keys == r.stamps.Keys
  {
    match s
    case Always(t) => PassResult(r.events + [Run(t)], r.stamps)
    case Timed(t, intv) =>
      if t in r.stamps && Due(At(clock, t).before, r.stamps[t], intv)
      then PassResult(r.events + [Run(t)], r.stamps[t := At(clock, t).after])
      else r
  }

  /** The steps `slots` taken in order from `r`; `At(clock, t)` gives the readings around task t. */
  function PassFrom(slots: seq<Slot>, r: PassResult, clock: Readings): (r': PassResult)
    ensures r'.stamps.Keys == r.stamps.Keys
    decreases |slots|
  {
    if slots == [] then r
    else RunSlot(slots[|slots| - 1], PassFrom(slots[..|slots| - 1], r, clock), clock)
  }

  lemma PassFromSnoc(slots: seq<Slot>, s: Slot, r: PassResult, clock: Readings)
    ensures PassFrom(slots + [s], r, clock) == RunSlot(s, PassFrom(slots, r, clock), clock)
  {
    assert (slots + [s])[..|slots|] == slots;
  }

  /** The stamps of a build's lastUpdate struct: one for each task that has a field. */
  predicate StampsFor(f: Features, stamps: map<Task, uint32>)
  {
    forall t :: t in stamps <==> HasStamp(f, t)
  }

  /** A step of loop()'s body as this build has it: taken when compiled in, skipped otherwise. */
  function StepIf(f: Features, s: Slot, r: PassResult, clock: Readings): (r': PassResult)
    ensures r'.stamps.Keys == r.stamps.Keys
  {
    if Compiled(f, s.task) then RunSlot(s, r, clock) else r
  }

  lemma PassFromStep(f: Features, slots: seq<Slot>, s: Slot, r: PassResult, clock: Readings)
    ensures PassFrom(slots + Step(f, s), r, clock) == StepIf(f, s, PassFrom(slots, r, clock), clock)
  {
    if Compiled(f, s.task) {
      PassFromSnoc(slots, s, r, clock);
    } else {
      assert slots + Step(f, s) == slots;
    }
  }

  /** The pass written out in the statement order of loop(). */
  lemma PassUnrolled(f: Features, r: PassResult, clock: Readings)
    ensures var r1 := StepIf(f, Timed(ButtonRead, BUTTON_DEBOUNCE_MS), r, clock);
            var r2 := StepIf(f, Timed(EncoderRead, ENCODER_DEBOUNCE_MS), r1, clock);
            var r3 := StepIf(f, Always(StepperUpdate), r2, clock);
            var r4 := StepIf(f, Timed(ServosUpdate, SERVO_DELAY_MS), r3, clock);
            var r5 := StepIf(f, Timed(AnalogRead, ANALOGREAD_DELAY_MS), r4, clock);
            var r6 := StepIf(f, Timed(AnalogReadAverage, ANALOGAVERAGE_DELAY_MS), r5, clock);
            var r7 := StepIf(f, Timed(InputShifterRead, INSHIFTER_POLL_MS), r6, clock);
            var r8 := StepIf(f, Timed(DigInMuxRead, INMUX_POLL_MS), r7, clock);
            var r9 := StepIf(f, CustomDeviceStep(f), r8, clock);
            PassFrom(Schedule(f), r, clock) == r9
  {
    ScheduleUnrolled(f);
    ghost var s0: seq<Slot> := [];
    PassFromStep(f, s0, Timed(ButtonRead, BUTTON_DEBOUNCE_MS), r, clock);
    ghost var s1 := s0 + Step(f, Timed(ButtonRead, BUTTON_DEBOUNCE_MS));
    PassFromStep(f, s1, Timed(EncoderRead, ENCODER_DEBOUNCE_MS), r, clock);
    ghost var s2 := s1 + Step(f, Timed(EncoderRead, ENCODER_DEBOUNCE_MS));
    PassFromStep(f, s2, Always(StepperUpdate), r, clock);
    ghost var s3 := s2 + Step(f, Always(StepperUpdate));
    PassFromStep(f, s3, Timed(ServosUpdate, SERVO_DELAY_MS), r, clock);
    ghost var s4 := s3 + Step(f, Timed(ServosUpdate, SERVO_DELAY_MS));
    PassFromStep(f, s4, Timed(AnalogRead, ANALOGREAD_DELAY_MS), r, clock);
    ghost var s5 := s4 + Step(f, Timed(AnalogRead, ANALOGREAD_DELAY_MS));
    PassFromStep(f, s5, Timed(AnalogReadAverage, ANALOGAVERAGE_DELAY_MS), r, clock);
    ghost var s6 := s5 + Step(f, Timed(AnalogReadAverage, ANALOGAVERAGE_DELAY_MS));
    PassFromStep(f, s6, Timed(InputShifterRead, INSHIFTER_POLL_MS), r, clock);
    ghost var s7 := s6 + Step(f, Timed(InputShifterRead, INSHIFTER_POLL_MS));
    PassFromStep(f, s7, Timed(DigInMuxRead, INMUX_POLL_MS), r, clock);
    ghost var s8 := s7 + Step(f, Timed(DigInMuxRead, INMUX_POLL_MS));
    PassFromStep(f, s8, CustomDeviceStep(f), r, clock);
    ghost var s9 := s8 + Step(f, CustomDeviceStep(f));
    assert s1 == Step(f, Timed(ButtonRead, BUTTON_DEBOUNCE_MS));
  }

  /** Reference definition: whether a step fires, judged on the stamps the pass started with. */
  predicate Fires(s: Slot, stamps: map<Task, uint32>, clock: Readings)
  {
    s.Always? || (s.task in stamps && Due(At(clock, s.task).before, stamps[s.task], s.interval))
  }

  /** Reference definition: the runs of the steps that fire, in step order. */
  function DueRuns(slots: seq<Slot>, stamps: map<Task, uint32>, clock: Readings): seq<Event>
    decreases |slots|
  {
    if slots == [] then []
    else
      var s := slots[|slots| - 1];
      DueRuns(slots[..|slots| - 1], stamps, clock) + (if Fires(s, stamps, clock) then [Run(s.task)] else [])
  }

  /** The tasks of `slots` that own a stamp. */
  function TimedTasks(slots: seq<Slot>): set<Task>
  {
    set i | 0 <= i < |slots| && slots[i].Timed? :: slots[i].task
  }

  /** Dropping the last step keeps the schedule stamped and its tasks distinct. */
  lemma SlotsPrefix(slots: seq<Slot>, stamps: map<Task, uint32>)
    requires SlotsStamped(slots, stamps) && DistinctTasks(slots) && slots != []
    ensures SlotsStamped(slots[..|slots| - 1], stamps) && DistinctTasks(slots[..|slots| - 1])
    ensures slots[|slots| - 1].task !in TimedTasks(slots[..|slots| - 1])
  {
    var prefix := slots[..|slots| - 1];
    assert forall i :: 0 <= i < |prefix| ==> prefix[i] == slots[i];
  }

  /**
   * Within one pass, the tasks do not influence each other: each is judged
   * on its own stamp as the pass found it. The pass logs exactly the runs of
   * the due tasks, in step order; a timed task's stamp becomes what one
   * timedUpdate call leaves; every other stamp is unchanged.
   */
  lemma {:induction false} PassRunsExactlyTheDueTasks(slots: seq<Slot>, r: PassResult, clock: Readings)
    requires SlotsStamped(slots, r.stamps) && DistinctTasks(slots)
    ensures PassFrom(slots, r, clock).events == r.events + DueRuns(slots, r.stamps, clock)
    ensures forall i :: 0 <= i < |slots| && slots[i].Timed? ==>
              PassFrom(slots, r, clock).stamps[slots[i].task]
              == NextStamp(r.stamps[slots[i].task], slots[i].interval, At(clock, slots[i].task))
    ensures forall t :: t in r.stamps && t !in TimedTasks(slots) ==> PassFrom(slots, r, clock).stamps[t] == r.stamps[t]
    decreases |slots|
  {
    if slots != [] {
      var n := |slots| - 1;
      var s := slots[n];
      var prefix := slots[..n];
      assert slots == prefix + [s];
      PassFromSnoc(prefix, s, r, clock);
      SlotsPrefix(slots, r.stamps);
      PassRunsExactlyTheDueTasks(prefix, r, clock);
      var mid := PassFrom(prefix, r, clock);
      var res := PassFrom(slots, r, clock);
      assert res == RunSlot(s, mid, clock);
      assert DueRuns(slots, r.stamps, clock)
             == DueRuns(prefix, r.stamps, clock) + (if Fires(s, r.stamps, clock) then [Run(s.task)] else []);
      if s.Timed? {
        assert mid.stamps[s.task] == r.stamps[s.task];
      }
      forall i | 0 <= i < |slots| && slots[i].Timed?
        ensures res.stamps[slots[i].task]
                == NextStamp(r.stamps[slots[i].task], slots[i].interval, At(clock, slots[i].task))
      {
        if i < n {
          assert prefix[i] == slots[i];
          assert slots[i].task != s.task;
        }
      }
      forall t | t in r.stamps && t !in TimedTasks(slots)
        ensures res.stamps[t] == r.stamps[t]
      {
        if s.Timed? {
          assert t != s.task by {
            assert slots[n].Timed? && slots[n].task == s.task;
          }
        }
      }
    }
  }

  /**
   * The same for the pass loop() makes, from stamps with exactly this
   * build's fields: it runs the due compiled-in tasks in loop()'s order, and
   * each timed task's stamp is what its own timedUpdate call leaves.
   */
  lemma LoopPassRunsTheDueTasks(f: Features, r: PassResult, clock: Readings)
    requires StampsFor(f, r.stamps)
    ensures PassFrom(Schedule(f), r, clock).events == r.events + DueRuns(Schedule(f), r.stamps, clock)
    ensures forall i :: 0 <= i < |Schedule(f)| && Schedule(f)[i].Timed? ==>
              PassFrom(Schedule(f), r, clock).stamps[Schedule(f)[i].task]
              == NextStamp(r.stamps[Schedule(f)[i].task], Schedule(f)[i].interval, At(clock, Schedule(f)[i].task))
    ensures forall t :: t in r.stamps && t !in TimedTasks(Schedule(f)) ==>
              PassFrom(Schedule(f), r, clock).stamps[t] == r.stamps[t]
  {
    ScheduleFollowsLoopOrder(f);
    PassRunsExactlyTheDueTasks(Schedule(f), r, clock);
  }
}
