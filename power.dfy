/**
 * The idle / power-saving state machine of src/mobiflight.cpp. The stored
 * mode `powerSavingMode` is compared on every control-loop pass against the
 * time since the last command: idle for more than fifteen minutes switches
 * saving on, any shorter idle time switches it off again. Each switch fans
 * out to the power-aware device families in a fixed order.
 */
module PowerSaving {

  import opened Clock
  import opened Board
  import opened Selection

  /** Fifteen minutes, in seconds. */
  const POWER_SAVING_TIME: nat := 60 * 15
  /** The idle threshold in milliseconds, as updatePowerSaving compares it. */
  const POWER_SAVING_MS: uint32 := POWER_SAVING_TIME * 1000

  /** Position in SetPowerSavingMode's call order; 6 for families it does not call. */
  function PowerRank(fam: Family): nat
  {
    match fam
    case Output => 0
    case LedSegment => 1
    case Stepper => 2
    case CustomDevice => 3
    case OutputShifter => 4
    case LCDDisplay => 5
    case _ => 6
  }

  predicate PowerAware(fam: Family)
  {
    PowerRank(fam) < 6
  }

  /** The order in which SetPowerSavingMode calls the families' PowerSave. */
  const POWER_ORDER: seq<Family> := [Output, LedSegment, Stepper, CustomDevice, OutputShifter, LCDDisplay]

  /** One PowerSave(on) call per family of `fams`, in order. */
  function PowerSaveCalls(fams: seq<Family>, on: bool): (r: seq<Event>)
    ensures |r| == |fams| && forall i :: 0 <= i < |fams| ==> r[i] == PowerSave(fams[i], on)
  {
    seq(|fams|, i requires 0 <= i < |fams| => PowerSave(fams[i], on))
  }

  lemma PowerSaveCallsSnoc(fams: seq<Family>, x: Family, on: bool)
    ensures PowerSaveCalls(fams + [x], on) == PowerSaveCalls(fams, on) + [PowerSave(x, on)]
  {
  }

  /** The PowerSave(on) calls SetPowerSavingMode makes in this build. */
  function FanOut(f: Features, on: bool): seq<Event>
  {
    PowerSaveCalls(EnabledIn(f, POWER_ORDER), on)
  }

  /** The calls of a family list name exactly its families, and keep their order. */
  lemma PowerSaveCallsFollowFamilies(fams: seq<Family>, on: bool)
    ensures forall fam :: PowerSave(fam, on) in PowerSaveCalls(fams, on) <==> fam in fams
    ensures Increasing(fams, PowerRank) ==> Increasing(PowerSaveCalls(fams, on), CallRank)
  {
    var r := PowerSaveCalls(fams, on);
    forall fam ensures PowerSave(fam, on) in r <==> fam in fams {
      if PowerSave(fam, on) in r {
        var i :| 0 <= i < |r| && r[i] == PowerSave(fam, on);
        assert fams[i] == fam;
      }
      if fam in fams {
        var i :| 0 <= i < |fams| && fams[i] == fam;
        assert r[i] == PowerSave(fam, on);
      }
    }
    if Increasing(fams, PowerRank) {
      forall i, j | 0 <= i < j < |r| ensures CallRank(r[i]) < CallRank(r[j]) {
        assert r[i].family == fams[i] && r[j].family == fams[j];
      }
    }
  }

  /** A PowerSave call's position in SetPowerSavingMode's call order. */
  function CallRank(e: Event): nat
  {
    if e.PowerSave? then PowerRank(e.family) else 6
  }

  /**
   * SetPowerSavingMode reaches every compiled-in power-aware family once,
   * in the order Output, LedSegment, Stepper, CustomDevice, OutputShifter,
   * LCDDisplay, with the requested mode, and nothing else.
   */
  lemma FanOutReachesPowerAwareFamilies(f: Features, on: bool)
    ensures forall i :: 0 <= i < |FanOut(f, on)| ==> FanOut(f, on)[i].PowerSave? && FanOut(f, on)[i].on == on
    ensures forall fam :: PowerSave(fam, on) in FanOut(f, on) <==> PowerAware(fam) && Enabled(f, fam)
    ensures forall i, j :: 0 <= i < j < |FanOut(f, on)| ==>
              PowerRank(FanOut(f, on)[i].family) < PowerRank(FanOut(f, on)[j].family)
  {
    var fams := EnabledIn(f, POWER_ORDER);
    var r := FanOut(f, on);
    assert r == PowerSaveCalls(fams, on);
    PowerOrderListsPowerAwareFamilies();
    EnabledInIsOrderedSubsequence(f, POWER_ORDER, PowerRank);
    PowerSaveCallsFollowFamilies(fams, on);
    assert Increasing(r, CallRank);
  }

  /** The call order lists each power-aware family, ranked as the order says. */
  lemma PowerOrderListsPowerAwareFamilies()
    ensures Increasing(POWER_ORDER, PowerRank)
    ensures forall fam :: fam in POWER_ORDER <==> PowerAware(fam)
  {
  }

  /** One more family of SetPowerSavingMode's list, compiled in or not. */
  lemma FanOutStep(f: Features, done: seq<Family>, fam: Family, on: bool)
    ensures PowerSaveCalls(EnabledIn(f, done + [fam]), on)
            == PowerSaveCalls(EnabledIn(f, done), on) + (if Enabled(f, fam) then [PowerSave(fam, on)] else [])
  {
    EnabledInSnoc(f, done, fam);
    if Enabled(f, fam) {
      PowerSaveCallsSnoc(EnabledIn(f, done), fam, on);
    } else {
      assert EnabledIn(f, done) + [] == EnabledIn(f, done);
    }
  }

  /** SetPowerSavingMode's calls, one per family of its list that is compiled in. */
  lemma {:induction false} FanOutInCallOrder(f: Features, on: bool)
    ensures FanOut(f, on)
            == [PowerSave(Output, on)]
               + (if Enabled(f, LedSegment) then [PowerSave(LedSegment, on)] else [])
               + (if Enabled(f, Stepper) then [PowerSave(Stepper, on)] else [])
               + (if Enabled(f, CustomDevice) then [PowerSave(CustomDevice, on)] else [])
               + (if Enabled(f, OutputShifter) then [PowerSave(OutputShifter, on)] else [])
               + (if Enabled(f, LCDDisplay) then [PowerSave(LCDDisplay, on)] else [])
  {
    var d0: seq<Family> := [];
    var d1 := d0 + [Output];
    var d2 := d1 + [LedSegment];
    var d3 := d2 + [Stepper];
    var d4 := d3 + [CustomDevice];
    var d5 := d4 + [OutputShifter];
    var d6 := d5 + [LCDDisplay];
    FanOutStep(f, d0, Output, on);
    FanOutStep(f, d1, LedSegment, on);
    FanOutStep(f, d2, Stepper, on);
    FanOutStep(f, d3, CustomDevice, on);
    FanOutStep(f, d4, OutputShifter, on);
    FanOutStep(f, d5, LCDDisplay, on);
    assert PowerSaveCalls(EnabledIn(f, d1), on) == [PowerSave(Output, on)];
    assert d6 == POWER_ORDER;
    assert FanOut(f, on) == PowerSaveCalls(EnabledIn(f, POWER_ORDER), on);
  }

  /** The same calls, one #ifdef at a time, appended to the events `before`. */
  lemma FanOutUnrolled(f: Features, on: bool, before: seq<Event>)
    ensures before + FanOut(f, on)
            == before + [PowerSave(Output, on)]
               + (if f.segment then [PowerSave(LedSegment, on)] else [])
               + (if f.stepper then [PowerSave(Stepper, on)] else [])
               + (if f.customDevice then [PowerSave(CustomDevice, on)] else [])
               + (if f.outputShifter then [PowerSave(OutputShifter, on)] else [])
               + (if f.lcd then [PowerSave(LCDDisplay, on)] else [])
  {
    FanOutInCallOrder(f, on);
    var x2 := if f.segment then [PowerSave(LedSegment, on)] else [];
    var x3 := if f.stepper then [PowerSave(Stepper, on)] else [];
    var x4 := if f.customDevice then [PowerSave(CustomDevice, on)] else [];
    var x5 := if f.outputShifter then [PowerSave(OutputShifter, on)] else [];
    var x6 := if f.lcd then [PowerSave(LCDDisplay, on)] else [];
    var c1 := [PowerSave(Output, on)];
    var c2 := c1 + x2;
    var c3 := c2 + x3;
    var c4 := c3 + x4;
    var c5 := c4 + x5;
    assert FanOut(f, on) == c5 + x6;
    AppendAssoc(before, c5, x6);
    AppendAssoc(before, c4, x5);
    AppendAssoc(before, c3, x4);
    AppendAssoc(before, c2, x3);
    AppendAssoc(before, c1, x2);
  }

  /**
   * The SetPowerSavingMode call updatePowerSaving makes, if any, given the
   * mode, lastCommand and the two clock readings of its two conditions.
   */
  function Decision(saving: bool, lastCommand: uint32, t1: uint32, t2: uint32): (d: Option<bool>)
    // a call always switches to the other mode
    ensures d.Some? ==> d.value == !saving
  {
    if !saving && Elapsed(t1, lastCommand) > POWER_SAVING_MS then Some(true)
    else if saving && Elapsed(t2, lastCommand) < POWER_SAVING_MS then Some(false)
    else None
  }

  /** The mode after a decision. */
  function Apply(saving: bool, d: Option<bool>): bool
  {
    if d.Some? then d.value else saving
  }

  /**
   * Both directions of the switching rule, with strict comparisons: at an
   * idle time of exactly 900 000 ms nothing changes in either mode.
   */
  lemma DecisionRule(saving: bool, lastCommand: uint32, t1: uint32, t2: uint32)
    ensures Decision(saving, lastCommand, t1, t2) == Some(true)
            <==> !saving && Elapsed(t1, lastCommand) > 900000
    ensures Decision(saving, lastCommand, t1, t2) == Some(false)
            <==> saving && Elapsed(t2, lastCommand) < 900000
    ensures Elapsed(t1, lastCommand) == 900000 == Elapsed(t2, lastCommand)
            ==> Decision(saving, lastCommand, t1, t2) == None
  {
  }

  /**
   * Only one of the two readings is ever looked at: the first when saving is
   * off, the second when it is on (the && in each condition short-circuits).
   */
  lemma DecisionReadsOneClock(saving: bool, lastCommand: uint32, t1: uint32, t2: uint32)
    ensures Decision(saving, lastCommand, t1, t2)
            == (var t := if saving then t2 else t1; Decision(saving, lastCommand, t, t))
  {
  }

  /**
   * Idempotence: once a call has switched, calling again with the same
   * readings does nothing; each call causes at most one fan-out.
   */
  lemma DecisionIdempotent(saving: bool, lastCommand: uint32, t: uint32)
    ensures Decision(Apply(saving, Decision(saving, lastCommand, t, t)), lastCommand, t, t) == None
  {
  }

  /** The modes SetPowerSavingMode is called with, over evaluations at readings `ts`, with no command in between. */
  function Switches(saving: bool, lastCommand: uint32, ts: seq<uint32>): seq<bool>
    decreases |ts|
  {
    if ts == [] then []
    else
      var d := Decision(saving, lastCommand, ts[0], ts[0]);
      (if d.Some? then [d.value] else []) + Switches(Apply(saving, d), lastCommand, ts[1..])
  }

  /** Idle time never shrinks over these readings (no command, and the clock did not lap lastCommand). */
  predicate IdleGrows(lastCommand: uint32, ts: seq<uint32>)
  {
    forall i :: 0 <= i < |ts| - 1 ==> Elapsed(ts[i], lastCommand) <= Elapsed(ts[i + 1], lastCommand)
  }

  lemma {:induction false} StaysOnWhileIdle(lastCommand: uint32, ts: seq<uint32>)
    requires IdleGrows(lastCommand, ts)
    requires |ts| > 0 ==> Elapsed(ts[0], lastCommand) > POWER_SAVING_MS
    ensures Switches(true, lastCommand, ts) == []
    ensures |ts| > 0 ==> Elapsed(ts[|ts| - 1], lastCommand) > POWER_SAVING_MS
    decreases |ts|
  {
    if |ts| > 1 {
      assert IdleGrows(lastCommand, ts[1..]) by {
        forall i | 0 <= i < |ts[1..]| - 1
          ensures Elapsed(ts[1..][i], lastCommand) <= Elapsed(ts[1..][i + 1], lastCommand)
        {
          assert ts[1..][i] == ts[i + 1] && ts[1..][i + 1] == ts[i + 2];
        }
      }
      assert Elapsed(ts[0], lastCommand) <= Elapsed(ts[1], lastCommand);
      StaysOnWhileIdle(lastCommand, ts[1..]);
    }
  }

  /**
   * Idle timeout: with saving off and no command, over evaluations whose
   * idle time keeps growing, saving is switched on exactly once if the idle
   * time ends above the threshold, and never otherwise; it is never switched
   * off.
   */
  lemma {:induction false} IdleTimeoutSwitchesOnOnce(lastCommand: uint32, ts: seq<uint32>)
    requires IdleGrows(lastCommand, ts)
    ensures Switches(false, lastCommand, ts)
            == if |ts| > 0 && Elapsed(ts[|ts| - 1], lastCommand) > POWER_SAVING_MS then [true] else []
    decreases |ts|
  {
    if ts != [] {
      assert IdleGrows(lastCommand, ts[1..]) by {
        forall i | 0 <= i < |ts[1..]| - 1
          ensures Elapsed(ts[1..][i], lastCommand) <= Elapsed(ts[1..][i + 1], lastCommand)
        {
          assert ts[1..][i] == ts[i + 1] && ts[1..][i + 1] == ts[i + 2];
        }
      }
      if Elapsed(ts[0], lastCommand) > POWER_SAVING_MS {
        if |ts| > 1 {
          assert Elapsed(ts[0], lastCommand) <= Elapsed(ts[1], lastCommand);
        }
        StaysOnWhileIdle(lastCommand, ts[1..]);
        if |ts| == 1 {
          assert ts[1..] == [];
        }
      } else {
        IdleTimeoutSwitchesOnOnce(lastCommand, ts[1..]);
      }
    }
  }

  /**
   * From reset (saving off, lastCommand 0) and with no command, the idle time
   * is the clock reading itself: over rising readings saving is switched on
   * exactly once, at the first evaluation whose reading exceeds 900 000 ms.
   */
  lemma ColdStartSwitchesOnPastThreshold(ts: seq<uint32>)
    requires forall i :: 0 <= i < |ts| - 1 ==> ts[i] <= ts[i + 1]
    ensures forall t1: uint32, t2: uint32 :: Decision(false, 0, t1, t2) == Some(true) <==> t1 > POWER_SAVING_MS
    ensures Switches(false, 0, ts) == if |ts| > 0 && ts[|ts| - 1] > POWER_SAVING_MS then [true] else []
    // after the k-th evaluation saving has been switched on once iff that reading is past the threshold
    ensures forall k :: 0 <= k < |ts| ==>
              Switches(false, 0, ts[..k + 1]) == if ts[k] > POWER_SAVING_MS then [true] else []
  {
    assert IdleGrows(0, ts);
    IdleTimeoutSwitchesOnOnce(0, ts);
    forall k | 0 <= k < |ts|
      ensures Switches(false, 0, ts[..k + 1]) == if ts[k] > POWER_SAVING_MS then [true] else []
    {
      var p := ts[..k + 1];
      assert IdleGrows(0, p) by {
        forall i | 0 <= i < |p| - 1 ensures Elapsed(p[i], 0) <= Elapsed(p[i + 1], 0) {
          assert p[i] == ts[i] && p[i + 1] == ts[i + 1];
        }
      }
      IdleTimeoutSwitchesOnOnce(0, p);
      assert p[|p| - 1] == ts[k];
    }
  }

  /**
   * Durations are 32-bit: once 2^32 ms (about 49.7 days) have passed without
   * a command, the measured idle time laps back to zero. An evaluation whose
   * real idle time `idle` is less than 900 000 ms past a whole lap sees only
   * that remainder, and switches saving off.
   */
  lemma IdleLapSwitchesSavingOff(lastCommand: uint32, idle: nat, t1: uint32)
    requires MODULUS <= idle < MODULUS + POWER_SAVING_MS
    ensures Elapsed(AddWrap(lastCommand, idle), lastCommand) == idle - MODULUS
    ensures Decision(true, lastCommand, t1, AddWrap(lastCommand, idle)) == Some(false)
  {
    var d := idle - MODULUS;
    assert AddWrap(lastCommand, idle) == AddWrap(lastCommand, d);
    ElapsedAfterAdd(lastCommand, d);
  }
}
