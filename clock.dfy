/**
 The firmware's global volatile variables as the fields of one object, and
 its two interrupt service routines as methods that update them in place.
 The switch pins are parameters (active-low: `true` means released); the
 timer reloads and port writes are not part of this model.
 */
module Firmware {
  import opened Bcd
  import opened Control

  /**
   One manual advance of a BCD register in alarm-set or time-set mode: the
   pressed fields are incremented and the set-path carry chain runs, one field
   at a time. Both set modes run this same code on their own register.
   */
  method AdvanceRegister(t: Time, minutePin: bool, hourPin: bool) returns (r: Time)
    ensures r == SetAdvance(t, !minutePin, !hourPin)
    ensures Valid(t) ==> Valid(r)
  {
    r := t;
    r := r.(oneMinutes := if minutePin then r.oneMinutes else Inc8(r.oneMinutes));
    r := r.(oneHours := if hourPin then r.oneHours else Inc8(r.oneHours));
    ghost var pressed := r;
    if r.oneMinutes > 9 {
      r := r.(tenMinutes := Inc8(r.tenMinutes), oneMinutes := 0);
    }
    assert r == CarryOneMinutes(pressed);
    if r.tenMinutes > 5 {
      r := r.(tenMinutes := 0);
    }
    assert r == ClearTenMinutes(CarryOneMinutes(pressed));
    if r.oneHours > 9 {
      r := r.(tenHours := Inc8(r.tenHours), oneHours := 0);
    }
    assert r == CarryOneHours(ClearTenMinutes(CarryOneMinutes(pressed)));
    if r.tenHours >= 2 && r.oneHours >= 4 {
      r := r.(tenHours := 0, oneHours := 0);
    }
    assert r == CarrySet(pressed);
    if Valid(t) {
      SetAdvanceEffect(t, !minutePin, !hourPin);
    }
  }

  /**
   The carry chain of the seconds tick, one field at a time. It leaves the
   register settled, and a register that is already settled (in particular
   a valid one) unchanged.
   */
  method RunCarryTick(t: Time) returns (r: Time)
    ensures r == CarryTick(t)
    ensures Settled(r)
    ensures Valid(t) ==> r == t
  {
    r := t;
    if r.oneMinutes > 9 {
      r := r.(tenMinutes := Inc8(r.tenMinutes), oneMinutes := 0);
    }
    assert r == CarryOneMinutes(t);
    if r.tenMinutes > 5 {
      r := r.(oneHours := Inc8(r.oneHours), tenMinutes := 0);
    }
    assert r == CarryTenMinutes(CarryOneMinutes(t));
    if r.oneHours > 9 {
      r := r.(tenHours := Inc8(r.tenHours), oneHours := 0);
    }
    assert r == CarryOneHours(CarryTenMinutes(CarryOneMinutes(t)));
    if r.tenHours >= 2 && r.oneHours >= 4 {
      r := r.(tenHours := 0, oneHours := 0);
    }
  }

  /**
   One millisecond of a held set switch, on the hold counter, the repeat
   threshold and the register being set: the counter counts up (wrapping as a
   `uint8_t`); with neither advance switch pressed the threshold returns to
   InitDelay; when an advance switch is pressed and the counter has passed the
   threshold, the register advances once, the counter restarts at 0 and the
   threshold ramps down, never below MinDelay.
   */
  method AutoRepeat(switchTimeout: Byte, initTimeout: Byte, minutePin: bool, hourPin: bool, t: Time)
    returns (st: Byte, it: Byte, r: Time)
    ensures Repeat(st, it, r) == SetSwitchHeld(switchTimeout, initTimeout, minutePin, hourPin, t)
    ensures minutePin && hourPin ==> it == InitDelay && r == t
    ensures Threshold(initTimeout) ==> Threshold(it)
    ensures r != t ==> st == 0 && it == Ramp(initTimeout)
    ensures Valid(t) ==> Valid(r)
  {
    st, it, r := switchTimeout, initTimeout, t;
    st := Inc8(st);
    if minutePin && hourPin {
      it := InitDelay;
    }
    if (!minutePin || !hourPin) && st > it {
      r := AdvanceRegister(r, minutePin, hourPin);
      st := 0;
      if it > MinDelay {
        it := it - RampDelay;
      }
    }
  }

  class Clock {
    var seconds: Byte
    var milliseconds: Word
    var prevMilliseconds: Word
    var switchTimeout: Byte
    var initTimeout: Byte
    var alarmOn: bool
    var alarmTone: Byte
    var digitSelect: Byte
    var timeKeeper: Time
    var alarmKeeper: Time

    /** All the variables at once. */
    function Snapshot(): State
      reads this
    {
      State(seconds, milliseconds, prevMilliseconds, switchTimeout, initTimeout,
            alarmOn, alarmTone, digitSelect, timeKeeper, alarmKeeper)
    }

    /** The object invariant: the state is one the interrupts can reach. */
    ghost predicate Valid()
      reads this
    {
      Inv(Snapshot())
    }

    /** Power-on values of the globals. */
    constructor ()
      ensures Snapshot() == PowerOn && Valid()
    {
      seconds, milliseconds, prevMilliseconds := 0, 0, 0;
      switchTimeout, initTimeout := 0, InitDelay;
      alarmOn, alarmTone, digitSelect := false, 0, SegOneMinute;
      timeKeeper, alarmKeeper := Midnight, Midnight;
    }

    /**
     The seconds interrupt: hold the seconds at 0 while the time-set switch is
     held; otherwise count a second, roll 60 into a minute, run the carry chain
     and check the alarm.
     */
    method TimerIsr(setTimePin: bool)
      modifies this
      ensures Snapshot() == SecondsTick(old(Snapshot()), setTimePin)
      ensures old(Valid()) ==> Valid()
    {
      ghost var before := Snapshot();
      if !setTimePin {
        seconds := 0;
        SecondsTickInvFrom(before, setTimePin);
        return;
      }
      seconds := Inc8(seconds);
      if seconds > 59 {
        timeKeeper := timeKeeper.(oneMinutes := Inc8(timeKeeper.oneMinutes));
        seconds := 0;
      }
      timeKeeper := RunCarryTick(timeKeeper);
      ghost var carried := Snapshot();
      if alarmOn {
        if alarmKeeper == timeKeeper {
          if seconds == 0 {
            prevMilliseconds := milliseconds;
            alarmTone := FirstTone;
          }
          if seconds >= 59 {
            prevMilliseconds := 0;
            alarmTone := 0;
          }
        }
      }
      assert Snapshot() == AlarmCheck(carried);
      SecondsTickInvFrom(before, setTimePin);
    }

    /**
     The millisecond interrupt: count the millisecond, run the switch logic,
     step the tone and move the digit selector.
     */
    method ControlIsr(alarmPin: bool, setAlarmPin: bool, setTimePin: bool, minutePin: bool, hourPin: bool)
      modifies this
      ensures Snapshot() == ControlTick(old(Snapshot()), Pins(alarmPin, setAlarmPin, setTimePin, minutePin, hourPin))
      ensures old(Valid()) ==> Valid()
    {
      ghost var before := Snapshot();
      milliseconds := Inc16(milliseconds);
      PollSwitches(alarmPin, setAlarmPin, setTimePin, minutePin, hourPin);
      StepTone();
      digitSelect := if digitSelect < SegTenHour then 2 * digitSelect else SegOneMinute;
      ControlTickInvFrom(before, Pins(alarmPin, setAlarmPin, setTimePin, minutePin, hourPin));
    }

    /**
     The switch logic of the millisecond interrupt, by priority: the alarm
     on/off switch, then alarm-set mode, then time-set mode, else idle.
     */
    method PollSwitches(alarmPin: bool, setAlarmPin: bool, setTimePin: bool, minutePin: bool, hourPin: bool)
      modifies this
      ensures Snapshot() == Buttons(old(Snapshot()), Pins(alarmPin, setAlarmPin, setTimePin, minutePin, hourPin))
    {
      if !alarmPin {
        switchTimeout := if switchTimeout > MinDelay then switchTimeout else switchTimeout + 1;
        if switchTimeout == MinDelay {
          alarmOn := !alarmOn;
          if !alarmOn {
            prevMilliseconds := 0;
            alarmTone := 0;
          }
        }
      } else if !setAlarmPin {
        switchTimeout, initTimeout, alarmKeeper :=
          AutoRepeat(switchTimeout, initTimeout, minutePin, hourPin, alarmKeeper);
      } else if !setTimePin {
        switchTimeout, initTimeout, timeKeeper :=
          AutoRepeat(switchTimeout, initTimeout, minutePin, hourPin, timeKeeper);
      } else {
        switchTimeout := 0;
        initTimeout := InitDelay;
      }
    }

    /** The tone sequencer: a sounding tone moves to its next step once ToneTime ms have passed. */
    method StepTone()
      modifies this
      ensures Snapshot() == ToneStep(old(Snapshot()))
    {
      if alarmTone != 0 {
        if Elapsed(milliseconds, prevMilliseconds) > ToneTime {
          prevMilliseconds := milliseconds;
          alarmTone := if alarmTone <= 1 then FirstTone else alarmTone - 1;
        }
      }
    }
  }

  lemma SecondsTickInvFrom(s: State, setTimePin: bool)
    ensures Inv(s) ==> Inv(SecondsTick(s, setTimePin))
  {
    if Inv(s) {
      SecondsTickInv(s, setTimePin);
    }
  }

  lemma ControlTickInvFrom(s: State, p: Pins)
    ensures Inv(s) ==> Inv(ControlTick(s, p))
  {
    if Inv(s) {
      ControlTickInv(s, p);
    }
  }
}
