/**
 The clock's global state as one value, and what each of the two timer
 interrupts does to it: the seconds tick (timer 1) and the millisecond tick
 (timer 0). The interrupt handlers of class Firmware.Clock are proved to
 compute exactly these functions; the lemmas here state what they promise.
 */
module Control {
  import opened Bcd

  /** An unsigned 16-bit value (`uint16_t`). */
  type Word = x: int | 0 <= x < 0x1_0000

  /** `x++` on a `uint16_t`: 65535 wraps to 0. */
  function Inc16(x: Word): (r: Word)
    ensures x < 0xFFFF ==> r == x + 1
    ensures x == 0xFFFF ==> r == 0
  {
    (x + 1) % 0x1_0000
  }

  /**
   `now - since` on two `uint16_t` values (an unsigned 16-bit `int` on this
   compiler): the milliseconds from `since` to `now` across one wrap of the counter.
   */
  function Elapsed(now: Word, since: Word): (r: Word)
    ensures since <= now ==> r == now - since
    ensures now < since ==> r == now + 0x1_0000 - since
  {
    (now - since) % 0x1_0000
  }

  /** Minimum hold, in milliseconds, before a switch press counts; the floor of the repeat threshold. */
  const MinDelay := 75
  /** Repeat threshold at the start of a press, in milliseconds. */
  const InitDelay := 125
  /** How much the repeat threshold shrinks after each advance. */
  const RampDelay := 5
  /** Milliseconds a tone step lasts before the next one. */
  const ToneTime := 250
  /** The tone step that starts the alarm. */
  const FirstTone := 7

  /** Digit-enable bits, one per display digit. */
  const SegOneMinute := 1
  const SegTenMinute := 2
  const SegOneHour := 4
  const SegTenHour := 8

  /**
   Levels of the five switch pins. The switches are active-low: `true` means
   released, `false` means pressed.
   */
  datatype Pins = Pins(alarm: bool, setAlarm: bool, setTime: bool, minute: bool, hour: bool)

  /** The firmware's global variables. */
  datatype State = State(
    seconds: Byte,
    milliseconds: Word,
    prevMilliseconds: Word,
    switchTimeout: Byte,
    initTimeout: Byte,
    alarmOn: bool,
    alarmTone: Byte,
    digitSelect: Byte,
    timeKeeper: Time,
    alarmKeeper: Time)

  /** The variables' initial values: 00:00:00, alarm off at 00:00, first digit selected. */
  const PowerOn := State(0, 0, 0, 0, InitDelay, false, 0, SegOneMinute, Midnight, Midnight)

  predicate OneHot(d: int)
  {
    d == SegOneMinute || d == SegTenMinute || d == SegOneHour || d == SegTenHour
  }

  /** The repeat thresholds a press can reach: 125, 120, ..., 75. */
  predicate Threshold(x: int)
  {
    MinDelay <= x <= InitDelay && x % RampDelay == 0
  }

  /** What holds of every state the two interrupts can reach from PowerOn. */
  predicate Inv(s: State)
  {
    Valid(s.timeKeeper) && Valid(s.alarmKeeper) &&
    s.seconds <= 59 &&
    Threshold(s.initTimeout) &&
    s.alarmTone <= FirstTone &&
    OneHot(s.digitSelect)
  }

  lemma PowerOnInv()
    ensures Inv(PowerOn)
  {
  }

  // ---------------------------------------------------------------------
  // Seconds tick (timer_isr)
  // ---------------------------------------------------------------------

  /** The alarm comparison at the end of the seconds tick. */
  function AlarmCheck(s: State): State
  {
    if s.alarmOn && s.alarmKeeper == s.timeKeeper then
      var s1 := if s.seconds == 0 then s.(prevMilliseconds := s.milliseconds, alarmTone := FirstTone) else s;
      if s1.seconds >= 59 then s1.(prevMilliseconds := 0, alarmTone := 0) else s1
    else s
  }

  /** One seconds tick; `setTimePin` is the level of the time-set switch. */
  function SecondsTick(s: State, setTimePin: bool): State
  {
    if !setTimePin then s.(seconds := 0)
    else
      var sec := Inc8(s.seconds);
      var rolled := sec > 59;
      var t := if rolled then s.timeKeeper.(oneMinutes := Inc8(s.timeKeeper.oneMinutes)) else s.timeKeeper;
      AlarmCheck(s.(seconds := if rolled then 0 else sec, timeKeeper := CarryTick(t)))
  }

  /** While the time-set switch is held, the seconds tick only holds the seconds at 0. */
  lemma SecondsFrozen(s: State)
    ensures SecondsTick(s, false) == s.(seconds := 0)
  {
  }

  /**
   With the time-set switch released, the seconds count 0..59 and the time
   moves one minute on exactly when they roll over from 59; the counters the
   seconds tick does not own are left as they are.
   */
  lemma SecondsAdvance(s: State)
    requires Inv(s)
    ensures var r := SecondsTick(s, true);
      r.seconds == (if s.seconds == 59 then 0 else s.seconds + 1) &&
      Valid(r.timeKeeper) &&
      ToMinutes(r.timeKeeper) ==
        (if s.seconds == 59 then NextMinute(ToMinutes(s.timeKeeper)) else ToMinutes(s.timeKeeper)) &&
      r.alarmKeeper == s.alarmKeeper && r.alarmOn == s.alarmOn &&
      r.milliseconds == s.milliseconds && r.switchTimeout == s.switchTimeout &&
      r.initTimeout == s.initTimeout && r.digitSelect == s.digitSelect
  {
    if s.seconds == 59 {
      TickMinuteAdvances(s.timeKeeper);
    }
  }

  /** 23:59:59 becomes 00:00:00. */
  lemma MidnightWrap(s: State)
    requires s.seconds == 59 && s.timeKeeper == Time(9, 5, 3, 2)
    ensures SecondsTick(s, true).seconds == 0
    ensures SecondsTick(s, true).timeKeeper == Midnight
  {
  }

  /**
   The alarm: when it is on and the alarm register equals the time, the tone
   starts at step 7 on second 0 (pacing from now) and is silenced on second 59;
   otherwise the tone and its pacing mark are left as they are.
   */
  lemma SecondsAlarm(s: State)
    ensures var r := SecondsTick(s, true);
      var matched := r.alarmOn && r.alarmKeeper == r.timeKeeper;
      (matched && r.seconds == 0 ==> r.alarmTone == FirstTone && r.prevMilliseconds == s.milliseconds) &&
      (matched && r.seconds >= 59 ==> r.alarmTone == 0 && r.prevMilliseconds == 0) &&
      (!(matched && (r.seconds == 0 || r.seconds >= 59)) ==>
         r.alarmTone == s.alarmTone && r.prevMilliseconds == s.prevMilliseconds)
  {
  }

  /** Alarm at 06:30: reaching 06:30:00 starts the tone, 06:30:59 stops it. */
  lemma AlarmAtSixThirty(s: State)
    requires s.alarmOn && s.alarmKeeper == Time(0, 3, 6, 0)
    ensures s.timeKeeper == Time(9, 2, 6, 0) && s.seconds == 59 ==> SecondsTick(s, true).alarmTone == FirstTone
    ensures s.timeKeeper == Time(0, 3, 6, 0) && s.seconds == 58 ==> SecondsTick(s, true).alarmTone == 0
  {
  }

  lemma SecondsTickInv(s: State, setTimePin: bool)
    requires Inv(s)
    ensures Inv(SecondsTick(s, setTimePin))
  {
    if setTimePin && s.seconds == 59 {
      TickMinuteAdvances(s.timeKeeper);
    }
  }

  // ---------------------------------------------------------------------
  // Millisecond tick (control_isr)
  // ---------------------------------------------------------------------

  /** The repeat threshold after an advance: lowered by RampDelay while above the floor. */
  function Ramp(threshold: Byte): (r: Byte)
    ensures Threshold(threshold) ==> Threshold(r)
    ensures threshold > MinDelay ==> r < threshold
  {
    if threshold > MinDelay then threshold - RampDelay else threshold
  }

  /**
   The alarm on/off switch is held: the hold counter climbs to MinDelay + 1 and
   stays there, and the alarm flips when the counter reaches MinDelay; turning
   it off silences the tone.
   */
  function AlarmSwitchHeld(s: State): State
  {
    var st := if s.switchTimeout > MinDelay then s.switchTimeout else s.switchTimeout + 1;
    if st == MinDelay then
      if s.alarmOn then s.(switchTimeout := st, alarmOn := false, prevMilliseconds := 0, alarmTone := 0)
      else s.(switchTimeout := st, alarmOn := true)
    else s.(switchTimeout := st)
  }

  /** Hold counter, repeat threshold and register after one millisecond in a set mode. */
  datatype Repeat = Repeat(switchTimeout: Byte, initTimeout: Byte, register: Time)

  /**
   A set switch is held: the hold counter counts up; with neither advance
   switch pressed the threshold goes back to InitDelay; once an advance switch
   is pressed and the counter exceeds the threshold, the register advances,
   the counter restarts and the threshold ramps down.
   */
  function SetSwitchHeld(switchTimeout: Byte, initTimeout: Byte, minutePin: bool, hourPin: bool, t: Time): Repeat
  {
    var st := Inc8(switchTimeout);
    var it := if minutePin && hourPin then InitDelay else initTimeout;
    if (!minutePin || !hourPin) && st > it then Repeat(0, Ramp(it), SetAdvance(t, !minutePin, !hourPin))
    else Repeat(st, it, t)
  }

  /** The tone step after `tone`: 7, 6, ..., 1, then 7 again. */
  function NextTone(tone: Byte): Byte
  {
    if tone <= 1 then FirstTone else tone - 1
  }

  /** The digit enable after `d`: the bit moves one place up, and from the top back to 1. */
  function NextDigit(d: Byte): (r: Byte)
    ensures OneHot(d) ==> OneHot(r) && r != d
  {
    if d < SegTenHour then 2 * d else SegOneMinute
  }

  /** The switch part of the millisecond tick, by priority: alarm switch, alarm set, time set, idle. */
  function Buttons(s: State, p: Pins): State
  {
    if !p.alarm then AlarmSwitchHeld(s)
    else if !p.setAlarm then
      var r := SetSwitchHeld(s.switchTimeout, s.initTimeout, p.minute, p.hour, s.alarmKeeper);
      s.(switchTimeout := r.switchTimeout, initTimeout := r.initTimeout, alarmKeeper := r.register)
    else if !p.setTime then
      var r := SetSwitchHeld(s.switchTimeout, s.initTimeout, p.minute, p.hour, s.timeKeeper);
      s.(switchTimeout := r.switchTimeout, initTimeout := r.initTimeout, timeKeeper := r.register)
    else s.(switchTimeout := 0, initTimeout := InitDelay)
  }

  /** The tone sequencer: a sounding tone moves one step once more than ToneTime ms have passed. */
  function ToneStep(s: State): State
  {
    if s.alarmTone != 0 && Elapsed(s.milliseconds, s.prevMilliseconds) > ToneTime then
      s.(prevMilliseconds := s.milliseconds, alarmTone := NextTone(s.alarmTone))
    else s
  }

  /** One millisecond tick with the switch pins at `p`. */
  function ControlTick(s: State, p: Pins): State
  {
    var s1 := ToneStep(Buttons(s.(milliseconds := Inc16(s.milliseconds)), p));
    s1.(digitSelect := NextDigit(s1.digitSelect))
  }

  lemma ControlTickInv(s: State, p: Pins)
    requires Inv(s)
    ensures Inv(ControlTick(s, p))
  {
    if p.alarm && !p.setAlarm {
      SetAdvanceEffect(s.alarmKeeper, !p.minute, !p.hour);
    } else if p.alarm && p.setAlarm && !p.setTime {
      SetAdvanceEffect(s.timeKeeper, !p.minute, !p.hour);
    }
  }

  /**
   The alarm flips on a millisecond tick exactly when the alarm switch is held
   and its hold counter stood one below MinDelay; when it flips off, the tone
   is silent after the tick and its pacing mark is 0.
   */
  lemma AlarmToggle(s: State, p: Pins)
    ensures ControlTick(s, p).alarmOn != s.alarmOn <==> !p.alarm && s.switchTimeout == MinDelay - 1
    ensures s.alarmOn && !ControlTick(s, p).alarmOn ==>
      ControlTick(s, p).alarmTone == 0 && ControlTick(s, p).prevMilliseconds == 0
  {
  }

  /** With no switch pressed the hold counter is cleared and the threshold restored. */
  lemma IdleReset(s: State, p: Pins)
    requires p.alarm && p.setAlarm && p.setTime
    ensures ControlTick(s, p).switchTimeout == 0 && ControlTick(s, p).initTimeout == InitDelay
    ensures ControlTick(s, p).timeKeeper == s.timeKeeper && ControlTick(s, p).alarmKeeper == s.alarmKeeper
  {
  }

  /**
   One millisecond with an advance switch held in a set mode: the edited
   register advances exactly when the incremented hold counter exceeds the
   threshold, and the other register is left alone.
   */
  lemma RepeatFire(s: State, p: Pins)
    requires Advancing(p)
    ensures var r := ControlTick(s, p);
      var fire := Inc8(s.switchTimeout) > s.initTimeout;
      Edited(r, p) == (if fire then SetAdvance(Edited(s, p), !p.minute, !p.hour) else Edited(s, p)) &&
      Other(r, p) == Other(s, p) &&
      r.switchTimeout == (if fire then 0 else Inc8(s.switchTimeout)) &&
      r.initTimeout == (if fire then Ramp(s.initTimeout) else s.initTimeout)
  {
  }

  /** In a set mode with both advance switches released, the threshold goes back to InitDelay. */
  lemma ReleaseResetsThreshold(s: State, p: Pins)
    requires p.alarm && (!p.setAlarm || !p.setTime) && p.minute && p.hour
    ensures ControlTick(s, p).initTimeout == InitDelay
    ensures ControlTick(s, p).timeKeeper == s.timeKeeper && ControlTick(s, p).alarmKeeper == s.alarmKeeper
  {
  }

  /**
   The tone on a millisecond tick: a silent tone stays silent; a sounding one
   stays in 1..7 unless the alarm is switched off, and it moves to its next
   step exactly when more than ToneTime ms have passed since the last step.
   A step goes one down, from 1 back to 7, and marks the current millisecond
   as the start of the new step; without a step the mark stays put.
   */
  lemma ToneSequencer(s: State, p: Pins)
    requires 1 <= s.alarmTone <= FirstTone || s.alarmTone == 0
    ensures s.alarmTone == 0 ==> ControlTick(s, p).alarmTone == 0
    ensures s.alarmTone != 0 && ControlTick(s, p).alarmOn == s.alarmOn ==>
      1 <= ControlTick(s, p).alarmTone <= FirstTone &&
      (ControlTick(s, p).alarmTone != s.alarmTone <==>
        Elapsed(Inc16(s.milliseconds), s.prevMilliseconds) > ToneTime)
    ensures s.alarmTone != 0 && ControlTick(s, p).alarmOn == s.alarmOn ==>
      if Elapsed(Inc16(s.milliseconds), s.prevMilliseconds) > ToneTime then
        ControlTick(s, p).alarmTone == (if s.alarmTone == 1 then FirstTone else s.alarmTone - 1) &&
        ControlTick(s, p).prevMilliseconds == Inc16(s.milliseconds)
      else
        ControlTick(s, p).prevMilliseconds == s.prevMilliseconds
  {
  }

  /**
   The digit selector moves one place on every millisecond tick and comes back
   after four, having enabled each of the four digits exactly once.
   */
  lemma DigitRotation(s: State, p: Pins)
    requires OneHot(s.digitSelect)
    ensures ControlTick(s, p).digitSelect == NextDigit(s.digitSelect)
    ensures NextDigit(NextDigit(NextDigit(NextDigit(s.digitSelect)))) == s.digitSelect
    ensures {s.digitSelect, NextDigit(s.digitSelect), NextDigit(NextDigit(s.digitSelect)),
             NextDigit(NextDigit(NextDigit(s.digitSelect)))} ==
            {SegOneMinute, SegTenMinute, SegOneHour, SegTenHour}
  {
  }

  // ---------------------------------------------------------------------
  // Holding switches over many ticks
  // ---------------------------------------------------------------------

  /** `n` millisecond ticks with the switch pins held at `p`. */
  function Run(s: State, p: Pins, n: nat): State
    decreases n
  {
    if n == 0 then s else Run(ControlTick(s, p), p, n - 1)
  }

  function Min(a: int, b: int): int
  {
    if a <= b then a else b
  }

  /**
   Holding the alarm switch for `n` ticks: the hold counter saturates at
   MinDelay + 1, and the alarm flips once, on the tick where the counter
   reaches MinDelay, however long the switch is held. A press that begins
   with the counter already at MinDelay or above never flips it.
   */
  lemma {:induction false} HoldAlarmSwitch(s: State, p: Pins, n: nat)
    requires !p.alarm
    ensures var r := Run(s, p, n);
      r.switchTimeout ==
        (if s.switchTimeout > MinDelay then s.switchTimeout else Min(s.switchTimeout + n, MinDelay + 1)) &&
      r.alarmOn ==
        (if s.switchTimeout < MinDelay <= s.switchTimeout + n then !s.alarmOn else s.alarmOn) &&
      r.timeKeeper == s.timeKeeper && r.alarmKeeper == s.alarmKeeper && r.initTimeout == s.initTimeout
    decreases n
  {
    if n > 0 {
      HoldAlarmSwitch(ControlTick(s, p), p, n - 1);
    }
  }

  /** The register a set mode edits. */
  function Edited(s: State, p: Pins): Time
  {
    if !p.setAlarm then s.alarmKeeper else s.timeKeeper
  }

  /** The register a set mode leaves alone. */
  function Other(s: State, p: Pins): Time
  {
    if !p.setAlarm then s.timeKeeper else s.alarmKeeper
  }

  /** An advance switch is held in alarm-set or time-set mode, and the alarm switch is released. */
  predicate Advancing(p: Pins)
  {
    p.alarm && (!p.setAlarm || !p.setTime) && (!p.minute || !p.hour)
  }

  /**
   Holding an advance switch: for as long as the hold counter has not passed
   the threshold, the counter counts the ticks and nothing else of the repeat
   engine or the registers changes.
   */
  lemma {:induction false} HoldBeforeFire(s: State, p: Pins, n: nat)
    requires Advancing(p) && s.switchTimeout + n <= s.initTimeout
    ensures var r := Run(s, p, n);
      r.switchTimeout == s.switchTimeout + n && r.initTimeout == s.initTimeout &&
      r.timeKeeper == s.timeKeeper && r.alarmKeeper == s.alarmKeeper
    decreases n
  {
    if n > 0 {
      HoldBeforeFire(ControlTick(s, p), p, n - 1);
    }
  }

  /**
   Holding an advance switch from a hold count of `c` up to a threshold `T`:
   after `T - c + 1` ticks the edited register has advanced exactly once, the
   other register is unchanged, the counter has restarted at 0 and the
   threshold has ramped down (strictly, while above the floor).
   */
  lemma HoldUntilFire(s: State, p: Pins)
    requires Advancing(p) && Inv(s) && s.switchTimeout <= s.initTimeout
    ensures var r := Run(s, p, s.initTimeout - s.switchTimeout + 1);
      Edited(r, p) == SetAdvance(Edited(s, p), !p.minute, !p.hour) &&
      Other(r, p) == Other(s, p) &&
      r.switchTimeout == 0 && r.initTimeout == Ramp(s.initTimeout) &&
      Threshold(r.initTimeout) &&
      (s.initTimeout > MinDelay ==> r.initTimeout == s.initTimeout - RampDelay)
  {
    var k := s.initTimeout - s.switchTimeout;
    HoldBeforeFire(s, p, k);
    RunSplit(s, p, k, 1);
  }

  lemma {:induction false} RunSplit(s: State, p: Pins, a: nat, b: nat)
    ensures Run(s, p, a + b) == Run(Run(s, p, a), p, b)
    decreases a
  {
    if a > 0 {
      RunSplit(ControlTick(s, p), p, a - 1, b);
    }
  }
}
