# Military time clock: a verified model of the firmware core

The firmware of the 24-hour clock in `src/clock_sdcc/src/main.c` runs on an
8051-family microcontroller. It keeps the time in two BCD registers
(`struct time`): the time of day (`gs_timeKeeper`) and the alarm set-point
(`gs_alarmKeeper`). Two timer interrupts update a handful of global counters:

- `timer_isr`, the seconds tick, counts seconds. It rolls them into the time
  through a carry chain and starts or stops the alarm tone.
- `control_isr`, the millisecond tick, does four things:
  - it debounces the alarm on/off switch;
  - it runs the accelerating auto-repeat that sets the alarm or the time
    from the hour and minute switches;
  - it steps the alarm tone through its sequence;
  - it rotates the one-hot digit selector of the multiplexed display.
- The main loop then shows one digit of one register through a 7-segment table.

The model has four modules:

- `Bcd` (bcd.dfy). The BCD register as a datatype and the minute of the day
  it denotes. The two carry chains of the source, one link at a time. The
  manual set advance. Their laws: validity is preserved, a rollover moves the
  register exactly one minute on, 1440 rollovers come back to the start, and
  the chains are idempotent.
- `Control` (control.dfy). All the global variables as one `State` value.
  The switch pins as booleans with the source's active-low sense (`true` is
  released). `SecondsTick` and `ControlTick` give what each interrupt does to
  the state. Lemmas give the invariant both keep, and what one tick and many
  ticks of a held switch do.
- `Firmware` (clock.dfy). Class `Clock` holds the globals as fields. Its
  methods `TimerIsr` and `ControlIsr` update those fields in place, step by
  step, as the handlers do. Each method is proved to leave exactly the state
  `SecondsTick` or `ControlTick` gives, and to keep the invariant. The BCD
  chains and the auto-repeat are value-level methods that the handlers call.
- `Display` (display.dfy). The segment table, the choice of register and
  digit, and the pattern driven onto the segment port.

Integer widths follow the source:

- `uint8_t` counters wrap at 256 (`Inc8`).
- `uint16_t` counters wrap at 65536 (`Inc16`).
- `milliseconds - prev_milliseconds` is an unsigned 16-bit difference, because
  `int` is 16 bits wide on this compiler (`Elapsed`).

Behaviour taken from the code where the source's own comments suggest
otherwise:

- The comments at main.c:287 and main.c:342 introduce the set-path carry chain
  as the timer interrupt's chain reused with tweaks. One tweak matters: a
  manual minute advance past x:59 clears the minutes without carrying into
  the hours (main.c:294-297 and 349-352). Only the seconds path carries
  (main.c:433-437).
- The comment at main.c:383 speaks of decrementing the tone. Line 389 wraps it
  from 1 back to 7, so a sounding tone cycles 7, 6, ..., 1, 7. It never
  reaches 0 on its own. It is silenced only at second 59 of the alarm minute
  or when the alarm is switched off.
Two consequences of the code worth knowing:

- The 24-hour check `ten_hours >= 2 && one_hours >= 4` (main.c:447) is coarse. The carry
  chains leave every register settled, and they keep a valid register valid.
  They do not repair every invalid one: 30:00 stays 30:00.
- Stopping the tone at second 59 also clears `prev_milliseconds` (main.c:467).

## Model

| member | source | states |
|---|---|---|
| `Bcd.Inc8` | src/clock_sdcc/src/main.c:416 | A `uint8_t` increment: one more below 255, and 255 wraps to 0 |
| `Bcd.ToMinutes` | src/clock_sdcc/src/main.c:95-101 | A valid register denotes a minute of the day in 0..1439 |
| `Bcd.FromMinutes` | src/clock_sdcc/src/main.c:95-101 | Every minute of the day has a valid register that denotes it |
| `Bcd.FromToMinutes` | src/clock_sdcc/src/main.c:95-101 | A valid register is determined by the minute it denotes (the round trip through minutes is the identity) |
| `Bcd.CarryTick` | src/clock_sdcc/src/main.c:426-451 | The seconds-path chain leaves every register settled (all digit guards false), returns a settled register unchanged, and keeps a valid register valid |
| `Bcd.CarrySet` | src/clock_sdcc/src/main.c:288-309 | The set-path chain (no carry from ten-minutes into hours) leaves every register settled, returns a settled register unchanged, and keeps a valid register valid |
| `Bcd.CarryIdempotent` | src/clock_sdcc/src/main.c:426-451 | Running either carry chain twice gives the same register as running it once |
| `Bcd.TickMinuteAdvances` | src/clock_sdcc/src/main.c:419-451 | `one_minutes++` followed by the chain moves a valid register exactly one minute on, 23:59 wrapping to 00:00 |
| `Bcd.SetAdvanceEffect` | src/clock_sdcc/src/main.c:282-309 | A manual advance keeps the register valid. The minute switch cycles the minute within the hour (59 to 00, hour unchanged). The hour switch cycles the hour within the day (23 to 00). Each applies only when pressed |
| `Bcd.TickMinutesCount` | src/clock_sdcc/src/main.c:419-451 | `n` minute rollovers keep a valid register valid and move it `n` minutes on, modulo a day |
| `Bcd.FullDay` | src/clock_sdcc/src/main.c:419-451 | 1440 minute rollovers bring a valid register back to its start |
| `Control.Inc16` | src/clock_sdcc/src/main.c:242 | A `uint16_t` increment: 65535 wraps to 0 |
| `Control.Elapsed` | src/clock_sdcc/src/main.c:386 | The unsigned 16-bit difference is the milliseconds from the mark to now, across one wrap of the counter |
| `Control.PowerOnInv` | src/clock_sdcc/src/main.c:104-122 | The power-on values satisfy the invariant of reachable states |
| `Control.SecondsFrozen` | src/clock_sdcc/src/main.c:409-413 | With the time-set switch held, a seconds tick sets `seconds` to 0 and changes nothing else |
| `Control.SecondsAdvance` | src/clock_sdcc/src/main.c:416-451 | With the switch released, `seconds` counts 0..59. The time moves one minute on exactly when `seconds` rolls over from 59, and stays valid. The variables the tick does not own are unchanged |
| `Control.MidnightWrap` | src/clock_sdcc/src/main.c:416-451 | 23:59:59 becomes 00:00:00 |
| `Control.SecondsAlarm` | src/clock_sdcc/src/main.c:454-471 | With the alarm on and all four fields equal: second 0 sets tone 7 and marks the current millisecond, and second 59 or later sets tone 0 with mark 0. Otherwise the tone and its mark are untouched |
| `Control.AlarmAtSixThirty` | src/clock_sdcc/src/main.c:454-471 | Alarm set to 06:30: ticking into 06:30:00 starts tone 7, and ticking into 06:30:59 stops it |
| `Control.SecondsTickInv` | src/clock_sdcc/src/main.c:399-472 | The seconds tick keeps the invariant: valid registers, seconds at most 59, a reachable threshold, tone at most 7, one-hot selector |
| `Control.Ramp` | src/clock_sdcc/src/main.c:315-318 | Lowering the threshold keeps it among 125, 120, ..., 75, and lowers it strictly while it is above 75 |
| `Control.NextDigit` | src/clock_sdcc/src/main.c:394 | The selector stays one-hot and always moves |
| `Control.ControlTickInv` | src/clock_sdcc/src/main.c:232-396 | The millisecond tick keeps the invariant, including the threshold within 75..125 |
| `Control.AlarmToggle` | src/clock_sdcc/src/main.c:245-264 | The alarm flips on a tick if and only if its switch is held and the hold counter stood at 74. Switching it off leaves tone 0 and mark 0 |
| `Control.IdleReset` | src/clock_sdcc/src/main.c:377-381 | With no switch pressed, the hold counter becomes 0, the threshold 125, and both registers are unchanged |
| `Control.ReleaseResetsThreshold` | src/clock_sdcc/src/main.c:272-276 | In a set mode with both advance switches released, the threshold returns to 125 and no register changes |
| `Control.RepeatFire` | src/clock_sdcc/src/main.c:267-375 | In a set mode with an advance switch held, the edited register advances on a tick exactly when the incremented hold counter exceeds the threshold. The counter then restarts, the threshold ramps down, and the other register is unchanged |
| `Control.ToneSequencer` | src/clock_sdcc/src/main.c:384-391 | A silent tone stays silent. Unless the alarm is switched off, a sounding tone stays in 1..7 and steps exactly when more than 250 ms have passed since its mark. A step goes one down, from 1 back to 7, and moves the mark to the current millisecond. Without a step the mark stays |
| `Control.DigitRotation` | src/clock_sdcc/src/main.c:394 | Every millisecond tick moves a one-hot selector one place. Four moves bring it back, and on the way it enables each of the four digits exactly once |
| `Control.HoldAlarmSwitch` | src/clock_sdcc/src/main.c:245-264 | Holding the alarm switch for `n` ticks: the hold counter saturates at 76, and the alarm flips exactly once, when the counter reaches 75, however long the press. A press that starts at 75 or above never flips it |
| `Control.HoldBeforeFire` | src/clock_sdcc/src/main.c:267-375 | Holding an advance switch before the counter passes the threshold only counts ticks. Registers and threshold are unchanged |
| `Control.HoldUntilFire` | src/clock_sdcc/src/main.c:267-375 | Holding an advance switch from count `c` to threshold `T`: after `T - c + 1` ticks the edited register has advanced exactly once, the counter is 0, and the threshold is `T - 5` while above 75. The other register is unchanged |
| `Firmware.AdvanceRegister` | src/clock_sdcc/src/main.c:282-309 | The in-place manual advance and set-path chain compute `SetAdvance` and keep a valid register valid |
| `Firmware.RunCarryTick` | src/clock_sdcc/src/main.c:426-451 | The in-place seconds-path chain computes `CarryTick`, leaves the register settled, and leaves a valid register unchanged |
| `Firmware.AutoRepeat` | src/clock_sdcc/src/main.c:268-319 | One millisecond of the auto-repeat engine. With both advance switches released, the threshold is 125 and the register is unchanged. The threshold stays reachable. An advance restarts the counter and ramps the threshold. The register stays valid |
| `Firmware.Clock.constructor` | src/clock_sdcc/src/main.c:104-122 | The globals start at their declared values, which satisfy the invariant |
| `Firmware.Clock.TimerIsr` | src/clock_sdcc/src/main.c:399-472 | The handler's in-place updates leave exactly the state `SecondsTick` gives and keep the invariant |
| `Firmware.Clock.ControlIsr` | src/clock_sdcc/src/main.c:232-396 | The handler's in-place updates leave exactly the state `ControlTick` gives and keep the invariant |
| `Firmware.Clock.PollSwitches` | src/clock_sdcc/src/main.c:244-381 | The switch logic, by priority (alarm switch, alarm set, time set, idle), leaves the state `Buttons` gives |
| `Firmware.Clock.StepTone` | src/clock_sdcc/src/main.c:384-391 | The tone step leaves the state `ToneStep` gives |
| `Display.Segments` | src/clock_sdcc/src/main.c:92 | Each digit's pattern lights at least one segment and never bit 7. It decodes back to the digit, so no two digits share a pattern |
| `Display.SegmentOutput` | src/clock_sdcc/src/main.c:169-197 | The segment port is blank exactly when the selector enables no digit. Otherwise it shows the enabled field of the time, or of the alarm set-point while the alarm-set switch is held |
| `Display.FieldsSpellTime` | src/clock_sdcc/src/main.c:184-197 | For every minute of the day, the four digits the selector enables in the register of that minute, read ten-hours first, are the decimal digits of its hour and of its minute in the hour |
| `Display.DisplayDistinguishesTimes` | src/clock_sdcc/src/main.c:184-197 | Two valid times that put the same segment patterns on the port at all four selector positions are the same time, so the display never shows two times alike |
| `Display.ReachableStateShowsDigit` | src/clock_sdcc/src/main.c:184-197 | In every reachable state the display shows a digit of the register on show, never a blank |

## Left out

- Timer and interrupt configuration: `TMOD`, the reloads of `TH0`/`TL0`/`TH1`/`TL1`, the overflow flags, the interrupt enables and priorities (main.c:134-150, 235-239, 402-406). They have no logical content.
- Port writes: the seconds-in-binary LEDs and the blink dot on `P1`, `ALARM_LED`, and the tone and digit-select code on `P2` (main.c:151-158, 172-181, 256). They are raw output. The segment pattern is modelled as the value `SegmentOutput`.
- `waitForTimeSet` (main.c:206-229). It busy-waits on a hardware pin and on counters that interrupts change.
- The main loop's polling for a change of `digitSelect` through `prev_digitSelect` (main.c:163-175). Each interrupt is modelled as one atomic method call. So preemption, interrupt priorities and torn reads of a register by the display loop are not modelled.
- Each switch pin is sampled once per handler call, and the display loop samples the alarm-set pin once per digit. The source reads `MINUTE_SWITCH` and `HOUR_SWITCH` several times in one `control_isr` call (main.c:273-285 and 328-340), and it reads `SET_A_SWITCH` more than once per digit update (main.c:172, 181 and 187-196). A switch that bounces between two of those reads can produce behaviour the model cannot. For example, the minute switch may read pressed at main.c:279 and released at main.c:282 while the hour switch is released. The firing branch then increments no field but still clears `switchTimeout` and ramps `initTimeout` down.
- `alarm_on_off` is a `bool`. The source only ever stores `ON` or `OFF` in it.
- `Display.SegmentOutput` requires the selected field of the register on show to index the 10-entry table. The source reads out of bounds otherwise. The invariant `Control.Inv` guarantees the requirement in every reachable state (`Display.ReachableStateShowsDigit`).
