/**
 The clock's BCD time register (`struct time`): four decimal digits held in
 unsigned 8-bit fields, the minute-of-day value they denote, and the two carry
 chains the firmware runs over them after an increment.
 */
module Bcd {

  /** An unsigned 8-bit value (`uint8_t`). */
  type Byte = x: int | 0 <= x < 0x100

  /** `x++` on a `uint8_t`: 255 wraps to 0. */
  function Inc8(x: Byte): (r: Byte)
    ensures x < 0xFF ==> r == x + 1
    ensures x == 0xFF ==> r == 0
  {
    (x + 1) % 0x100
  }

  /** The four digits of a time of day, one-minutes first, as `struct time` lays them out. */
  datatype Time = Time(oneMinutes: Byte, tenMinutes: Byte, oneHours: Byte, tenHours: Byte)

  /** The power-on value of both registers, 00:00. */
  const Midnight := Time(0, 0, 0, 0)

  const MinutesPerDay := 24 * 60

  /** The register shows a time in 00:00..23:59. */
  predicate Valid(t: Time)
  {
    t.oneMinutes <= 9 && t.tenMinutes <= 5 && t.oneHours <= 9 &&
    t.tenHours <= 2 && (t.tenHours == 2 ==> t.oneHours <= 3)
  }

  /** None of the guards of a carry chain holds, so the chain leaves the register as it is. */
  predicate Settled(t: Time)
  {
    t.oneMinutes <= 9 && t.tenMinutes <= 5 && t.oneHours <= 9 &&
    !(t.tenHours >= 2 && t.oneHours >= 4)
  }

  function Hour(t: Time): int
  {
    10 * t.tenHours + t.oneHours
  }

  function MinuteOfHour(t: Time): int
  {
    10 * t.tenMinutes + t.oneMinutes
  }

  /** The minute of the day a register denotes. */
  function ToMinutes(t: Time): (m: int)
    ensures Valid(t) ==> 0 <= m < MinutesPerDay
  {
    60 * Hour(t) + MinuteOfHour(t)
  }

  /** The register that shows minute `m` of the day. */
  function FromMinutes(m: int): (t: Time)
    requires 0 <= m < MinutesPerDay
    ensures Valid(t) && ToMinutes(t) == m
  {
    var h, mm := m / 60, m % 60;
    Time(mm % 10, mm / 10, h % 10, h / 10)
  }

  /** A valid register is determined by the minute of the day it denotes. */
  lemma FromToMinutes(t: Time)
    requires Valid(t)
    ensures FromMinutes(ToMinutes(t)) == t
  {
    var m, h, mm := ToMinutes(t), Hour(t), MinuteOfHour(t);
    SplitHour(h, mm);
    assert m / 60 == h && m % 60 == mm;
    SplitTens(t.tenHours, t.oneHours);
    assert h / 10 == t.tenHours && h % 10 == t.oneHours;
    SplitTens(t.tenMinutes, t.oneMinutes);
    assert mm / 10 == t.tenMinutes && mm % 10 == t.oneMinutes;
  }

  /** Division by 60 takes hours and minutes apart again. */
  lemma SplitHour(h: int, mm: int)
    requires 0 <= mm < 60
    ensures (60 * h + mm) / 60 == h && (60 * h + mm) % 60 == mm
  {
  }

  /** Division by 10 takes a tens digit and a ones digit apart again. */
  lemma SplitTens(tens: int, ones: int)
    requires 0 <= ones < 10
    ensures (10 * tens + ones) / 10 == tens && (10 * tens + ones) % 10 == ones
  {
  }

  lemma ToMinutesInjective(a: Time, b: Time)
    requires Valid(a) && Valid(b) && ToMinutes(a) == ToMinutes(b)
    ensures a == b
  {
    FromToMinutes(a);
    FromToMinutes(b);
  }

  // The links of the carry chains, in the order the firmware runs them.

  /** One-minutes past 9 carry into ten-minutes. */
  function CarryOneMinutes(t: Time): Time
  {
    if t.oneMinutes > 9 then t.(tenMinutes := Inc8(t.tenMinutes), oneMinutes := 0) else t
  }

  /** Ten-minutes past 5 carry into one-hours (seconds path). */
  function CarryTenMinutes(t: Time): Time
  {
    if t.tenMinutes > 5 then t.(oneHours := Inc8(t.oneHours), tenMinutes := 0) else t
  }

  /** Ten-minutes past 5 are cleared without a carry (manual set paths). */
  function ClearTenMinutes(t: Time): Time
  {
    if t.tenMinutes > 5 then t.(tenMinutes := 0) else t
  }

  /** One-hours past 9 carry into ten-hours. */
  function CarryOneHours(t: Time): Time
  {
    if t.oneHours > 9 then t.(tenHours := Inc8(t.tenHours), oneHours := 0) else t
  }

  /** Ten-hours of 2 or more with one-hours of 4 or more (24:00 and beyond) become 00. */
  function WrapDay(t: Time): Time
  {
    if t.tenHours >= 2 && t.oneHours >= 4 then t.(tenHours := 0, oneHours := 0) else t
  }

  /**
   The carry chain of the seconds tick: one-minutes into ten-minutes, ten-minutes
   into one-hours, one-hours into ten-hours, then 24:00 (or beyond) back to 00:00.
   */
  function CarryTick(t: Time): (r: Time)
    ensures Settled(r)
    ensures Settled(t) ==> r == t
    ensures Valid(t) ==> Valid(r)
  {
    WrapDay(CarryOneHours(CarryTenMinutes(CarryOneMinutes(t))))
  }

  /**
   The carry chain of the manual set paths: like CarryTick, except that a
   ten-minutes overflow only clears ten-minutes and does not carry into the hours.
   */
  function CarrySet(t: Time): (r: Time)
    ensures Settled(r)
    ensures Settled(t) ==> r == t
    ensures Valid(t) ==> Valid(r)
  {
    WrapDay(CarryOneHours(ClearTenMinutes(CarryOneMinutes(t))))
  }

  /** Both carry chains are idempotent: running one again changes nothing. */
  lemma CarryIdempotent(t: Time)
    ensures CarryTick(CarryTick(t)) == CarryTick(t)
    ensures CarrySet(CarrySet(t)) == CarrySet(t)
  {
  }

  /** The minute rollover of the seconds tick: `one_minutes++`, then the chain. */
  function TickMinute(t: Time): Time
  {
    CarryTick(t.(oneMinutes := Inc8(t.oneMinutes)))
  }

  /** One manual advance: the pressed fields are incremented, then the set-path chain runs. */
  function SetAdvance(t: Time, minute: bool, hour: bool): Time
  {
    CarrySet(t.(oneMinutes := if minute then Inc8(t.oneMinutes) else t.oneMinutes,
                oneHours := if hour then Inc8(t.oneHours) else t.oneHours))
  }

  /** The minute of the day after `m`, 23:59 wrapping to 00:00. */
  function NextMinute(m: int): int
  {
    if m == MinutesPerDay - 1 then 0 else m + 1
  }

  /** A minute rollover moves a valid register exactly one minute on, 23:59 wrapping to 00:00. */
  lemma TickMinuteAdvances(t: Time)
    requires Valid(t)
    ensures Valid(TickMinute(t))
    ensures ToMinutes(TickMinute(t)) == NextMinute(ToMinutes(t))
  {
    if t.oneMinutes < 9 {
      TickOneMinutes(t);
    } else if t.tenMinutes < 5 {
      TickTenMinutes(t);
    } else if t.oneHours == 9 {
      TickTenHours(t);
    } else if t.tenHours == 2 && t.oneHours == 3 {
      TickMidnight(t);
    } else {
      TickOneHours(t);
    }
  }

  /** Before x9: only the minutes digit moves. */
  lemma TickOneMinutes(t: Time)
    requires Valid(t) && t.oneMinutes < 9
    ensures TickMinute(t) == t.(oneMinutes := t.oneMinutes + 1)
    ensures ToMinutes(TickMinute(t)) == ToMinutes(t) + 1
  {
  }

  /** At x9 before x:59: the minutes carry into the ten-minutes digit. */
  lemma TickTenMinutes(t: Time)
    requires Valid(t) && t.oneMinutes == 9 && t.tenMinutes < 5
    ensures TickMinute(t) == t.(oneMinutes := 0, tenMinutes := t.tenMinutes + 1)
    ensures ToMinutes(TickMinute(t)) == ToMinutes(t) + 1
  {
  }

  /** At 09:59 or 19:59: the carry reaches the ten-hours digit. */
  lemma TickTenHours(t: Time)
    requires Valid(t) && t.oneMinutes == 9 && t.tenMinutes == 5 && t.oneHours == 9
    ensures TickMinute(t) == Time(0, 0, 0, t.tenHours + 1)
    ensures ToMinutes(TickMinute(t)) == ToMinutes(t) + 1
  {
  }

  /** At 23:59: the day wraps to midnight. */
  lemma TickMidnight(t: Time)
    requires Valid(t) && t.oneMinutes == 9 && t.tenMinutes == 5 && t.tenHours == 2 && t.oneHours == 3
    ensures TickMinute(t) == Midnight
    ensures ToMinutes(t) == MinutesPerDay - 1
  {
  }

  /** At any other x:59: the carry reaches the hours digit. */
  lemma TickOneHours(t: Time)
    requires Valid(t) && t.oneMinutes == 9 && t.tenMinutes == 5 && t.oneHours < 9
    requires !(t.tenHours == 2 && t.oneHours == 3)
    ensures TickMinute(t) == t.(oneMinutes := 0, tenMinutes := 0, oneHours := t.oneHours + 1)
    ensures ToMinutes(TickMinute(t)) == ToMinutes(t) + 1
  {
  }

  /**
   A manual advance on a valid register: the minute field cycles within the hour
   (59 back to 00) and the hour field within the day (23 back to 00), each only
   when its switch is pressed and independently of the other.
   */
  lemma SetAdvanceEffect(t: Time, minute: bool, hour: bool)
    requires Valid(t)
    ensures Valid(SetAdvance(t, minute, hour))
    ensures MinuteOfHour(SetAdvance(t, minute, hour)) ==
            if !minute then MinuteOfHour(t) else if MinuteOfHour(t) == 59 then 0 else MinuteOfHour(t) + 1
    ensures Hour(SetAdvance(t, minute, hour)) ==
            if !hour then Hour(t) else if Hour(t) == 23 then 0 else Hour(t) + 1
  {
    SetAdvanceMinutes(t, minute, hour);
    SetAdvanceHours(t, minute, hour);
  }

  lemma SetAdvanceMinutes(t: Time, minute: bool, hour: bool)
    requires Valid(t)
    ensures var r := SetAdvance(t, minute, hour);
      r.oneMinutes <= 9 && r.tenMinutes <= 5 &&
      MinuteOfHour(r) == if !minute then MinuteOfHour(t) else if MinuteOfHour(t) == 59 then 0 else MinuteOfHour(t) + 1
  {
    var r := SetAdvance(t, minute, hour);
    if !minute {
      assert r.oneMinutes == t.oneMinutes && r.tenMinutes == t.tenMinutes;
    } else if t.oneMinutes < 9 {
      assert r.oneMinutes == t.oneMinutes + 1 && r.tenMinutes == t.tenMinutes;
    } else if t.tenMinutes < 5 {
      assert r.oneMinutes == 0 && r.tenMinutes == t.tenMinutes + 1;
    } else {
      assert r.oneMinutes == 0 && r.tenMinutes == 0;
    }
  }

  lemma SetAdvanceHours(t: Time, minute: bool, hour: bool)
    requires Valid(t)
    ensures var r := SetAdvance(t, minute, hour);
      r.tenHours <= 2 && (r.tenHours == 2 ==> r.oneHours <= 3) && r.oneHours <= 9 &&
      Hour(r) == if !hour then Hour(t) else if Hour(t) == 23 then 0 else Hour(t) + 1
  {
    var r := SetAdvance(t, minute, hour);
    if !hour {
      assert r.oneHours == t.oneHours && r.tenHours == t.tenHours;
    } else if t.tenHours == 2 && t.oneHours == 3 {
      assert r.oneHours == 0 && r.tenHours == 0;
    } else if t.oneHours < 9 {
      assert r.oneHours == t.oneHours + 1 && r.tenHours == t.tenHours;
    } else {
      assert r.oneHours == 0 && r.tenHours == t.tenHours + 1;
    }
  }

  /** The minute of the day `n` minutes after minute `m`. */
  function MinutesLater(m: int, n: nat): int
  {
    (m + n) % MinutesPerDay
  }

  /** Moving on one minute and then `k` more is moving on `k + 1` minutes. */
  lemma NextThenLater(m: int, k: nat)
    requires 0 <= m < MinutesPerDay
    ensures MinutesLater(NextMinute(m), k) == MinutesLater(m, k + 1)
  {
    if m == MinutesPerDay - 1 {
      assert m + k + 1 == k + MinutesPerDay;
    }
  }

  lemma LaterByNothing(m: int)
    requires 0 <= m < MinutesPerDay
    ensures MinutesLater(m, 0) == m
  {
  }

  lemma LaterByADay(m: int)
    requires 0 <= m < MinutesPerDay
    ensures MinutesLater(m, MinutesPerDay) == m
  {
  }

  /** `n` successive minute rollovers. */
  function TickMinutes(t: Time, n: nat): Time
    decreases n
  {
    if n == 0 then t else TickMinutes(TickMinute(t), n - 1)
  }

  /** `n` minute rollovers move a valid register `n` minutes on, modulo a day. */
  lemma {:induction false} TickMinutesCount(t: Time, n: nat)
    requires Valid(t)
    ensures Valid(TickMinutes(t, n))
    ensures ToMinutes(TickMinutes(t, n)) == MinutesLater(ToMinutes(t), n)
    decreases n
  {
    if n == 0 {
      LaterByNothing(ToMinutes(t));
    } else {
      var next := TickMinute(t);
      TickMinuteAdvances(t);
      TickMinutesCount(next, n - 1);
      NextThenLater(ToMinutes(t), n - 1);
    }
  }

  /** 1440 minute rollovers bring a valid register back to where it started. */
  lemma FullDay(t: Time)
    requires Valid(t)
    ensures TickMinutes(t, MinutesPerDay) == t
  {
    TickMinutesCount(t, MinutesPerDay);
    LaterByADay(ToMinutes(t));
    ToMinutesInjective(TickMinutes(t, MinutesPerDay), t);
  }
}
