/**
 What the display loop drives onto the segment port each time the digit
 selector moves: the register on show (the alarm set-point while the
 alarm-set switch is held, otherwise the time), the digit of it that the
 selector enables, and that digit's 7-segment pattern.
 */
module Display {
  import opened Bcd
  import opened Control

  datatype Option<T> = None | Some(value: T)

  /**
   `segmentArray`: the 7-segment pattern of each decimal digit, bit 0 lighting
   segment A up to bit 6 lighting segment G.
   */
  const SegmentTable: seq<Byte> := [0x3F, 0x06, 0x5B, 0x4F, 0x66, 0x6D, 0x7D, 0x07, 0x7F, 0x6F]

  /** The first index at or after `from` where `table` holds `x`. */
  function Find(table: seq<Byte>, x: Byte, from: nat): (r: Option<int>)
    ensures r.Some? ==> from <= r.value < |table| && table[r.value] == x &&
                        forall i :: from <= i < r.value ==> table[i] != x
    ensures r.None? ==> forall i :: from <= i < |table| ==> table[i] != x
    decreases |table| - from
  {
    if from >= |table| then None
    else if table[from] == x then Some(from)
    else Find(table, x, from + 1)
  }

  /** The digit a segment pattern shows, if it is one of the table's. */
  function DigitOf(pattern: Byte): Option<int>
  {
    Find(SegmentTable, pattern, 0)
  }

  /**
   The pattern of digit `d`. It lights at least one segment and never the
   decimal point (bit 7), and it tells the digit back: no two digits share a
   pattern.
   */
  function Segments(d: int): (r: Byte)
    requires 0 <= d <= 9
    ensures 0 < r < 0x80
    ensures DigitOf(r) == Some(d)
  {
    assert forall i, j :: 0 <= i < j < |SegmentTable| ==> SegmentTable[i] != SegmentTable[j];
    SegmentTable[d]
  }

  /** The register on show: the time while the alarm-set switch is released, else the alarm set-point. */
  function Shown(setAlarmPin: bool, timeKeeper: Time, alarmKeeper: Time): Time
  {
    if setAlarmPin then timeKeeper else alarmKeeper
  }

  /** The field of `t` that `digitSelect` enables; None when it enables no digit. */
  function Field(t: Time, digitSelect: int): Option<int>
  {
    if digitSelect == SegOneMinute then Some(t.oneMinutes)
    else if digitSelect == SegTenMinute then Some(t.tenMinutes)
    else if digitSelect == SegOneHour then Some(t.oneHours)
    else if digitSelect == SegTenHour then Some(t.tenHours)
    else None
  }

  /** Every field indexes the segment table. */
  predicate DigitsInRange(t: Time)
  {
    t.oneMinutes <= 9 && t.tenMinutes <= 9 && t.oneHours <= 9 && t.tenHours <= 9
  }

  /**
   The segment port after the selector has moved: blank when the selector
   enables no digit, otherwise the pattern of the enabled digit of the
   register on show, from which that digit can be read back.
   */
  function SegmentOutput(digitSelect: Byte, setAlarmPin: bool, timeKeeper: Time, alarmKeeper: Time): (r: Byte)
    requires Field(Shown(setAlarmPin, timeKeeper, alarmKeeper), digitSelect).Some? ==>
             Field(Shown(setAlarmPin, timeKeeper, alarmKeeper), digitSelect).value <= 9
    ensures r == 0 <==> !OneHot(digitSelect)
    ensures r != 0 ==> DigitOf(r) == Field(Shown(setAlarmPin, timeKeeper, alarmKeeper), digitSelect)
  {
    match Field(Shown(setAlarmPin, timeKeeper, alarmKeeper), digitSelect)
    case None => 0
    case Some(v) => Segments(v)
  }

  /**
   For every minute of the day, the four digits the selector enables, read
   ten-hours first, are the decimal digits of its hour and of its minute in
   the hour: the register of minute `m` shows HH:MM.
   */
  lemma FieldsSpellTime(m: int)
    requires 0 <= m < MinutesPerDay
    ensures Field(FromMinutes(m), SegTenHour) == Some((m / 60) / 10)
    ensures Field(FromMinutes(m), SegOneHour) == Some((m / 60) % 10)
    ensures Field(FromMinutes(m), SegTenMinute) == Some((m % 60) / 10)
    ensures Field(FromMinutes(m), SegOneMinute) == Some(m % 10)
  {
    OnesOfMinute(m);
  }

  /** The ones digit of the minute in the hour is the ones digit of the minute of the day. */
  lemma OnesOfMinute(m: nat)
    ensures (m % 60) % 10 == m % 10
  {
    var q, r := m / 60, m % 60;
    assert m == 60 * q + r;
    var a, b := r / 10, r % 10;
    assert r == 10 * a + b;
    assert m == 10 * (6 * q + a) + b;
    SplitTens(6 * q + a, b);
  }

  /**
   The display tells valid times apart: two valid registers that put the same
   pattern on the segment port at each of the four selector positions are the
   same register.
   */
  lemma DisplayDistinguishesTimes(t: Time, u: Time)
    requires Valid(t) && Valid(u)
    requires SegmentOutput(SegOneMinute, true, t, t) == SegmentOutput(SegOneMinute, true, u, u)
    requires SegmentOutput(SegTenMinute, true, t, t) == SegmentOutput(SegTenMinute, true, u, u)
    requires SegmentOutput(SegOneHour, true, t, t) == SegmentOutput(SegOneHour, true, u, u)
    requires SegmentOutput(SegTenHour, true, t, t) == SegmentOutput(SegTenHour, true, u, u)
    ensures t == u
  {
  }

  /**
   In every reachable state the display loop shows a digit (the selector is
   always one-hot and both registers index the table), and holding the
   alarm-set switch shows the alarm set-point in place of the time.
   */
  lemma ReachableStateShowsDigit(s: State, setAlarmPin: bool)
    requires Inv(s)
    ensures DigitsInRange(Shown(setAlarmPin, s.timeKeeper, s.alarmKeeper))
    ensures var r := SegmentOutput(s.digitSelect, setAlarmPin, s.timeKeeper, s.alarmKeeper);
      r != 0 &&
      DigitOf(r) == Field(if setAlarmPin then s.timeKeeper else s.alarmKeeper, s.digitSelect)
  {
  }
}
