/**
 * The 30-minute slot arithmetic of the planner (client/src/utils/timeSlots.ts):
 * "HH:MM" strings, slot indices 0..47, slot spans, end times and the longest
 * duration that stays before midnight.
 */
module TimeSlots {
  import opened Text

  /** One entry of the day's slot list (the display label is not modelled). */
  datatype TimeSlot = TimeSlot(time: string, index: nat)

  /** Shaped like "HH:MM": two digits, a colon, two digits. */
  predicate IsClockShaped(t: string) {
    |t| == 5 && IsDigit(t[0]) && IsDigit(t[1]) && t[2] == ':' && IsDigit(t[3]) && IsDigit(t[4])
  }

  /** `Number` of the part before the colon. */
  function Hour(t: string): nat
    requires IsClockShaped(t)
  {
    assert AllDigits(t[..2]) by {
      forall i | 0 <= i < 2 ensures IsDigit(t[..2][i]) {
        assert t[..2][i] == t[i];
      }
    }
    DigitsValue(t[..2])
  }

  /** `Number` of the part after the colon. */
  function Minute(t: string): nat
    requires IsClockShaped(t)
  {
    assert AllDigits(t[3..]) by {
      forall i | 0 <= i < 2 ensures IsDigit(t[3..][i]) {
        assert t[3..][i] == t[3 + i];
      }
    }
    DigitsValue(t[3..])
  }

  lemma ClockFields(t: string)
    requires IsClockShaped(t)
    ensures Hour(t) == 10 * DigitValue(t[0]) + DigitValue(t[1])
    ensures Minute(t) == 10 * DigitValue(t[3]) + DigitValue(t[4])
  {
    TwoDigitsValue(t[..2]);
    TwoDigitsValue(t[3..]);
  }

  /** A time of day that `parse(t, 'HH:mm')` accepts: hours 00..23, minutes 00..59. */
  predicate IsClockTime(t: string) {
    IsClockShaped(t) && Hour(t) < 24 && Minute(t) < 60
  }

  /** A time of day on a slot boundary: minutes 00 or 30. */
  predicate IsAligned(t: string) {
    IsClockShaped(t) && Hour(t) < 24 && (Minute(t) == 0 || Minute(t) == 30)
  }

  /** Minutes since midnight of a clock-shaped time. */
  function MinutesOf(t: string): nat
    requires IsClockShaped(t)
  {
    Hour(t) * 60 + Minute(t)
  }

  /** `slotIndexToTime`: hour `index / 2`, minute 0 or 30, both zero-padded. */
  function SlotIndexToTime(index: nat): string {
    Pad2(index / 2) + ":" + Pad2((index % 2) * 30)
  }

  /** `timeToSlotIndex`: two slots per hour, plus one only when the minute is exactly 30. */
  function TimeToSlotIndex(t: string): nat
    requires IsClockShaped(t)
  {
    Hour(t) * 2 + (if Minute(t) == 30 then 1 else 0)
  }

  /** `calculateSlotSpan`: the number of slots a duration covers. */
  function CalculateSlotSpan(durationMinutes: int): (span: int)
    requires durationMinutes % 30 == 0
    ensures span * 30 == durationMinutes
    ensures durationMinutes > 0 ==> span >= 1
  {
    durationMinutes / 30
  }

  /**
   * The snapping rule of `getCurrentSlotIndex`, with the clock reading passed in:
   * the index of the slot that contains the given hour and minute.
   */
  function SnapToSlot(hour: int, minute: int): (index: int)
    requires 0 <= hour < 24 && 0 <= minute < 60
    ensures 0 <= index < 48
    ensures 30 * index <= 60 * hour + minute < 30 * index + 30
  {
    var snappedMinute := if minute >= 30 then 30 else 0;
    hour * 2 + (if snappedMinute == 30 then 1 else 0)
  }

  /** `format(_, 'HH:mm')` of a minute of the day. */
  function MinutesToTime(m: nat): string
    requires m < 1440
  {
    Pad2(m / 60) + ":" + Pad2(m % 60)
  }

  /**
   * `calculateEndTime`: the time of day `durationMinutes` after `startTime`,
   * wrapping past midnight as adding minutes to a date and formatting its time does.
   */
  function CalculateEndTime(startTime: string, durationMinutes: int): string
    requires IsClockTime(startTime)
  {
    MinutesToTime((MinutesOf(startTime) + durationMinutes) % 1440)
  }

  /** `getMaxDuration`: the minutes left from `startTime` until midnight. */
  function GetMaxDuration(startTime: string): int
    requires IsClockShaped(startTime)
  {
    24 * 60 - MinutesOf(startTime)
  }

  /** `generateTimeSlots`: the 48 slots of a day, in order. */
  method GenerateTimeSlots() returns (slots: seq<TimeSlot>)
    ensures |slots| == 48
    ensures forall i :: 0 <= i < 48 ==> slots[i] == TimeSlot(SlotIndexToTime(i), i)
  {
    slots := [];
    for i := 0 to 48
      invariant |slots| == i
      invariant forall k :: 0 <= k < i ==> slots[k] == TimeSlot(SlotIndexToTime(k), k)
    {
      var hour := i / 2;
      var minute := (i % 2) * 30;
      var time := Pad2(hour) + ":" + Pad2(minute);
      slots := slots + [TimeSlot(time, i)];
    }
  }

  /** The five characters of a time built from an hour and a minute below 100. */
  lemma ClockString(h: nat, m: nat)
    requires h < 100 && m < 100
    ensures var t := Pad2(h) + ":" + Pad2(m);
      && t == [DigitChar(h / 10), DigitChar(h % 10), ':', DigitChar(m / 10), DigitChar(m % 10)]
      && IsClockShaped(t) && Hour(t) == h && Minute(t) == m
  {
    Pad2Digits(h);
    Pad2Digits(m);
    var t := Pad2(h) + ":" + Pad2(m);
    var c0, c1, c3, c4 := DigitChar(h / 10), DigitChar(h % 10), DigitChar(m / 10), DigitChar(m % 10);
    assert t == [c0, c1, ':', c3, c4];
    assert IsClockShaped(t);
    ClockFields(t);
    assert Hour(t) == 10 * (h / 10) + h % 10;
    assert Minute(t) == 10 * (m / 10) + m % 10;
  }

  /** Every slot index of the day names an aligned "HH:MM" with HH = index / 2. */
  lemma SlotTimeShape(i: nat)
    requires i < 48
    ensures IsAligned(SlotIndexToTime(i))
    ensures Hour(SlotIndexToTime(i)) == i / 2 && Minute(SlotIndexToTime(i)) == (i % 2) * 30
  {
    ClockString(i / 2, (i % 2) * 30);
  }

  /** `timeToSlotIndex(slotIndexToTime(i)) == i` on the day's indices. */
  lemma SlotIndexRoundTrip(i: nat)
    requires i < 48
    ensures TimeToSlotIndex(SlotIndexToTime(i)) == i
  {
    SlotTimeShape(i);
  }

  /** `slotIndexToTime(timeToSlotIndex(t)) == t` for every aligned time. */
  lemma TimeRoundTrip(t: string)
    requires IsAligned(t)
    ensures TimeToSlotIndex(t) < 48
    ensures SlotIndexToTime(TimeToSlotIndex(t)) == t
  {
    var h, m := Hour(t), Minute(t);
    ClockDigits(t);
    ClockString(h, m);
    assert Pad2(h) + ":" + Pad2(m) == t;
    HalveIndex(h, m);
  }

  lemma HalveIndex(h: nat, m: nat)
    requires m == 0 || m == 30
    ensures (h * 2 + (if m == 30 then 1 else 0)) / 2 == h
    ensures ((h * 2 + (if m == 30 then 1 else 0)) % 2) * 30 == m
  {
  }

  /** An aligned time is rebuilt from its hour and minute. */
  lemma ClockDigits(t: string)
    requires IsClockShaped(t)
    ensures Hour(t) < 100 && Minute(t) < 100
    ensures t == [DigitChar(Hour(t) / 10), DigitChar(Hour(t) % 10), ':', DigitChar(Minute(t) / 10), DigitChar(Minute(t) % 10)]
  {
    ClockFields(t);
    var h, m := Hour(t), Minute(t);
    assert h / 10 == DigitValue(t[0]) && h % 10 == DigitValue(t[1]);
    assert m / 10 == DigitValue(t[3]) && m % 10 == DigitValue(t[4]);
    DigitCharOfValue(t[0]);
    DigitCharOfValue(t[1]);
    DigitCharOfValue(t[3]);
    DigitCharOfValue(t[4]);
  }

  /** Only minute 30 counts as the half hour: any other minute adds nothing. */
  lemma OffHalfHourMinute(t: string)
    requires IsClockShaped(t) && Minute(t) != 30
    ensures TimeToSlotIndex(t) == 2 * Hour(t)
  {
  }

  /** "09:15" falls in the 09:00 slot, index 18. */
  lemma QuarterPastNine()
    ensures IsClockShaped("09:15") && TimeToSlotIndex("09:15") == 18
  {
    ClockFields("09:15");
  }

  /** An aligned time starts `30 * index` minutes after midnight. */
  lemma AlignedMinutes(t: string)
    requires IsAligned(t)
    ensures MinutesOf(t) == 30 * TimeToSlotIndex(t)
  {
  }

  /** For aligned times the longest duration is a multiple of 30 between 30 and 1440. */
  lemma MaxDurationOfAligned(t: string)
    requires IsAligned(t)
    ensures GetMaxDuration(t) == 30 * (48 - TimeToSlotIndex(t))
    ensures GetMaxDuration(t) % 30 == 0 && 30 <= GetMaxDuration(t) <= 1440
  {
    var i := TimeToSlotIndex(t);
    AlignedMinutes(t);
    assert i < 48;
    assert GetMaxDuration(t) == 1440 - 30 * i == 30 * (48 - i);
  }

  /** From 23:30 only 30 minutes remain before midnight. */
  lemma MaxDurationAtLastSlot()
    ensures IsClockShaped("23:30") && GetMaxDuration("23:30") == 30
  {
    ClockFields("23:30");
  }

  /** The time `30 * k` minutes after midnight is the time of slot `k`. */
  lemma MinutesToTimeOfSlot(k: nat)
    requires k < 48
    ensures MinutesToTime(30 * k) == SlotIndexToTime(k)
  {
    var q, r := k / 2, k % 2;
    assert 30 * k == 60 * q + 30 * r;
    assert (30 * k) / 60 == q && (30 * k) % 60 == 30 * r;
  }

  /**
   * A duration that ends before midnight ends on the slot boundary `span` slots
   * after the start.
   */
  lemma EndTimeSlot(s: string, d: int)
    requires IsAligned(s)
    requires 0 <= d < GetMaxDuration(s) && d % 30 == 0
    ensures IsClockTime(s)
    ensures IsAligned(CalculateEndTime(s, d))
    ensures TimeToSlotIndex(CalculateEndTime(s, d)) == TimeToSlotIndex(s) + CalculateSlotSpan(d)
  {
    var i, k := TimeToSlotIndex(s), d / 30;
    EndIsSlotTime(s, d);
    SlotTimeShape(i + k);
    SlotIndexRoundTrip(i + k);
  }

  /** Such an end time is the time of slot `index + span`. */
  lemma EndIsSlotTime(s: string, d: int)
    requires IsAligned(s)
    requires 0 <= d < GetMaxDuration(s) && d % 30 == 0
    ensures TimeToSlotIndex(s) + d / 30 < 48
    ensures CalculateEndTime(s, d) == SlotIndexToTime(TimeToSlotIndex(s) + d / 30)
  {
    var n := TimeToSlotIndex(s) + d / 30;
    EndMinutes(s, d);
    calc {
      CalculateEndTime(s, d);
      MinutesToTime((MinutesOf(s) + d) % 1440);
      MinutesToTime(30 * n);
      { MinutesToTimeOfSlot(n); }
      SlotIndexToTime(n);
    }
  }

  /** The minutes of such an end time: `30 * (index + span)`, still before midnight. */
  lemma EndMinutes(s: string, d: int)
    requires IsAligned(s)
    requires 0 <= d < GetMaxDuration(s) && d % 30 == 0
    ensures TimeToSlotIndex(s) + d / 30 < 48
    ensures (MinutesOf(s) + d) % 1440 == 30 * (TimeToSlotIndex(s) + d / 30)
  {
    var i, k := TimeToSlotIndex(s), d / 30;
    AlignedMinutes(s);
    assert d == 30 * k;
    assert MinutesOf(s) + d == 30 * (i + k) < 1440;
  }

  /** The longest duration wraps the end time round to "00:00". */
  lemma EndTimeAtMaxDuration(s: string)
    requires IsClockTime(s)
    ensures CalculateEndTime(s, GetMaxDuration(s)) == "00:00"
  {
    assert (MinutesOf(s) + GetMaxDuration(s)) % 1440 == 0;
    ClockString(0, 0);
  }
}
