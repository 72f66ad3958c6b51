/**
 * The seed script's slot layout: for every festival date, one slot every three
 * minutes from 10:00 up to (not including) 16:00 Japan time, stored as UTC
 * instants nine hours earlier, alternating walk-in and reservable, all
 * available. The database writes around the loop are not modelled.
 */
module Seed {
  import opened SlotTypes
  import opened Strings

  /** One row handed to `createMany`. */
  datatype SeedSlot = SeedSlot(slotTime: int, slotType: SlotType, status: SlotStatus)

  /** 2025-11-01 and 2025-11-02, as days since 1970-01-01. */
  const FestivalDays: seq<int> := [20393, 20394]
  const StartHour: int := 10
  const EndHour: int := 16
  const IntervalMinutes: int := 3
  const IntervalMs: int := IntervalMinutes * MinuteMs
  /** The number of slots one date gets: six hours of three-minute slots. */
  const SlotsPerDay: nat := 120

  /** `t.setUTCHours(h, 0, 0, 0)`: the same UTC date at `h`:00:00.000 (any `h`, as `MakeTime` allows). */
  function SetUtcClock(t: int, h: int): int {
    (t / DayMs) * DayMs + h * HourMs
  }

  /** `t.setUTCHours(h)`: the same UTC date, hour `h`, minutes, seconds and milliseconds kept. */
  function SetUtcHour(t: int, h: int): int {
    (t / DayMs) * DayMs + h * HourMs + t % HourMs
  }

  /** `t.setUTCMinutes(m)`: the same UTC date and hour, minute `m`, seconds and milliseconds kept. */
  function SetUtcMinutes(t: int, m: int): int {
    (t / DayMs) * DayMs + UtcHours(t) * HourMs + m * MinuteMs + t % MinuteMs
  }

  /** The row pushed for the slot at `t` when `index` rows precede it: the walk-in flag is true on even counts. */
  function SlotAt(t: int, index: nat): SeedSlot {
    SeedSlot(t, if index % 2 == 0 then WalkIn else Reservable, Available)
  }

  /** What the `while (currentTime < endTime)` loop pushes from `t` on, the first row being row number `index`. */
  function Run(t: int, end: int, index: nat): seq<SeedSlot>
    decreases end - t
  {
    if t < end then [SlotAt(t, index)] + Run(t + IntervalMs, end, index + 1) else []
  }

  /**
   * The rows one date contributes when `index` rows were pushed before it: from
   * 10:00 up to 16:00 Japan time, that is 01:00 up to 07:00 UTC of the same date.
   */
  function DaySlots(day: int, index: nat): seq<SeedSlot> {
    Run(day * DayMs + (StartHour - 9) * HourMs, day * DayMs + (EndHour - 9) * HourMs, index)
  }

  /** `slotsToCreate` after the loop over `days`; the walk-in flag is never reset between dates. */
  function SeedSlots(days: seq<int>): seq<SeedSlot> {
    if days == [] then []
    else
      var before := SeedSlots(days[..|days| - 1]);
      before + DaySlots(days[|days| - 1], |before|)
  }

  /** An instant is its UTC date, hour, minute and the milliseconds within the minute. */
  lemma ClockParts(t: int)
    ensures t == (t / DayMs) * DayMs + UtcHours(t) * HourMs + UtcMinutes(t) * MinuteMs + t % MinuteMs
  {
    NestedCounts(t);
    var m := t / MinuteMs;
    var h := t / HourMs;
    assert m == h * 60 + m % 60;
    assert h == (t / DayMs) * 24 + h % 24;
  }

  /** Advancing with `setUTCMinutes(getUTCMinutes() + k)` adds exactly `k` minutes. */
  lemma AddMinutes(t: int, k: int)
    ensures SetUtcMinutes(t, UtcMinutes(t) + k) == t + k * MinuteMs
  {
    ClockParts(t);
  }

  /**
   * `setUTCHours(hour, 0, 0, 0)` on the date's midnight, then
   * `setUTCHours(getUTCHours() - 9)`: Japan time `hour`:00 on `day` is stored
   * as UTC `hour - 9`:00 on the same date.
   */
  lemma JstHourAsUtcValue(day: int, hour: int)
    requires 9 <= hour < 24
    ensures var t := SetUtcClock(day * DayMs, hour);
      SetUtcHour(t, UtcHours(t) - 9) == day * DayMs + (hour - 9) * HourMs
  {
    var midnight := day * DayMs;
    assert midnight == (day * 24) * HourMs;
    ShiftHours(0, day * 24);
    NestedCounts(midnight);
    assert midnight / DayMs == day;
    var t := SetUtcClock(midnight, hour);
    assert t == (day * 24 + hour) * HourMs;
    ShiftHours(0, day * 24 + hour);
    NestedCounts(t);
    HoursMod(hour, day);
    assert UtcHours(t) == hour;
    assert t % HourMs == 0;
  }

  /** The loop pushes one row per interval between `t` and `end`, each `IntervalMs` after the last. */
  lemma {:induction false} RunShape(t: int, end: int, index: nat, j: nat)
    requires t <= end && (end - t) % IntervalMs == 0
    ensures |Run(t, end, index)| == (end - t) / IntervalMs
    ensures j < |Run(t, end, index)| ==>
      Run(t, end, index)[j] == SlotAt(t + j * IntervalMs, index + j) && t + j * IntervalMs < end
    decreases end - t
  {
    if t < end {
      var next := t + IntervalMs;
      var rest := Run(next, end, index + 1);
      IntervalStep(t, end);
      RunShape(next, end, index + 1, if j == 0 then 0 else j - 1);
      assert Run(t, end, index) == [SlotAt(t, index)] + rest;
      if 0 < j < |Run(t, end, index)| {
        assert Run(t, end, index)[j] == rest[j - 1];
        NextSlot(t, j);
      }
    }
  }

  /** The slot one interval on, counted from the next start. */
  lemma NextSlot(t: int, j: int)
    ensures t + IntervalMs + (j - 1) * IntervalMs == t + j * IntervalMs
  {
  }

  /** One interval on, the distance left is still whole intervals, one fewer. */
  lemma IntervalStep(t: int, end: int)
    requires t < end && (end - t) % IntervalMs == 0
    ensures t + IntervalMs <= end
    ensures (end - (t + IntervalMs)) % IntervalMs == 0
    ensures (end - (t + IntervalMs)) / IntervalMs + 1 == (end - t) / IntervalMs
  {
  }

  /** Every date yields exactly 120 rows (10:00, 10:03, ..., 15:57), numbered on from `index`. */
  lemma DaySlotsShape(day: int, index: nat, j: nat)
    ensures |DaySlots(day, index)| == SlotsPerDay
    ensures j < SlotsPerDay ==>
      DaySlots(day, index)[j] == SlotAt(day * DayMs + HourMs + j * IntervalMs, index + j)
  {
    RunShape(day * DayMs + HourMs, day * DayMs + 7 * HourMs, index, j);
  }

  /** The whole layout: row `SlotsPerDay * d + j` is the `j`-th slot of date `d`, and the count is 120 per date. */
  lemma {:induction false} SeedSlotsAt(days: seq<int>, d: nat, j: nat)
    ensures |SeedSlots(days)| == SlotsPerDay * |days|
    ensures d < |days| && j < SlotsPerDay ==>
      SeedSlots(days)[SlotsPerDay * d + j]
        == SlotAt(days[d] * DayMs + HourMs + j * IntervalMs, SlotsPerDay * d + j)
  {
    if days != [] {
      var n := |days| - 1;
      var init := days[..n];
      var before := SeedSlots(init);
      var today := DaySlots(days[n], |before|);
      assert SeedSlots(days) == before + today;
      SeedSlotsAt(init, d, j);
      DaySlotsShape(days[n], |before|, j);
      if d < n && j < SlotsPerDay {
        assert SlotsPerDay * d + j < |before|;
        assert days[d] == init[d];
      } else if d == n && j < SlotsPerDay {
        assert SeedSlots(days)[SlotsPerDay * d + j] == today[j];
      }
    }
  }

  /** Row `k` of the seed, written with the date and position it falls on. */
  lemma SeedSlotAt(days: seq<int>, k: nat)
    requires k < |SeedSlots(days)|
    ensures |SeedSlots(days)| == SlotsPerDay * |days|
    ensures k / SlotsPerDay < |days|
    ensures SeedSlots(days)[k]
      == SlotAt(days[k / SlotsPerDay] * DayMs + HourMs + (k % SlotsPerDay) * IntervalMs, k)
  {
    SeedSlotsAt(days, k / SlotsPerDay, k % SlotsPerDay);
  }

  /** The festival seed creates 240 slots. */
  lemma FestivalSlotCount()
    ensures |SeedSlots(FestivalDays)| == 240
  {
    SeedSlotsAt(FestivalDays, 0, 0);
  }

  /**
   * Each date's first row is a walk-in slot at 01:00 UTC (10:00 Japan time): the
   * flag is not reset between dates, but every date pushes an even number of rows.
   */
  lemma EachDateStartsWalkIn(days: seq<int>, d: nat)
    requires d < |days|
    ensures |SeedSlots(days)| == SlotsPerDay * |days|
    ensures SeedSlots(days)[SlotsPerDay * d] == SeedSlot(days[d] * DayMs + HourMs, WalkIn, Available)
    ensures UtcHours(SeedSlots(days)[SlotsPerDay * d].slotTime) == 1
  {
    SeedSlotsAt(days, d, 0);
    var t := days[d] * DayMs + HourMs;
    assert SeedSlots(days)[SlotsPerDay * d] == SlotAt(t, SlotsPerDay * d);
    ClockOfDay(days[d], HourMs);
  }

  /** Row `k` is a walk-in slot exactly when `k` is even, and is available. */
  lemma SeedSlotKind(days: seq<int>, k: nat)
    requires k < |SeedSlots(days)|
    ensures SeedSlots(days)[k].slotType == (if k % 2 == 0 then WalkIn else Reservable)
    ensures SeedSlots(days)[k].status == Available
  {
    SeedSlotAt(days, k);
  }

  /** Kinds alternate walk-in, reservable, walk-in, ... over the whole output, and every row is available. */
  lemma KindsAlternate(days: seq<int>, k: nat)
    requires k + 1 < |SeedSlots(days)|
    ensures SeedSlots(days)[k + 1].slotType != SeedSlots(days)[k].slotType
  {
    SeedSlotKind(days, k);
    SeedSlotKind(days, k + 1);
  }

  /**
   * Within a date, the row at position `j` lies in [01:00, 07:00) UTC of that
   * date, the next row of the same date is exactly three minutes later, and
   * the last row is at 06:57 UTC.
   */
  lemma DateWindow(days: seq<int>, d: nat, j: nat)
    requires d < |days| && j < SlotsPerDay
    ensures |SeedSlots(days)| == SlotsPerDay * |days|
    ensures var t := SeedSlots(days)[SlotsPerDay * d + j].slotTime;
      days[d] * DayMs + HourMs <= t < days[d] * DayMs + 7 * HourMs
    ensures j + 1 < SlotsPerDay ==>
      SeedSlots(days)[SlotsPerDay * d + j + 1].slotTime == SeedSlots(days)[SlotsPerDay * d + j].slotTime + IntervalMs
    ensures j == SlotsPerDay - 1 ==>
      SeedSlots(days)[SlotsPerDay * d + j].slotTime == days[d] * DayMs + 7 * HourMs - 3 * MinuteMs
  {
    SeedSlotsAt(days, d, j);
    if j + 1 < SlotsPerDay {
      SeedSlotsAt(days, d, j + 1);
    }
  }

  predicate StrictlyIncreasing(days: seq<int>) {
    forall a, b :: 0 <= a < b < |days| ==> days[a] < days[b]
  }

  /** With the dates in increasing order, the output is in increasing time order: by date, then by time. */
  lemma SlotsInTimeOrder(days: seq<int>, k1: nat, k2: nat)
    requires StrictlyIncreasing(days)
    requires k1 < k2 < |SeedSlots(days)|
    ensures SeedSlots(days)[k1].slotTime < SeedSlots(days)[k2].slotTime
  {
    SeedSlotAt(days, k1);
    SeedSlotAt(days, k2);
    var d1, d2 := k1 / SlotsPerDay, k2 / SlotsPerDay;
    InstantOrder(days[d1], k1 % SlotsPerDay, days[d2], k2 % SlotsPerDay);
  }

  /** Slot instants order by date first, then by position within the date. */
  lemma InstantOrder(a: int, j1: nat, b: int, j2: nat)
    requires j1 < SlotsPerDay && j2 < SlotsPerDay
    requires a < b || (a == b && j1 < j2)
    ensures a * DayMs + HourMs + j1 * IntervalMs < b * DayMs + HourMs + j2 * IntervalMs
  {
    if a < b {
      assert a * DayMs + DayMs <= b * DayMs;
    }
  }

  /**
   * Shown on a slot button, the row at position `j` of a date reads as the
   * Japan-time clock 10:00 + 3j minutes: hour 10 to 15, minute a multiple of 3.
   */
  lemma SlotClock(day: int, j: nat)
    requires j < SlotsPerDay
    ensures var jst := ConvertUtcToJst(day * DayMs + HourMs + j * IntervalMs);
      UtcHours(jst) == 10 + (3 * j) / 60 && UtcMinutes(jst) == (3 * j) % 60
  {
    var utc := day * DayMs + HourMs + j * IntervalMs;
    var minutes := 600 + 3 * j;
    var ms := minutes * MinuteMs;
    SlotOffset(j);
    assert ConvertUtcToJst(utc) == day * DayMs + ms;
    ShiftMinutes(0, minutes);
    NestedCounts(ms);
    ClockOfDay(day, ms);
  }

  /** Slot `j` of a date starts `3j` minutes after 10:00. */
  lemma SlotOffset(j: nat)
    requires j < SlotsPerDay
    ensures HourMs + j * IntervalMs + 32_400_000 == (600 + 3 * j) * MinuteMs
    ensures (600 + 3 * j) * MinuteMs < DayMs
    ensures (600 + 3 * j) / 60 == 10 + (3 * j) / 60 && (600 + 3 * j) % 60 == (3 * j) % 60
  {
  }

  /** Every seeded row is labelled with a Japan-time clock between 10:00 and 15:57. */
  lemma SeedSlotLabel(days: seq<int>, d: nat, j: nat)
    requires d < |days| && j < SlotsPerDay
    ensures |SeedSlots(days)| == SlotsPerDay * |days|
    ensures var jst := ConvertUtcToJst(SeedSlots(days)[SlotsPerDay * d + j].slotTime);
      UtcHours(jst) == 10 + (3 * j) / 60 && UtcMinutes(jst) == (3 * j) % 60
    ensures var jst := ConvertUtcToJst(SeedSlots(days)[SlotsPerDay * d + j].slotTime);
      10 <= UtcHours(jst) < 16
  {
    SeedSlotsAt(days, d, j);
    SlotClock(days[d], j);
  }

  /** On any date the first slot reads "10:00" and the last "15:57". */
  lemma DayLabels(day: int, first: int, last: int)
    requires first == day * DayMs + HourMs
    requires last == day * DayMs + HourMs + (SlotsPerDay - 1) * IntervalMs
    ensures FormatJstTime(ConvertUtcToJst(first)) == "10:00"
    ensures FormatJstTime(ConvertUtcToJst(last)) == "15:57"
  {
    SlotClock(day, 0);
    SlotClock(day, SlotsPerDay - 1);
    FormatJstTimeOfClock(ConvertUtcToJst(first), 10, 0);
    FormatJstTimeOfClock(ConvertUtcToJst(last), 15, 57);
    assert TwoDigits(10) == "10" && TwoDigits(0) == "00";
    assert TwoDigits(15) == "15" && TwoDigits(57) == "57";
  }

  /** The first seeded slot of each date is labelled "10:00" and the last "15:57". */
  lemma FirstAndLastLabels(days: seq<int>, d: nat)
    requires d < |days|
    ensures |SeedSlots(days)| == SlotsPerDay * |days|
    ensures FormatJstTime(ConvertUtcToJst(SeedSlots(days)[SlotsPerDay * d].slotTime)) == "10:00"
    ensures FormatJstTime(ConvertUtcToJst(SeedSlots(days)[SlotsPerDay * d + SlotsPerDay - 1].slotTime)) == "15:57"
  {
    SeedSlotsAt(days, d, 0);
    SeedSlotsAt(days, d, SlotsPerDay - 1);
    DayLabels(days[d], SeedSlots(days)[SlotsPerDay * d].slotTime,
      SeedSlots(days)[SlotsPerDay * d + SlotsPerDay - 1].slotTime);
  }

  /** Taking one more date appends that date's rows, numbered on from the rows already there. */
  lemma SeedSlotsExtend(days: seq<int>, i: nat)
    requires i < |days|
    ensures SeedSlots(days[..i + 1]) == SeedSlots(days[..i]) + DaySlots(days[i], |SeedSlots(days[..i])|)
  {
    assert days[..i + 1][..i] == days[..i];
  }

  /**
   * `startTime` and `endTime` of a date: a copy of its midnight set to `hour`:00
   * with `setUTCHours(hour, 0, 0, 0)`, then moved back nine hours with
   * `setUTCHours(getUTCHours() - 9)`, so that Japan time `hour`:00 is stored.
   */
  method JstHourToUtc(day: int, hour: int) returns (time: int)
    requires 9 <= hour < 24
    ensures time == day * DayMs + (hour - 9) * HourMs
    ensures ConvertUtcToJst(time) == day * DayMs + hour * HourMs
  {
    var targetDate := day * DayMs;
    time := SetUtcClock(targetDate, hour);
    time := SetUtcHour(time, UtcHours(time) - 9);
    JstHourAsUtcValue(day, hour);
  }

  /** `currentTime.setUTCMinutes(currentTime.getUTCMinutes() + k)`: the instant `k` minutes later. */
  method AdvanceMinutes(currentTime: int, k: int) returns (next: int)
    ensures next == currentTime + k * MinuteMs
  {
    AddMinutes(currentTime, k);
    next := SetUtcMinutes(currentTime, UtcMinutes(currentTime) + k);
  }

  /**
   * The `while (currentTime < endTime)` loop for one date: it appends the run
   * from `startTime`, numbering rows on from the ones already pushed, and the
   * walk-in flag keeps following the parity of the row count.
   */
  method PushDay(slots: seq<SeedSlot>, walkIn: bool, startTime: int, endTime: int)
    returns (slotsToCreate: seq<SeedSlot>, isWalkIn: bool)
    requires walkIn == (|slots| % 2 == 0)
    ensures slotsToCreate == slots + Run(startTime, endTime, |slots|)
    ensures isWalkIn == (|slotsToCreate| % 2 == 0)
  {
    slotsToCreate, isWalkIn := slots, walkIn;
    var currentTime := startTime;
    while currentTime < endTime
      invariant slotsToCreate + Run(currentTime, endTime, |slotsToCreate|)
        == slots + Run(startTime, endTime, |slots|)
      invariant isWalkIn == (|slotsToCreate| % 2 == 0)
      decreases endTime - currentTime
    {
      assert Run(currentTime, endTime, |slotsToCreate|)
        == [SlotAt(currentTime, |slotsToCreate|)] + Run(currentTime + IntervalMs, endTime, |slotsToCreate| + 1);
      var slotType := if isWalkIn then WalkIn else Reservable;
      slotsToCreate := slotsToCreate + [SeedSlot(currentTime, slotType, Available)];
      currentTime := AdvanceMinutes(currentTime, IntervalMinutes);
      isWalkIn := !isWalkIn;
    }
  }

  /** The seed loop of `main`: the rows for `days`, in the order they are pushed. */
  method GenerateSlots(days: seq<int>) returns (slotsToCreate: seq<SeedSlot>)
    ensures slotsToCreate == SeedSlots(days)
  {
    slotsToCreate := [];
    var isWalkIn := true;
    for i := 0 to |days|
      invariant slotsToCreate == SeedSlots(days[..i])
      invariant isWalkIn == (|slotsToCreate| % 2 == 0)
    {
      var startTime := JstHourToUtc(days[i], StartHour);
      var endTime := JstHourToUtc(days[i], EndHour);
      SeedSlotsExtend(days, i);
      slotsToCreate, isWalkIn := PushDay(slotsToCreate, isWalkIn, startTime, endTime);
    }
    assert days[..|days|] == days;
  }
}
