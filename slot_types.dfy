/**
 * The time-slot record the reservation pages receive, and the two helpers that
 * turn a slot's UTC instant into the Japan-time "HH:MM" label shown on a slot
 * button. Instants are integer milliseconds since the Unix epoch.
 */
module SlotTypes {
  import opened Strings

  datatype SlotType = Reservable | WalkIn
  datatype SlotStatus = Available | Booked

  /** A time slot as the API returns it; `slotTime`, `createdAt` and `updatedAt` are UTC instants. */
  datatype TimeSlot = TimeSlot(
    id: int,
    slotTime: int,
    slotType: SlotType,
    status: SlotStatus,
    createdAt: int,
    updatedAt: int)

  const MinuteMs: int := 60 * 1000
  const HourMs: int := 60 * MinuteMs
  const DayMs: int := 24 * HourMs

  /** `getUTCHours()`: the hour of the UTC day, counted from the epoch with floor division. */
  function UtcHours(t: int): (h: nat)
    ensures h < 24
  {
    (t / HourMs) % 24
  }

  /** `getUTCMinutes()`: the minute of the UTC hour. */
  function UtcMinutes(t: int): (m: nat)
    ensures m < 60
  {
    (t / MinuteMs) % 60
  }

  /** Moving an instant by whole hours moves its hour count by as many. */
  lemma ShiftHours(t: int, q: int)
    ensures (t + q * HourMs) / HourMs == t / HourMs + q
  {
  }

  /** Moving an instant by whole minutes moves its minute count by as many. */
  lemma ShiftMinutes(t: int, q: int)
    ensures (t + q * MinuteMs) / MinuteMs == t / MinuteMs + q
  {
  }

  /** Hours and days counted from the epoch, as floors of the minute and hour counts. */
  lemma NestedCounts(t: int)
    ensures t / HourMs == (t / MinuteMs) / 60
    ensures t / DayMs == (t / HourMs) / 24
  {
  }

  /** Hour arithmetic on a 24-hour clock. */
  lemma HoursMod(x: int, k: int)
    ensures (x + k) % 24 == (x % 24 + k) % 24
    ensures 0 <= x < 24 ==> (x + k * 24) % 24 == x
  {
  }

  /** Whole hours do not move the minute hand. */
  lemma MinutesMod(y: int, q: int)
    ensures (y + q * 60) % 60 == y % 60
  {
  }

  /** The UTC clock of an instant `ms` milliseconds into day number `day`. */
  lemma ClockOfDay(day: int, ms: int)
    requires 0 <= ms < DayMs
    ensures UtcHours(day * DayMs + ms) == ms / HourMs
    ensures UtcMinutes(day * DayMs + ms) == (ms / MinuteMs) % 60
  {
    assert day * DayMs == (day * 24) * HourMs == (day * 1440) * MinuteMs;
    ShiftHours(ms, day * 24);
    ShiftMinutes(ms, day * 1440);
    HoursMod(ms / HourMs, day);
    MinutesMod(ms / MinuteMs, day * 24);
  }

  /**
   * `convertUTCToJST`: the instant nine hours later, so that reading its UTC
   * clock gives the Japan Standard Time clock of the original instant.
   */
  function ConvertUtcToJst(utc: int): (jst: int)
    ensures jst - utc == 32_400_000
    ensures UtcHours(jst) == (UtcHours(utc) + 9) % 24
    ensures UtcMinutes(jst) == UtcMinutes(utc)
  {
    ShiftHours(utc, 9);
    ShiftMinutes(utc, 540);
    HoursMod(utc / HourMs, 9);
    MinutesMod(utc / MinuteMs, 9);
    utc + 9 * 60 * 60 * 1000
  }

  /** `n.toString().padStart(2, "0")`. */
  function TwoDigits(n: nat): string {
    PadStart(DecimalString(n), 2, '0')
  }

  lemma TwoDigitsValue(n: nat)
    requires n < 100
    ensures |TwoDigits(n)| == 2 && AllDigits(TwoDigits(n))
    ensures DigitsValue(TwoDigits(n)) == n
  {
    var d := DecimalString(n);
    DecimalStringValue(n);
    if n < 10 {
      assert TwoDigits(n) == ['0'] + d;
      assert TwoDigits(n)[..1] == ['0'];
    } else {
      assert TwoDigits(n) == d;
    }
  }

  /** "HH:MM" for an hour and a minute below 100, each written with two digits. */
  function ClockLabel(h: nat, m: nat): (r: string)
    requires h < 100 && m < 100
    ensures |r| == 5 && r[2] == ':'
    ensures AllDigits(r[..2]) && AllDigits(r[3..])
    ensures DigitsValue(r[..2]) == h && DigitsValue(r[3..]) == m
  {
    TwoDigitsValue(h);
    TwoDigitsValue(m);
    LabelParts(TwoDigits(h), TwoDigits(m));
    TwoDigits(h) + ":" + TwoDigits(m)
  }

  /** The two fields of "HH:MM" are where the label puts them. */
  lemma LabelParts(hours: string, minutes: string)
    requires |hours| == 2
    ensures var r := hours + ":" + minutes;
      |r| == 3 + |minutes| && r[2] == ':' && r[..2] == hours && r[3..] == minutes
  {
    var r := hours + ":" + minutes;
    assert r[..2] == hours;
    assert r[3..] == minutes;
  }

  /**
   * `formatJSTTime`: the UTC clock of `t` as "HH:MM", both fields zero-padded
   * to two digits, so that the label reads back as the hour and the minute.
   */
  function FormatJstTime(t: int): (r: string)
    ensures |r| == 5 && r[2] == ':'
    ensures AllDigits(r[..2]) && AllDigits(r[3..])
    ensures DigitsValue(r[..2]) == UtcHours(t)
    ensures DigitsValue(r[3..]) == UtcMinutes(t)
  {
    ClockLabel(UtcHours(t), UtcMinutes(t))
  }

  /** Two labels are equal exactly when they show the same hour and minute. */
  lemma FormatJstTimeInjective(t: int, u: int)
    ensures FormatJstTime(t) == FormatJstTime(u) <==> UtcHours(t) == UtcHours(u) && UtcMinutes(t) == UtcMinutes(u)
  {
  }

  /** The label of an instant whose UTC clock reads `h`:`m`. */
  lemma FormatJstTimeOfClock(t: int, h: nat, m: nat)
    requires UtcHours(t) == h && UtcMinutes(t) == m
    ensures FormatJstTime(t) == TwoDigits(h) + ":" + TwoDigits(m)
  {
  }

  /** The label depends only on the time of day: instants one day apart look the same. */
  lemma FormatJstTimeDaily(t: int)
    ensures FormatJstTime(t + DayMs) == FormatJstTime(t)
  {
    ShiftHours(t, 24);
    ShiftMinutes(t, 1440);
    HoursMod(t / HourMs, 24);
    MinutesMod(t / MinuteMs, 24);
    assert UtcHours(t + DayMs) == UtcHours(t);
    assert UtcMinutes(t + DayMs) == UtcMinutes(t);
  }
}
