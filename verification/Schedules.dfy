/** internal/analytics/schedules.go: normalising a schedule and finding its next run. */
module Schedules {
  import opened Calendar
  import opened Text
  import opened Wrappers

  datatype Error = BadReport | BadCadence | BadRecipients | BadFormat | BadOptions | Undeliverable | Outage

  datatype Result<+T> = Ok(value: T) | Err(error: Error)

  /** `Numeral` carries what strconv.Atoi makes of a json.Number, 0 if it is no integer. */
  datatype OptionValue = Whole(n: int) | Float(x: real) | Numeral(parsed: int) | Words(text: string) | Other

  type Options = map<string, OptionValue>

  /** Known locations and their offsets from UTC in seconds. */
  type Zones = map<string, int>

  /** Conversion of a float to int drops the fraction. */
  function Truncate(x: real): int {
    if x >= 0.0 then x.Floor else -(-x).Floor
  }

  function NumberOption(options: Options, key: string, fallback: int): int {
    if key !in options then fallback
    else match options[key]
      case Whole(n) => n
      case Float(x) => Truncate(x)
      case Numeral(parsed) => parsed
      case Words(_) => -1
      case Other => -1
  }

  function Hour(options: Options): int { NumberOption(options, "hour", 9) }
  function Minute(options: Options): int { NumberOption(options, "minute", 0) }
  function WeekdayOption(options: Options): int { NumberOption(options, "weekday", 1) }
  function DayOption(options: Options): int { NumberOption(options, "day", 1) }

  predicate ValidOptions(cadence: string, options: Options) {
    && 0 <= Hour(options) <= 23
    && 0 <= Minute(options) <= 59
    && (cadence == "weekly" ==> 0 <= WeekdayOption(options) <= 6)
    && (cadence == "monthly" ==> 1 <= DayOption(options) <= 28)
  }

  predicate KnownCadence(cadence: string) {
    cadence == "daily" || cadence == "weekly" || cadence == "monthly"
  }

  /** The offset of the zone the options name; UTC when they name none. */
  function ZoneOffset(options: Options, zones: Zones): Option<int> {
    if "timezone" in options && options["timezone"].Words? && !Blank(options["timezone"].text) then
      if options["timezone"].text in zones then Some(zones[options["timezone"].text]) else None
    else Some(0)
  }

  function Nanos(seconds: int): int {
    seconds * 1_000_000_000
  }

  function DailyRun(local: int, clock: int): int {
    var candidate := Date(MonthOf(DayOf(local)), DayOfMonth(DayOf(local)), clock);
    if candidate > local then candidate else AddDays(candidate, 1)
  }

  function WeeklyRun(local: int, clock: int, weekday: int): int {
    var candidate := Date(MonthOf(DayOf(local)), DayOfMonth(DayOf(local)), clock);
    var days := (weekday - Weekday(DayOf(candidate)) + 7) % 7;
    var shifted := AddDays(candidate, days);
    if shifted > local then shifted else AddDays(shifted, 7)
  }

  function MonthlyRun(local: int, clock: int, day: int): int {
    var candidate := Date(MonthOf(DayOf(local)), day, clock);
    if candidate > local then candidate else Date(MonthOf(DayOf(local)) + 1, day, clock)
  }

  function NextRun(now: int, cadence: string, options: Options, zones: Zones): Result<int> {
    if !ValidOptions(cadence, options) then Err(BadOptions)
    else match ZoneOffset(options, zones)
      case None => Err(BadOptions)
      case Some(offset) =>
        var local := now + Nanos(offset);
        var clock := Clock(Hour(options), Minute(options));
        if cadence == "daily" then Ok(DailyRun(local, clock) - Nanos(offset))
        else if cadence == "weekly" then Ok(WeeklyRun(local, clock, WeekdayOption(options)) - Nanos(offset))
        else if cadence == "monthly" then Ok(MonthlyRun(local, clock, DayOption(options)) - Nanos(offset))
        else Err(BadCadence)
  }

  // ------------------------------------------------------- the earliest instant

  /** A local time the cadence asks for. */
  predicate Matches(cadence: string, options: Options, local: int) {
    && ClockOf(local) == Clock(Hour(options), Minute(options))
    && (cadence == "weekly" ==> Weekday(DayOf(local)) == WeekdayOption(options))
    && (cadence == "monthly" ==> DayOfMonth(DayOf(local)) == DayOption(options))
  }

  function LongestGap(cadence: string): int {
    At(if cadence == "daily" then 1 else if cadence == "weekly" then 7 else 31, 0)
  }

  lemma ClockInDay(hour: int, minute: int)
    requires 0 <= hour <= 23 && 0 <= minute <= 59
    ensures 0 <= Clock(hour, minute) < 86_400_000_000_000
  {
  }

  lemma Today(local: int, clock: int)
    ensures Date(MonthOf(DayOf(local)), DayOfMonth(DayOf(local)), clock) == At(DayOf(local), clock)
  {
  }

  lemma DailyRunIs(local: int, clock: int)
    requires 0 <= clock < 86_400_000_000_000
    ensures DailyRun(local, clock) == At(DayOf(local) + (if At(DayOf(local), clock) > local then 0 else 1), clock)
  {
    Today(local, clock);
    AddDaysAdds(DayOf(local), clock, 1);
  }

  lemma WeeklyRunIs(local: int, clock: int, weekday: int)
    requires 0 <= clock < 86_400_000_000_000
    ensures var day := DayOf(local) + (weekday - Weekday(DayOf(local)) + 7) % 7;
            WeeklyRun(local, clock, weekday) == At(day + (if At(day, clock) > local then 0 else 7), clock)
  {
    hide Date, AddDays, DayOf, ClockOf, Weekday, At, MonthOf, DayOfMonth;
    var days := (weekday - Weekday(DayOf(local)) + 7) % 7;
    Today(local, clock);
    AtSplits(DayOf(local), clock);
    AddDaysAdds(DayOf(local), clock, days);
    AddDaysAdds(DayOf(local) + days, clock, 7);
  }

  /** Splitting an instant into day and clock, in the terms the order lemmas use. */
  lemma Split(t: int)
    ensures t == At(DayOf(t), ClockOf(t)) && 0 <= ClockOf(t) < 86_400_000_000_000
  {
  }

  lemma DailyIsEarliest(local: int, clock: int, t: int)
    requires 0 <= clock < 86_400_000_000_000
    ensures var r := DailyRun(local, clock);
            && local < r <= local + LongestGap("daily") && ClockOf(r) == clock
            && (local < t && ClockOf(t) == clock ==> r <= t)
  {
    hide DailyRun;
    DailyRunIs(local, clock);
    Split(local);
    Split(t);
    AtSplits(DayOf(local), clock);
    AtSplits(DayOf(local) + 1, clock);
  }

  lemma WeekdaysRepeat(day: int, other: int)
    requires Weekday(day) == Weekday(other) && day - 7 < other
    ensures day <= other
  {
  }

  lemma WeekdayReached(day: int, weekday: int)
    requires 0 <= weekday <= 6
    ensures var reached := day + (weekday - Weekday(day) + 7) % 7;
            Weekday(reached) == weekday && Weekday(reached + 7) == weekday && day <= reached < day + 7
  {
  }

  lemma WeeklyIsEarliest(local: int, clock: int, weekday: int, t: int)
    requires 0 <= clock < 86_400_000_000_000 && 0 <= weekday <= 6
    ensures var r := WeeklyRun(local, clock, weekday);
            && local < r <= local + LongestGap("weekly")
            && ClockOf(r) == clock && Weekday(DayOf(r)) == weekday
            && (local < t && ClockOf(t) == clock && Weekday(DayOf(t)) == weekday ==> r <= t)
  {
    hide WeeklyRun, DayOf, ClockOf, Weekday;
    var reached := DayOf(local) + (weekday - Weekday(DayOf(local)) + 7) % 7;
    WeekdayReached(DayOf(local), weekday);
    WeeklyRunIs(local, clock, weekday);
    Split(local);
    Split(t);
    AtSplits(reached, clock);
    AtSplits(reached + 7, clock);
    WeeklyOrder(DayOf(local), ClockOf(local), reached, clock, weekday, DayOf(t));
  }

  lemma WeeklyOrder(today: int, time: int, reached: int, clock: int, weekday: int, other: int)
    requires 0 <= time < 86_400_000_000_000 && 0 <= clock < 86_400_000_000_000
    requires today <= reached < today + 7 && Weekday(reached) == weekday == Weekday(reached + 7)
    ensures var day := if At(reached, clock) > At(today, time) then reached else reached + 7;
            && At(today, time) < At(day, clock) <= At(today, time) + At(7, 0)
            && (At(today, time) < At(other, clock) && Weekday(other) == weekday ==> At(day, clock) <= At(other, clock))
  {
    if At(today, time) < At(other, clock) && Weekday(other) == weekday {
      AtInOrder(today, time, other, clock);
      WeekdaysRepeat(reached, other);
      if other != reached {
        WeekdaysRepeat(reached + 7, other);
      }
    }
  }

  lemma MonthDay(day: int)
    ensures day == MonthStart(MonthOf(day)) + DayOfMonth(day) - 1
  {
  }

  lemma MonthlyIsEarliest(local: int, clock: int, day: int, t: int)
    requires 0 <= clock < 86_400_000_000_000 && 1 <= day <= 28
    ensures var r := MonthlyRun(local, clock, day);
            && local < r <= local + LongestGap("monthly")
            && ClockOf(r) == clock && DayOfMonth(DayOf(r)) == day
            && (local < t && ClockOf(t) == clock && DayOfMonth(DayOf(t)) == day ==> r <= t)
  {
    hide MonthOf, MonthStart, DayOfMonth, DaysIn, DayOf, ClockOf;
    var month := MonthOf(DayOf(local));
    MonthLength(month);
    MonthLength(month + 1);
    DateNamesDay(month, day);
    DateNamesDay(month + 1, day);
    AtSplits(MonthStart(month) + day - 1, clock);
    AtSplits(MonthStart(month + 1) + day - 1, clock);
    Split(local);
    Split(t);
    MonthDay(DayOf(t));
    MonthlyOrder(DayOf(local), ClockOf(local), month, clock, day, MonthOf(DayOf(t)));
  }

  lemma MonthlyOrder(today: int, time: int, month: int, clock: int, day: int, other: int)
    requires 0 <= time < 86_400_000_000_000 && 0 <= clock < 86_400_000_000_000 && 1 <= day <= 28
    requires MonthStart(month) <= today < MonthStart(month + 1)
    ensures var chosen := if Date(month, day, clock) > At(today, time) then month else month + 1;
            && At(today, time) < Date(chosen, day, clock) <= At(today, time) + At(31, 0)
            && (At(today, time) < Date(other, day, clock) ==> Date(chosen, day, clock) <= Date(other, day, clock))
  {
    hide MonthStart, DaysIn;
    MonthLength(month);
    if other < month {
      MonthsInOrder(other, month);
      MonthLength(other);
    } else if other > month + 1 {
      MonthsInOrder(month + 1, other);
      MonthLength(month + 1);
    }
  }

  /** An instant of the zone `offset` seconds east at which the cadence comes round. */
  predicate Occurs(cadence: string, options: Options, offset: int, t: int) {
    Matches(cadence, options, t + Nanos(offset))
  }

  /** In a fixed-offset zone the next run is the earliest instant strictly after now
      at which the cadence's minute, hour, weekday or day of month come round, at
      most 1, 7 or 31 days away. */
  lemma NextRunIsEarliest(now: int, cadence: string, options: Options, zones: Zones)
    requires NextRun(now, cadence, options, zones).Ok?
    ensures var r, offset := NextRun(now, cadence, options, zones).value, ZoneOffset(options, zones);
            && offset.Some?
            && now < r <= now + LongestGap(cadence)
            && Occurs(cadence, options, offset.value, r)
            && forall t :: now < t && Occurs(cadence, options, offset.value, t) ==> r <= t
  {
    hide DailyRun, WeeklyRun, MonthlyRun, DayOf, ClockOf, Weekday, DayOfMonth;
    var r, offset := NextRun(now, cadence, options, zones).value, ZoneOffset(options, zones).value;
    NextRunBeats(now, cadence, options, offset, r, now);
    forall t | now < t && Occurs(cadence, options, offset, t)
      ensures r <= t
    {
      NextRunBeats(now, cadence, options, offset, r, t);
    }
  }

  lemma NextRunBeats(now: int, cadence: string, options: Options, offset: int, r: int, t: int)
    requires KnownCadence(cadence) && ValidOptions(cadence, options)
    requires var local, clock := now + Nanos(offset), Clock(Hour(options), Minute(options));
             r + Nanos(offset) == if cadence == "daily" then DailyRun(local, clock)
                                  else if cadence == "weekly" then WeeklyRun(local, clock, WeekdayOption(options))
                                  else MonthlyRun(local, clock, DayOption(options))
    ensures now < r <= now + LongestGap(cadence) && Occurs(cadence, options, offset, r)
    ensures now < t && Occurs(cadence, options, offset, t) ==> r <= t
  {
    hide DailyRun, WeeklyRun, MonthlyRun, DayOf, ClockOf, Weekday, DayOfMonth;
    var local, clock := now + Nanos(offset), Clock(Hour(options), Minute(options));
    ClockInDay(Hour(options), Minute(options));
    if cadence == "daily" {
      DailyIsEarliest(local, clock, t + Nanos(offset));
    } else if cadence == "weekly" {
      WeeklyIsEarliest(local, clock, WeekdayOption(options), t + Nanos(offset));
    } else {
      MonthlyIsEarliest(local, clock, DayOption(options), t + Nanos(offset));
    }
  }

  /** It fails exactly for options out of range, an unknown zone, or a cadence not
      spelled in lower case without surrounding space. */
  lemma NextRunFails(now: int, cadence: string, options: Options, zones: Zones)
    ensures NextRun(now, cadence, options, zones).Ok? <==>
              KnownCadence(cadence) && ValidOptions(cadence, options) && ZoneOffset(options, zones).Some?
    ensures NextRun(now, cadence, options, zones) == Err(BadCadence) <==>
              !KnownCadence(cadence) && ValidOptions(cadence, options) && ZoneOffset(options, zones).Some?
  {
    hide DailyRun, WeeklyRun, MonthlyRun;
  }

  lemma NextRunIsWholeSecond(now: int, cadence: string, options: Options, zones: Zones)
    requires NextRun(now, cadence, options, zones).Ok?
    ensures NextRun(now, cadence, options, zones).value % 1_000_000_000 == 0
  {
    hide DailyRun, WeeklyRun, MonthlyRun, Weekday, DayOfMonth;
    NextRunIsEarliest(now, cadence, options, zones);
    var r, offset := NextRun(now, cadence, options, zones).value, ZoneOffset(options, zones).value;
    Split(r + Nanos(offset));
    var minutes := Hour(options) * 60 + Minute(options);
    WholeSecond(r, DayOf(r + Nanos(offset)), minutes, offset);
  }

  lemma WholeSecond(r: int, day: int, minutes: int, offset: int)
    requires r + offset * 1_000_000_000 == day * 86_400_000_000_000 + minutes * 60_000_000_000
    ensures r % 1_000_000_000 == 0
  {
    assert r == 1_000_000_000 * (86_400 * day + 60 * minutes - offset);
  }
}
