/** What a schedule's options ask for, read off the options themselves, and that the next
    run answers it. */
module ScheduleOptions {
  import opened Calendar
  import opened Schedules
  import opened Text
  import opened Wrappers

  /** The option is absent and n is its default, or it is a number that is n once its
      fraction is dropped; words are no number. */
  predicate Given(options: Options, key: string, fallback: int, n: int) {
    if key !in options then n == fallback
    else match options[key]
      case Whole(m) => n == m
      case Numeral(m) => n == m
      case Float(x) =>
        if x >= 0.0 then n as real <= x < (n + 1) as real else (n - 1) as real < x <= n as real
      case Words(_) => false
      case Other => false
  }

  /** The zone is UTC, or the one the options name, at its offset. */
  predicate InZone(options: Options, zones: Zones, offset: int) {
    if "timezone" in options && options["timezone"].Words? && !Blank(options["timezone"].text)
    then options["timezone"].text in zones && offset == zones[options["timezone"].text]
    else offset == 0
  }

  datatype Asked = Asked(hour: int, minute: int, weekday: int, day: int, offset: int)

  predicate Asks(cadence: string, options: Options, zones: Zones, a: Asked) {
    && Given(options, "hour", 9, a.hour) && Given(options, "minute", 0, a.minute)
    && (cadence == "weekly" ==> Given(options, "weekday", 1, a.weekday))
    && (cadence == "monthly" ==> Given(options, "day", 1, a.day))
    && InZone(options, zones, a.offset)
  }

  predicate InRange(cadence: string, a: Asked) {
    && 0 <= a.hour <= 23 && 0 <= a.minute <= 59
    && (cadence == "weekly" ==> 0 <= a.weekday <= 6)
    && (cadence == "monthly" ==> 1 <= a.day <= 28)
  }

  /** The local time shows the hour and minute asked for, on the weekday (Sunday is 0,
      day 0 was a Monday) or day of the month asked for. */
  predicate ComesRound(cadence: string, a: Asked, local: int) {
    && local % 86_400_000_000_000 == (a.hour * 3600 + a.minute * 60) * 1_000_000_000
    && (cadence == "weekly" ==> (local / 86_400_000_000_000 + 1) % 7 == a.weekday)
    && (cadence == "monthly" ==> DayOfMonth(local / 86_400_000_000_000) == a.day)
  }

  /** So it does at the instant t, in the zone asked for. */
  predicate ShownAt(cadence: string, a: Asked, t: int) {
    ComesRound(cadence, a, t + a.offset * 1_000_000_000)
  }

  /** What is read off the options is what they ask for. */
  predicate Reads(cadence: string, options: Options, zones: Zones, a: Asked) {
    && Hour(options) == a.hour && Minute(options) == a.minute
    && (cadence == "weekly" ==> WeekdayOption(options) == a.weekday)
    && (cadence == "monthly" ==> DayOption(options) == a.day)
    && ZoneOffset(options, zones) == Some(a.offset)
  }

  lemma GivenIsRead(options: Options, key: string, fallback: int, n: int)
    requires Given(options, key, fallback, n)
    ensures NumberOption(options, key, fallback) == n
  {
    if key in options && options[key].Float? {
      TruncateIs(options[key].x, n);
    }
  }

  lemma TruncateIs(x: real, n: int)
    requires if x >= 0.0 then n as real <= x < (n + 1) as real else (n - 1) as real < x <= n as real
    ensures Truncate(x) == n
  {
    if x >= 0.0 {
      assert x.Floor == n;
    } else {
      assert (-n) as real <= -x < (-n + 1) as real;
      assert (-x).Floor == -n;
    }
  }

  lemma ReadIsGiven(options: Options, key: string, fallback: int)
    ensures var n := NumberOption(options, key, fallback); Given(options, key, fallback, n) || n == -1
  {
    if key in options && options[key].Float? {
      var x := options[key].x;
      assert x >= 0.0 ==> x.Floor as real <= x < (x.Floor + 1) as real;
      assert x < 0.0 ==> (-x).Floor as real <= -x < ((-x).Floor + 1) as real;
    }
  }

  lemma AskedIsRead(cadence: string, options: Options, zones: Zones, a: Asked)
    requires Asks(cadence, options, zones, a)
    ensures Reads(cadence, options, zones, a)
  {
    GivenIsRead(options, "hour", 9, a.hour);
    GivenIsRead(options, "minute", 0, a.minute);
    if cadence == "weekly" {
      GivenIsRead(options, "weekday", 1, a.weekday);
    }
    if cadence == "monthly" {
      GivenIsRead(options, "day", 1, a.day);
    }
    hide NumberOption, Given;
  }

  lemma ShownIsOccurring(cadence: string, options: Options, zones: Zones, a: Asked, t: int)
    requires Reads(cadence, options, zones, a)
    ensures ShownAt(cadence, a, t) <==> Occurs(cadence, options, a.offset, t)
  {
    hide NumberOption, ZoneOffset, DayOfMonth;
  }

  /** The next run answers the options: it exists exactly for a known cadence and numbers
      in range, and is the earliest instant strictly after now at which the local clock
      of the zone asked for shows what was asked for, at most 1, 7 or 31 days away. */
  lemma NextRunAnswersOptions(now: int, cadence: string, options: Options, zones: Zones, a: Asked)
    requires Asks(cadence, options, zones, a)
    ensures NextRun(now, cadence, options, zones).Ok? <==>
              (cadence == "daily" || cadence == "weekly" || cadence == "monthly") && InRange(cadence, a)
    ensures NextRun(now, cadence, options, zones).Ok? ==>
              var r := NextRun(now, cadence, options, zones).value;
              var days := if cadence == "daily" then 1 else if cadence == "weekly" then 7 else 31;
              && now < r <= now + days * 86_400_000_000_000
              && ShownAt(cadence, a, r)
              && forall t :: now < t && ShownAt(cadence, a, t) ==> r <= t
  {
    hide NumberOption, ZoneOffset, DayOfMonth, Given, InZone, NextRun, Occurs, ShownAt;
    AskedIsRead(cadence, options, zones, a);
    assert InRange(cadence, a) <==> ValidOptions(cadence, options);
    NextRunFails(now, cadence, options, zones);
    if NextRun(now, cadence, options, zones).Ok? {
      NextRunIsEarliest(now, cadence, options, zones);
      ShownIsOccurring(cadence, options, zones, a, NextRun(now, cadence, options, zones).value);
      forall t
        ensures ShownAt(cadence, a, t) <==> Occurs(cadence, options, a.offset, t)
      {
        ShownIsOccurring(cadence, options, zones, a, t);
      }
    }
  }

  /** Options that ask for nothing, words for a number or an unknown zone, are refused. */
  lemma UnreadableOptionsAreRefused(now: int, cadence: string, options: Options, zones: Zones)
    requires forall a :: !Asks(cadence, options, zones, a)
    ensures NextRun(now, cadence, options, zones) == Err(BadOptions)
  {
    ReadIsGiven(options, "hour", 9);
    ReadIsGiven(options, "minute", 0);
    ReadIsGiven(options, "weekday", 1);
    ReadIsGiven(options, "day", 1);
    if ValidOptions(cadence, options) && ZoneOffset(options, zones).Some? {
      var a := Asked(Hour(options), Minute(options), WeekdayOption(options), DayOption(options),
                     ZoneOffset(options, zones).value);
      hide NumberOption, Given;
      assert !Asks(cadence, options, zones, a);
    }
    hide DailyRun, WeeklyRun, MonthlyRun;
  }

  /** At ten in the morning a daily schedule for hour 14, a JSON number, next runs at two
      in the afternoon of the same day; without an hour, at nine the day after. */
  lemma TwoInTheAfternoon(zones: Zones)
    ensures NextRun(36_000_000_000_000, "daily", map["hour" := Float(14.0)], zones) == Ok(50_400_000_000_000)
    ensures NextRun(36_000_000_000_000, "daily", map[], zones) == Ok(118_800_000_000_000)
  {
    hide DailyRun;
    DailyRunIs(36_000_000_000_000, 50_400_000_000_000);
    DailyRunIs(36_000_000_000_000, 32_400_000_000_000);
    TruncateIs(14.0, 14);
  }
}
