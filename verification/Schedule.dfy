/**
  Schedule search and occurrences.  A time zone is a function from instants, in integer milliseconds, to local
  civil time.
 */
module Schedule {
  import opened Prelude
  import opened OccurrenceIds

  const MINUTE_MS := 60 * 1000
  const DAY_MINUTES := 24 * 60
  const WEEK_MINUTES := 7 * DAY_MINUTES

  datatype Civil = Civil(year: int, month: nat, day: nat, hour: nat, minute: nat)

  type Zone = int -> Civil

  /** A minute of the day that is not an integer is None. */
  datatype Payload = Payload(minuteOfDay: Option<int>, weekdays: seq<int>)

  datatype Automation = Automation(id: string, revision: int)

  datatype Occurrence = Occurrence(id: string, automationId: string, revision: int, scheduledFor: int,
                                   localDate: string, localTime: string)

  // -------------------------------------------------------------- calendar

  /** Days from 1 January 1970 to a Gregorian date, as the host's UTC dates count them. */
  function DayNumber(year: int, month: int, day: int): int {
    var y := if month <= 2 then year - 1 else year;
    var m := if month <= 2 then month + 9 else month - 3;
    365 * y + y / 4 - y / 100 + y / 400 + (153 * m + 2) / 5 + day - 719469
  }

  /** Sunday is 0. */
  function UtcDay(year: int, month: int, day: int): int {
    (DayNumber(year, month, day) + 4) % 7
  }

  /** Monday is 1 and Sunday is 7. */
  function Weekday(c: Civil): int {
    (UtcDay(c.year, c.month, c.day) + 6) % 7 + 1
  }

  function MinuteOfDay(c: Civil): nat {
    c.hour * 60 + c.minute
  }

  function LocalDate(c: Civil): string {
    Pad(Text(c.year), 4) + ['-'] + Pad(Text(c.month), 2) + ['-'] + Pad(Text(c.day), 2)
  }

  predicate IsLeap(year: int) {
    year % 4 == 0 && (year % 100 != 0 || year % 400 == 0)
  }

  function DaysInMonth(year: int, month: int): int
    requires 1 <= month <= 12
  {
    if month == 2 then (if IsLeap(year) then 29 else 28)
    else if month in {4, 6, 9, 11} then 30 else 31
  }

  /** The calendar's next day has the next number, so weekdays follow each other from Thursday, 1 January 1970. */
  lemma DaysFollowEachOther(year: int, month: int, day: int)
    requires 1 <= month <= 12 && 1 <= day <= DaysInMonth(year, month)
    ensures DayNumber(1970, 1, 1) == 0
    ensures DayNumber(year, month, day) + 1 ==
      if day < DaysInMonth(year, month) then DayNumber(year, month, day + 1)
      else if month < 12 then DayNumber(year, month + 1, 1)
      else DayNumber(year + 1, 1, 1)
  {
    if month == 2 && day == DaysInMonth(year, month) {
      LeapDays(year);
      hide IsLeap;
    }
  }

  /** How many leap days the years before one have more than those before the previous one. */
  lemma LeapDays(year: int)
    ensures year / 4 - year / 100 + year / 400 ==
      (year - 1) / 4 - (year - 1) / 100 + (year - 1) / 400 + if IsLeap(year) then 1 else 0
  {
    Quotients4(year);
    Quotients100(year);
    Quotients400(year);
  }

  lemma Quotients4(year: int)
    ensures year / 4 - (year - 1) / 4 == if year % 4 == 0 then 1 else 0
  {}

  lemma Quotients100(year: int)
    ensures year / 100 - (year - 1) / 100 == if year % 100 == 0 then 1 else 0
    ensures year % 100 == 0 ==> year % 4 == 0
  {
    if year % 100 == 0 {
      assert year == 4 * (25 * (year / 100));
    }
  }

  lemma Quotients400(year: int)
    ensures year / 400 - (year - 1) / 400 == if year % 400 == 0 then 1 else 0
    ensures year % 400 == 0 ==> year % 100 == 0
  {
    if year % 400 == 0 {
      assert year == 100 * (4 * (year / 400));
    }
  }

  // ----------------------------------------------------------------- dates

  datatype Date = Date(year: int, month: nat, day: nat)

  predicate IsDate(d: Date) {
    1 <= d.month <= 12 && 1 <= d.day <= DaysInMonth(d.year, d.month)
  }

  function NumberOfDay(d: Date): int {
    DayNumber(d.year, d.month, d.day)
  }

  function NextDate(d: Date): (next: Date)
    requires IsDate(d)
    ensures IsDate(next) && NumberOfDay(next) == NumberOfDay(d) + 1
  {
    DaysFollowEachOther(d.year, d.month, d.day);
    hide DayNumber;
    if d.day < DaysInMonth(d.year, d.month) then Date(d.year, d.month, d.day + 1)
    else if d.month < 12 then Date(d.year, d.month + 1, 1)
    else Date(d.year + 1, 1, 1)
  }

  function DateBefore(d: Date): (before: Date)
    requires IsDate(d)
    ensures IsDate(before) && NextDate(before) == d
  {
    if d.day > 1 then Date(d.year, d.month, d.day - 1)
    else if d.month > 1 then Date(d.year, d.month - 1, DaysInMonth(d.year, d.month - 1))
    else Date(d.year - 1, 12, 31)
  }

  /** The calendar's date of a day, counted from 1 January 1970. */
  function DateOf(day: int): (d: Date)
    ensures IsDate(d) && NumberOfDay(d) == day
    decreases if day < 0 then -day else day
  {
    hide IsDate, DateBefore, NextDate;
    if day == 0 then FirstDate()
    else if day > 0 then NextDate(DateOf(day - 1))
    else DateBefore(DateOf(day + 1))
  }

  function FirstDate(): (d: Date)
    ensures IsDate(d) && NumberOfDay(d) == 0
  {
    Date(1970, 1, 1)
  }

  lemma MonthsFollowEachOther(year: int, month: int)
    requires 1 <= month <= 12
    ensures DayNumber(year, month, 1) + DaysInMonth(year, month) ==
      if month < 12 then DayNumber(year, month + 1, 1) else DayNumber(year + 1, 1, 1)
  {
    DaysFollowEachOther(year, month, DaysInMonth(year, month));
  }

  lemma {:induction false} MonthsAscend(year: int, month: int, later: int)
    requires 1 <= month < later <= 12
    ensures DayNumber(year, month, 1) + DaysInMonth(year, month) <= DayNumber(year, later, 1)
    decreases later - month
  {
    hide DayNumber;
    MonthsFollowEachOther(year, month);
    if month + 1 < later {
      MonthsAscend(year, month + 1, later);
    }
  }

  lemma YearContains(d: Date)
    requires IsDate(d)
    ensures DayNumber(d.year, 1, 1) <= NumberOfDay(d) < DayNumber(d.year + 1, 1, 1)
  {
    DayInMonth(d);
    hide DayNumber, NumberOfDay;
    if d.month > 1 {
      MonthsAscend(d.year, 1, d.month);
    }
    if d.month < 12 {
      MonthsAscend(d.year, d.month, 12);
    }
    MonthsFollowEachOther(d.year, 12);
  }

  lemma DayInMonth(d: Date)
    ensures NumberOfDay(d) == DayNumber(d.year, d.month, 1) + d.day - 1
  {}

  lemma {:induction false} YearsAscend(year: int, later: int)
    requires year <= later
    ensures DayNumber(year, 1, 1) <= DayNumber(later, 1, 1)
    decreases later - year
  {
    hide DayNumber;
    if year < later {
      YearContains(Date(year, 1, 1));
      YearsAscend(year + 1, later);
    }
  }

  /** A date comes before another exactly as its number does. */
  lemma DatesAscend(d: Date, e: Date)
    requires IsDate(d) && IsDate(e)
    requires d.year < e.year || (d.year == e.year && d.month < e.month) ||
      (d.year == e.year && d.month == e.month && d.day < e.day)
    ensures NumberOfDay(d) < NumberOfDay(e)
  {
    DayInMonth(d);
    DayInMonth(e);
    hide DayNumber, NumberOfDay;
    if d.year < e.year {
      YearContains(d);
      YearContains(e);
      YearsAscend(d.year + 1, e.year);
    } else if d.month < e.month {
      MonthsAscend(d.year, d.month, e.month);
    }
  }

  /** A day has one date. */
  lemma NumbersAreInjective(d: Date, e: Date)
    requires IsDate(d) && IsDate(e) && NumberOfDay(d) == NumberOfDay(e)
    ensures d == e
  {
    hide NumberOfDay, IsDate;
    if d != e {
      if d.year < e.year || (d.year == e.year && d.month < e.month) ||
        (d.year == e.year && d.month == e.month && d.day < e.day) {
        DatesAscend(d, e);
      } else {
        DatesAscend(e, d);
      }
    }
  }

  // ---------------------------------------------------------------- search

  predicate Matches(payload: Payload, zone: Zone, at: int) {
    payload.minuteOfDay == Some(MinuteOfDay(zone(at))) && Weekday(zone(at)) in payload.weekdays
  }

  /** `at` is the first whole number of minutes after `base` that matches. */
  ghost predicate FirstMatch(payload: Payload, zone: Zone, base: int, at: int) {
    && Matches(payload, zone, at)
    && exists k :: k >= 1 && at == base + k * MINUTE_MS && forall j | 1 <= j < k ::
         !Matches(payload, zone, base + j * MINUTE_MS)
  }

  /** An invalid date is None. */
  method NextRunAt(payload: Payload, zone: Zone, from: Option<int>, horizonDays: int) returns (run: Option<int>)
    ensures run.Some? ==>
      && from.Some? && from.value < run.value <= from.value + horizonDays * DAY_MINUTES * MINUTE_MS
      && FirstMatch(payload, zone, from.value, run.value)
    ensures run.None? && from.Some? ==>
      forall k | 1 <= k <= horizonDays * DAY_MINUTES :: !Matches(payload, zone, from.value + k * MINUTE_MS)
  {
    hide Weekday, MinuteOfDay;
    if from.None? {
      return None;
    }
    var base := from.value;
    if payload.minuteOfDay.None? {
      return None;
    }
    var minute := payload.minuteOfDay.value;
    var offset := 0;
    while offset <= horizonDays * DAY_MINUTES
      invariant offset >= 0
      invariant forall k | 1 <= k < offset :: !Matches(payload, zone, base + k * MINUTE_MS)
    {
      var candidate := base + offset * MINUTE_MS;
      var parts := zone(candidate);
      if Weekday(parts) in payload.weekdays && MinuteOfDay(parts) == minute && candidate > base {
        return Some(candidate);
      }
      offset := offset + 1;
    }
    return None;
  }

  /** Local minutes since the local start of 1970. */
  function LocalMinute(c: Civil): int {
    DayNumber(c.year, c.month, c.day) * DAY_MINUTES + MinuteOfDay(c)
  }

  predicate IsTime(c: Civil) {
    c.hour < 24 && c.minute < 60
  }

  /** Local time is a constant number of milliseconds ahead. */
  ghost predicate FixedOffset(zone: Zone, ahead: int) {
    forall t :: IsTime(zone(t)) && LocalMinute(zone(t)) == (t + ahead) / MINUTE_MS
  }

  /** The calendar's civil time of a local minute. */
  function CivilOf(minute: int): Civil {
    var d := DateOf(minute / DAY_MINUTES);
    Civil(d.year, d.month, d.day, minute % DAY_MINUTES / 60, minute % DAY_MINUTES % 60)
  }

  /** The zone that is ahead of UTC by a constant number of milliseconds. */
  function ZoneAhead(ahead: int): Zone {
    t => CivilOf((t + ahead) / MINUTE_MS)
  }

  /** Every civil time is a date of the calendar. */
  ghost predicate RealDates(zone: Zone) {
    forall t :: IsDate(DateIn(zone(t)))
  }

  function DateIn(c: Civil): Date {
    Date(c.year, c.month, c.day)
  }

  lemma CivilOfMinute(minute: int)
    ensures var c := CivilOf(minute); IsTime(c) && LocalMinute(c) == minute && IsDate(DateIn(c))
  {
    hide DayNumber, DateOf, IsDate;
    var d := DateOf(minute / DAY_MINUTES);
    assert NumberOfDay(d) == DayNumber(d.year, d.month, d.day);
  }

  /** There is a zone for every fixed offset. */
  lemma ZoneAheadIsFixed(ahead: int)
    ensures FixedOffset(ZoneAhead(ahead), ahead) && RealDates(ZoneAhead(ahead))
  {
    hide CivilOf, LocalMinute, IsDate, IsTime;
    forall t ensures var c := ZoneAhead(ahead)(t);
      IsTime(c) && LocalMinute(c) == (t + ahead) / MINUTE_MS && IsDate(DateIn(c))
    {
      CivilOfMinute((t + ahead) / MINUTE_MS);
    }
  }

  /** A local minute has one civil time. */
  lemma MinutesAreInjective(c: Civil, d: Civil)
    requires IsTime(c) && IsTime(d) && IsDate(DateIn(c)) && IsDate(DateIn(d)) && LocalMinute(c) == LocalMinute(d)
    ensures c == d
  {
    TimeIsInDay(c);
    TimeIsInDay(d);
    assert NumberOfDay(DateIn(c)) == DayNumber(c.year, c.month, c.day);
    assert NumberOfDay(DateIn(d)) == DayNumber(d.year, d.month, d.day);
    hide DayNumber, IsDate, NumberOfDay;
    DayAndMinute(DayNumber(c.year, c.month, c.day), MinuteOfDay(c));
    DayAndMinute(DayNumber(d.year, d.month, d.day), MinuteOfDay(d));
    NumbersAreInjective(DateIn(c), DateIn(d));
  }

  /** A minute of some day and some weekday exist for the schedule. */
  predicate IsPossible(payload: Payload) {
    && payload.minuteOfDay.Some? && 0 <= payload.minuteOfDay.value < DAY_MINUTES
    && exists w :: 1 <= w <= 7 && w in payload.weekdays
  }

  /** The parts of a schedule, read off the number of a local minute. */
  predicate MinuteMatches(payload: Payload, minute: int) {
    payload.minuteOfDay == Some(minute % DAY_MINUTES) && (minute / DAY_MINUTES + 3) % 7 + 1 in payload.weekdays
  }

  lemma MatchesByMinute(payload: Payload, zone: Zone, at: int)
    requires IsTime(zone(at))
    ensures Matches(payload, zone, at) <==> MinuteMatches(payload, LocalMinute(zone(at)))
    ensures Matches(payload, zone, at) ==> IsPossible(payload)
  {
    var c := zone(at);
    var day, minute := DayNumber(c.year, c.month, c.day), MinuteOfDay(c);
    hide DayNumber, MinuteOfDay;
    assert minute < DAY_MINUTES by { assert MinuteOfDay(c) < 24 * 60 by { TimeIsInDay(c); } }
    DayAndMinute(day, minute);
    assert Weekday(c) == (day + 3) % 7 + 1;
  }

  lemma TimeIsInDay(c: Civil)
    requires IsTime(c)
    ensures MinuteOfDay(c) < DAY_MINUTES
  {}

  lemma DayAndMinute(day: int, minute: int)
    requires 0 <= minute < DAY_MINUTES
    ensures (day * DAY_MINUTES + minute) / DAY_MINUTES == day && (day * DAY_MINUTES + minute) % DAY_MINUTES == minute
  {}

  /** In a zone with a fixed offset, minutes of the clock are minutes of local time. */
  lemma MinutesAdvance(zone: Zone, ahead: int, base: int, k: int)
    requires FixedOffset(zone, ahead)
    ensures IsTime(zone(base + k * MINUTE_MS))
    ensures LocalMinute(zone(base + k * MINUTE_MS)) == LocalMinute(zone(base)) + k
  {
    hide LocalMinute;
    assert (base + k * MINUTE_MS + ahead) / MINUTE_MS == (base + ahead) / MINUTE_MS + k;
  }

  /** Some minute of the next week matches a possible schedule. */
  lemma WeekHasMatch(payload: Payload, minute: int) returns (k: int)
    requires IsPossible(payload)
    ensures 1 <= k <= WEEK_MINUTES && MinuteMatches(payload, minute + k)
  {
    var w :| 1 <= w <= 7 && w in payload.weekdays;
    var m := payload.minuteOfDay.value;
    var target := (w - 4) * DAY_MINUTES + m;
    k := (target - minute - 1) % WEEK_MINUTES + 1;
    var weeks := (target - minute - 1) / WEEK_MINUTES;
    assert minute + k == (w - 4 - 7 * weeks) * DAY_MINUTES + m;
    DayAndMinute(w - 4 - 7 * weeks, m);
  }

  /**
    With a fixed offset a schedule has a next run exactly when it is possible at all, and then within a week of
    any instant.
   */
  lemma NextRunExists(payload: Payload, zone: Zone, ahead: int, base: int)
    requires FixedOffset(zone, ahead)
    ensures IsPossible(payload) <==> exists k :: 1 <= k <= WEEK_MINUTES && Matches(payload, zone, base + k * MINUTE_MS)
  {
    hide Matches, MinuteMatches, IsPossible, LocalMinute;
    if IsPossible(payload) {
      var k := WeekHasMatch(payload, LocalMinute(zone(base)));
      MinutesAdvance(zone, ahead, base, k);
      MatchesByMinute(payload, zone, base + k * MINUTE_MS);
    }
    if exists k :: 1 <= k <= WEEK_MINUTES && Matches(payload, zone, base + k * MINUTE_MS) {
      var k :| 1 <= k <= WEEK_MINUTES && Matches(payload, zone, base + k * MINUTE_MS);
      MatchesByMinute(payload, zone, base + k * MINUTE_MS);
    }
  }

  /** No instant that matches in a later local minute than the starting point is passed over. */
  lemma NothingIsSkipped(payload: Payload, zone: Zone, ahead: int, base: int, run: int, other: int)
    requires FixedOffset(zone, ahead) && FirstMatch(payload, zone, base, run)
    requires Matches(payload, zone, other) && LocalMinute(zone(base)) < LocalMinute(zone(other))
    ensures LocalMinute(zone(run)) <= LocalMinute(zone(other))
  {
    hide Matches, LocalMinute, MinuteMatches, IsPossible;
    var k :| k >= 1 && run == base + k * MINUTE_MS && forall j | 1 <= j < k ::
      !Matches(payload, zone, base + j * MINUTE_MS);
    var j := LocalMinute(zone(other)) - LocalMinute(zone(base));
    MinutesAdvance(zone, ahead, base, k);
    MinutesAdvance(zone, ahead, base, j);
    MatchesByMinute(payload, zone, other);
    MatchesByMinute(payload, zone, base + j * MINUTE_MS);
  }

  /** The run after a run comes one to seven whole days later: exactly seven if the schedule has one weekday. */
  lemma RunsAreDaysApart(payload: Payload, zone: Zone, ahead: int, run: int, next: int)
    requires FixedOffset(zone, ahead) && Matches(payload, zone, run) && FirstMatch(payload, zone, run, next)
    ensures exists days :: 1 <= days <= 7 && next - run == days * DAY_MINUTES * MINUTE_MS
    ensures (forall w, v | w in payload.weekdays && v in payload.weekdays && 1 <= w <= 7 && 1 <= v <= 7 :: w == v) ==>
      next - run == WEEK_MINUTES * MINUTE_MS
  {
    hide Matches, LocalMinute, IsPossible, MinuteMatches;
    var k :| k >= 1 && next == run + k * MINUTE_MS && forall j | 1 <= j < k ::
      !Matches(payload, zone, run + j * MINUTE_MS);
    var m := LocalMinute(zone(run));
    MinutesAdvance(zone, ahead, run, k);
    MatchesByMinute(payload, zone, run);
    MatchesByMinute(payload, zone, next);
    WeekLater(payload, m);
    MinutesAdvance(zone, ahead, run, WEEK_MINUTES);
    MatchesByMinute(payload, zone, run + WEEK_MINUTES * MINUTE_MS);
    MatchesAreDaysApart(payload, m, m + k);
  }

  lemma WeekLater(payload: Payload, minute: int)
    requires MinuteMatches(payload, minute)
    ensures MinuteMatches(payload, minute + WEEK_MINUTES)
  {
    DayAndMinute(minute / DAY_MINUTES + 7, minute % DAY_MINUTES);
  }

  /** Matching minutes are whole days apart, and whole weeks if they cannot but fall on the same weekday. */
  lemma MatchesAreDaysApart(payload: Payload, a: int, b: int)
    requires MinuteMatches(payload, a) && MinuteMatches(payload, b)
    ensures b - a == (b / DAY_MINUTES - a / DAY_MINUTES) * DAY_MINUTES
    ensures (forall w, v | w in payload.weekdays && v in payload.weekdays && 1 <= w <= 7 && 1 <= v <= 7 :: w == v) ==>
      (b - a) % WEEK_MINUTES == 0
  {
    var da, db := b / DAY_MINUTES, a / DAY_MINUTES;
    var days := da - db;
    if (da + 3) % 7 == (db + 3) % 7 {
      assert days == 7 * (days / 7);
      assert b - a == WEEK_MINUTES * (days / 7);
    }
  }

  // ------------------------------------------------------------ occurrences

  function ScheduledOccurrence(automation: Automation, payload: Payload, zone: Zone, at: int): Option<Occurrence> {
    if !Matches(payload, zone, at) then None
    else
      var minute := payload.minuteOfDay.value;
      Some(Occurrence(OccurrenceId(automation.id, automation.revision, LocalDate(zone(at)), minute),
                      automation.id, automation.revision, at, LocalDate(zone(at)),
                        Hour(minute) + [':'] + Minute(minute)))
  }

  lemma DatesAreInjective(c: Civil, d: Civil)
    ensures LocalDate(c) == LocalDate(d) <==> c.year == d.year && c.month == d.month && c.day == d.day
    ensures ':' !in LocalDate(c)
  {
    NumbersHaveNoSeparators(c);
    NumbersHaveNoSeparators(d);
    hide Pad, Text, NumberOf;
    if LocalDate(c) == LocalDate(d) {
      LastSeparator(Pad(Text(c.year), 4) + ['-'] + Pad(Text(c.month), 2), Pad(Text(c.day), 2),
                    Pad(Text(d.year), 4) + ['-'] + Pad(Text(d.month), 2), Pad(Text(d.day), 2), '-');
      LastSeparator(Pad(Text(c.year), 4), Pad(Text(c.month), 2), Pad(Text(d.year), 4), Pad(Text(d.month), 2), '-');
      PaddedIsInjective(c.year, d.year, 4);
    }
  }

  lemma NumbersHaveNoSeparators(c: Civil)
    ensures NumberOf(Pad(Text(c.month), 2)) == c.month && NumberOf(Pad(Text(c.day), 2)) == c.day
    ensures forall s | s in {Pad(Text(c.month), 2), Pad(Text(c.day), 2)} :: '-' !in s && ':' !in s
    ensures ':' !in Pad(Text(c.year), 4)
  {
    TextStandsForNumber(c.month, 2);
    TextStandsForNumber(c.day, 2);
    TextStandsForNumber(c.year, 0);
    var zeros := PaddingIsInFront(Text(c.year), 4);
  }

  /** Occurrences share an identifier exactly when automation, revision and local minute are the same, in any zones. */
  lemma OneOccurrencePerMinute(a: Automation, p: Payload, zone: Zone, at: int, a': Automation, p': Payload,
                               zone': Zone, at': int)
    requires IsTime(zone(at)) && IsTime(zone'(at'))
    requires ScheduledOccurrence(a, p, zone, at).Some? && ScheduledOccurrence(a', p', zone', at').Some?
    ensures ScheduledOccurrence(a, p, zone, at).value.id == ScheduledOccurrence(a', p', zone', at').value.id <==>
      a == a' && zone(at) == zone'(at')
  {
    DatesAreInjective(zone(at), zone'(at'));
    DatesAreInjective(zone'(at'), zone(at));
    hide OccurrenceId;
    IdsAreInjective(a.id, a.revision, LocalDate(zone(at)), p.minuteOfDay.value, a'.id, a'.revision,
                    LocalDate(zone'(at')), p'.minuteOfDay.value);
  }
}
