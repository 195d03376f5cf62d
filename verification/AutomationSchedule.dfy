/**
 * When an automation is due next: a single instant, a grid of intervals, or a wall-clock time on
 * matching days in a time zone.  Instants are whole milliseconds, local times whole minutes.
 */
module AutomationSchedule {
  import opened Wrappers

  // ---------------------------------------------------------------- time zones

  const DAY := 1440

  /**
   * A time zone by what the schedule asks of it.  `utc` gives the first instant at which the local
   * clock reads a minute, `date` the day the clock shows at an instant, and `high` the latest minute
   * the clock has shown up to an instant.
   */
  datatype Zone = Zone(invalid: int -> bool, utc: int -> int, date: int -> int, high: int -> int)

  predicate Reads(z: Zone, minute: int) {
    !z.invalid(minute)
  }

  // Somewhere in the day after `minute` the clock reads something.
  ghost predicate GapEnds(z: Zone, minute: int) {
    exists n :: minute <= n <= minute + DAY && Reads(z, n)
  }

  predicate Reached(z: Zone, minute: int, t: int) {
    z.utc(minute) <= t <==> minute <= z.high(t)
  }

  // The clock never skips more than a day, is never put back by more than reaches the previous day,
  // and has reached a minute by an instant exactly when that minute's first instant has come.
  ghost predicate Regular(z: Zone) {
    && (forall minute :: GapEnds(z, minute))
    && (forall minute, t :: Reads(z, minute) ==> Reached(z, minute, t))
    && (forall t :: Reads(z, z.high(t)))
    && (forall t :: z.date(t) <= z.high(t) / DAY <= z.date(t) + 1)
  }

  // A zone with a fixed offset is regular.
  function FixedZone(offset: int): Zone {
    Zone(_ => false,
         minute => minute * 60000 - offset,
         t => (t + offset) / 60000 / DAY,
         t => (t + offset) / 60000)
  }

  lemma FixedZoneIsRegular(offset: int)
    ensures Regular(FixedZone(offset))
  {
    var z := FixedZone(offset);
    forall minute
      ensures GapEnds(z, minute)
    {
      assert Reads(z, minute);
    }
  }

  function MinuteAt(offset: int, t: int): int { (t + offset) / 60000 }

  // A zone whose clock is put forward by `shift` minutes when it would read `at`.
  function SkippingZone(offset: int, at: int, shift: int): Zone {
    var clock := (t: int) => var l := MinuteAt(offset, t); if l < at then l else l + shift;
    Zone(minute => at <= minute < at + shift,
         minute => (if minute < at then minute else minute - shift) * 60000 - offset,
         t => clock(t) / DAY,
         clock)
  }

  lemma SkippingZoneIsRegular(offset: int, at: int, shift: int)
    requires 1 <= shift <= DAY
    ensures Regular(SkippingZone(offset, at, shift))
  {
    var z := SkippingZone(offset, at, shift);
    forall minute
      ensures GapEnds(z, minute)
    {
      assert Reads(z, if at <= minute < at + shift then at + shift else minute);
    }
  }

  // A zone whose clock is put back by `shift` minutes when it would read `at`: the minutes before are read
  // twice, and the latest minute read stays where it was until the clock has caught up.
  function RepeatingZone(offset: int, at: int, shift: int): Zone {
    Zone(_ => false,
         minute => (if minute < at then minute else minute + shift) * 60000 - offset,
         t => (var l := MinuteAt(offset, t); if l < at then l else l - shift) / DAY,
         t => var l := MinuteAt(offset, t); if l < at then l else if l - shift < at then at - 1 else l - shift)
  }

  lemma RepeatingZoneIsRegular(offset: int, at: int, shift: int)
    requires 1 <= shift <= DAY
    ensures Regular(RepeatingZone(offset, at, shift))
  {
    var z := RepeatingZone(offset, at, shift);
    forall minute
      ensures GapEnds(z, minute)
    {
      assert Reads(z, minute);
    }
  }

  // The wall-clock minute moved forward out of a gap, one minute at a time.
  ghost function OutOfGap(z: Zone, minute: int, within: nat): (r: int)
    requires exists n :: minute <= n <= minute + within && Reads(z, n)
    ensures minute <= r <= minute + within && Reads(z, r)
    ensures forall n :: minute <= n < r ==> !Reads(z, n)
    decreases within
  {
    if Reads(z, minute) then minute else OutOfGap(z, minute + 1, within - 1)
  }

  ghost function Resolved(z: Zone, minute: int): (r: int)
    requires Regular(z)
    ensures minute <= r <= minute + DAY && Reads(z, r)
    ensures forall n :: minute <= n < r ==> !Reads(z, n)
  {
    assert GapEnds(z, minute);
    OutOfGap(z, minute, DAY)
  }

  lemma UtcIsMonotone(z: Zone, early: int, late: int)
    requires Regular(z) && Reads(z, early) && Reads(z, late) && early <= late
    ensures z.utc(early) <= z.utc(late)
  {
    var t := z.utc(late);
    assert Reached(z, late, t);
    assert Reached(z, early, t);
  }

  lemma ResolvedIsMonotone(z: Zone, early: int, late: int)
    requires Regular(z) && early <= late
    ensures Resolved(z, early) <= Resolved(z, late)
  {
  }

  // ---------------------------------------------------------------- schedules

  datatype Schedule = Schedule(
    kind: string,
    at: Option<int>,
    everyMs: Option<int>,
    hour: Option<int>,
    minute: Option<int>,
    timeZone: Option<string>,
    days: Option<seq<int>>
  )

  datatype Occurrence = At(instant: int) | Never | Fault(code: string)

  const MAX_INTERVAL := 315576000000

  predicate Calendar(s: Schedule) {
    s.kind == "daily" || s.kind == "weekdays" || s.kind == "weekly"
  }

  // The first complaint about a schedule, if there is one.
  function Validate(s: Schedule, zones: map<string, Zone>): (complaint: Option<string>) {
    if s.kind == "at" then
      if s.at.None? then Some("automation.schedule.atRequired") else None
    else if s.kind == "every" then
      if s.everyMs.None? || !(0 < s.everyMs.value <= MAX_INTERVAL) then Some("automation.schedule.invalidInterval")
      else None
    else if !Calendar(s) then Some("automation.schedule.invalidKind")
    else if s.hour.None? || !(0 <= s.hour.value <= 23) || s.minute.None? || !(0 <= s.minute.value <= 59) then
      Some("automation.schedule.invalidTime")
    else if s.timeZone.None? || Blank(s.timeZone.value) then Some("automation.schedule.timeZoneRequired")
    else if s.timeZone.value !in zones then Some("automation.schedule.invalidTimeZone")
    else if s.kind == "weekly"
            && (s.days.None? || s.days.value == [] || exists d :: d in s.days.value && (d < 1 || d > 7)) then
      Some("automation.schedule.daysRequired")
    else None
  }

  // ISO weekday of a day counted from a Monday.
  function Weekday(date: int): (day: int)
    ensures 1 <= day <= 7
  {
    date % 7 + 1
  }

  predicate OnDay(s: Schedule, date: int) {
    !(s.kind == "weekdays" && Weekday(date) > 5) &&
    !(s.kind == "weekly" && (s.days.None? || Weekday(date) !in s.days.value))
  }

  function WallClock(s: Schedule, date: int): int
    requires s.hour.Some? && s.minute.Some?
  {
    date * DAY + s.hour.value * 60 + s.minute.value
  }

  // The instant a calendar schedule names on one day.
  ghost function Candidate(s: Schedule, z: Zone, date: int): int
    requires Regular(z) && s.hour.Some? && s.minute.Some?
  {
    z.utc(Resolved(z, WallClock(s, date)))
  }

  // ---------------------------------------------------------------- intervals

  function EveryNext(basis: int, interval: int, after: int): int
    requires interval > 0
  {
    var steps := (after - basis) / interval + 1;
    basis + (if steps > 1 then steps else 1) * interval
  }

  predicate OnGrid(basis: int, interval: int, t: int, k: int) {
    k >= 1 && t == basis + k * interval
  }

  lemma QuotientBounds(d: int, n: int)
    requires n > 0
    ensures d / n * n <= d < (d / n + 1) * n
  {
  }

  lemma Scaled(a: int, b: int, n: int)
    requires n > 0 && a <= b
    ensures a * n <= b * n
  {
  }

  // The least grid point past `after`, among all of them.
  lemma EveryNextIsLeast(basis: int, interval: int, after: int)
    requires interval > 0
    ensures EveryNext(basis, interval, after) > after
    ensures exists k :: OnGrid(basis, interval, EveryNext(basis, interval, after), k)
    ensures forall t, k :: OnGrid(basis, interval, t, k) && t > after ==> EveryNext(basis, interval, after) <= t
  {
    var q := (after - basis) / interval;
    QuotientBounds(after - basis, interval);
    var steps := if q + 1 > 1 then q + 1 else 1;
    assert OnGrid(basis, interval, EveryNext(basis, interval, after), steps);
    Scaled(q + 1, steps, interval);
    forall t, k | OnGrid(basis, interval, t, k) && t > after
      ensures EveryNext(basis, interval, after) <= t
    {
      if k < steps {
        Scaled(k, q, interval);
      } else {
        Scaled(steps, k, interval);
      }
    }
  }

  // ---------------------------------------------------------------- the calendar search

  const SEARCH_DAYS := 370

  ghost predicate Hit(s: Schedule, z: Zone, after: int, date: int)
    requires Regular(z) && s.hour.Some? && s.minute.Some?
  {
    OnDay(s, date) && Candidate(s, z, date) > after
  }

  // The first of the days from `date` on, up to the end of the search, whose candidate is past `after`.
  ghost function Search(s: Schedule, z: Zone, after: int, date: int, left: nat): (r: Occurrence)
    requires Regular(z) && s.hour.Some? && s.minute.Some?
    decreases left
  {
    if left == 0 then Fault("automation.schedule.noOccurrence")
    else if Hit(s, z, after, date) then At(Candidate(s, z, date))
    else Search(s, z, after, date + 1, left - 1)
  }

  lemma {:induction false} SearchFindsFirst(s: Schedule, z: Zone, after: int, date: int, left: nat, hit: int)
    requires Regular(z) && s.hour.Some? && s.minute.Some?
    requires date <= hit < date + left && Hit(s, z, after, hit)
    requires forall d :: date <= d < hit ==> !Hit(s, z, after, d)
    ensures Search(s, z, after, date, left) == At(Candidate(s, z, hit))
    decreases left
  {
    if date < hit {
      SearchFindsFirst(s, z, after, date + 1, left - 1, hit);
    }
  }

  predicate Timed(s: Schedule) {
    s.hour.Some? && s.minute.Some? && 0 <= s.hour.value <= 23 && 0 <= s.minute.value <= 59
  }

  // Days before the one the clock shows are over: their candidates are not past `after`.
  lemma PastDaysArePast(s: Schedule, z: Zone, after: int, date: int)
    requires Regular(z) && Timed(s)
    requires date < z.date(after)
    ensures Candidate(s, z, date) <= after
  {
    var minute := WallClock(s, date);
    var now := z.high(after);
    assert z.date(after) <= now / DAY;
    assert Reads(z, now);
    assert Reached(z, Resolved(z, minute), after);
  }

  // From the day after tomorrow on, candidates are past `after`.
  lemma LaterDaysAreLater(s: Schedule, z: Zone, after: int, date: int)
    requires Regular(z) && Timed(s)
    requires date >= z.date(after) + 2
    ensures Candidate(s, z, date) > after
  {
    var minute := Resolved(z, WallClock(s, date));
    assert z.high(after) / DAY <= z.date(after) + 1;
    assert Reached(z, minute, after);
  }

  predicate HasDays(s: Schedule) {
    s.kind == "weekly" ==> s.days.Some? && s.days.value != [] && 1 <= s.days.value[0] <= 7
  }

  lemma ValidCalendar(s: Schedule, zones: map<string, Zone>)
    requires Calendar(s) && Validate(s, zones).None?
    ensures Timed(s) && HasDays(s) && s.timeZone.Some? && s.timeZone.value in zones
  {
    if s.kind == "weekly" {
      assert s.days.value[0] in s.days.value;
    }
  }

  lemma WeekHasDay(date: int, day: int) returns (offset: int)
    requires 1 <= day <= 7
    ensures 0 <= offset < 7 && Weekday(date + offset) == day
  {
    offset := (day - Weekday(date)) % 7;
  }

  // Every week holds a matching day.
  lemma WeekHasMatch(s: Schedule, date: int) returns (offset: int)
    requires HasDays(s)
    ensures 0 <= offset < 7 && OnDay(s, date + offset)
  {
    var day := if s.kind == "weekly" then s.days.value[0] else 1;
    if s.kind == "weekly" {
      assert day in s.days.value;
    }
    offset := WeekHasDay(date, day);
  }

  lemma {:induction false} FirstHit(s: Schedule, z: Zone, after: int, start: int, known: int) returns (hit: int)
    requires Regular(z) && s.hour.Some? && s.minute.Some? && start <= known && Hit(s, z, after, known)
    ensures start <= hit <= known && Hit(s, z, after, hit)
    ensures forall d :: start <= d < hit ==> !Hit(s, z, after, d)
    decreases known - start
  {
    if Hit(s, z, after, start) {
      hit := start;
    } else {
      hit := FirstHit(s, z, after, start + 1, known);
    }
  }

  lemma LateHit(s: Schedule, z: Zone, after: int) returns (known: int)
    requires Regular(z) && Timed(s) && HasDays(s)
    ensures z.date(after) + 2 <= known <= z.date(after) + 8 && Hit(s, z, after, known)
  {
    var offset := WeekHasMatch(s, z.date(after) + 2);
    known := z.date(after) + 2 + offset;
    LaterDaysAreLater(s, z, after, known);
  }

  // Some day is a hit, no later than eight days after the day the clock shows.
  lemma HitWithinNineDays(s: Schedule, z: Zone, after: int) returns (hit: int)
    requires Regular(z) && Timed(s) && HasDays(s)
    ensures z.date(after) <= hit <= z.date(after) + 8 && Hit(s, z, after, hit)
    ensures forall d :: z.date(after) <= d < hit ==> !Hit(s, z, after, d)
  {
    var known := LateHit(s, z, after);
    hit := FirstHit(s, z, after, z.date(after), known);
  }

  lemma CandidateIsMonotone(s: Schedule, z: Zone, early: int, late: int)
    requires Regular(z) && s.hour.Some? && s.minute.Some? && early <= late
    ensures Candidate(s, z, early) <= Candidate(s, z, late)
  {
    assert WallClock(s, early) <= WallClock(s, late);
    ResolvedIsMonotone(z, WallClock(s, early), WallClock(s, late));
    UtcIsMonotone(z, Resolved(z, WallClock(s, early)), Resolved(z, WallClock(s, late)));
  }

  // The bounded search never falls through, and what it finds is the earliest of all matching days'
  // instants past `after`, past days and days beyond the search included.
  lemma SearchIsEarliest(s: Schedule, z: Zone, after: int)
    requires Regular(z) && Timed(s) && HasDays(s)
    ensures Search(s, z, after, z.date(after), SEARCH_DAYS).At?
    ensures Search(s, z, after, z.date(after), SEARCH_DAYS).instant > after
    ensures exists date ::
              OnDay(s, date) && Candidate(s, z, date) == Search(s, z, after, z.date(after), SEARCH_DAYS).instant
    ensures forall date :: OnDay(s, date) && Candidate(s, z, date) > after ==>
              Search(s, z, after, z.date(after), SEARCH_DAYS).instant <= Candidate(s, z, date)
  {
    var hit := HitWithinNineDays(s, z, after);
    SearchFindsFirst(s, z, after, z.date(after), SEARCH_DAYS, hit);
    forall date | OnDay(s, date) && Candidate(s, z, date) > after
      ensures Candidate(s, z, hit) <= Candidate(s, z, date)
    {
      if date < z.date(after) {
        PastDaysArePast(s, z, after, date);
      } else if date < hit {
        assert Hit(s, z, after, date);
      } else {
        CandidateIsMonotone(s, z, hit, date);
      }
    }
  }

  // The search as the code runs it: a day at a time, and a minute at a time out of a gap.
  method SearchCalendar(s: Schedule, z: Zone, after: int) returns (r: Occurrence)
    requires Regular(z) && s.hour.Some? && s.minute.Some?
    ensures r == Search(s, z, after, z.date(after), SEARCH_DAYS)
  {
    var start := z.date(after);
    for offset := 0 to SEARCH_DAYS
      invariant Search(s, z, after, start, SEARCH_DAYS) == Search(s, z, after, start + offset, SEARCH_DAYS - offset)
    {
      var date := start + offset;
      if OnDay(s, date) {
        var local := WallClock(s, date);
        ghost var wall := local;
        while z.invalid(local)
          invariant wall <= local <= Resolved(z, wall)
          invariant Resolved(z, local) == Resolved(z, wall)
          decreases Resolved(z, wall) - local
        {
          local := local + 1;
        }
        var utc := z.utc(local);
        if utc > after {
          return At(utc);
        }
      }
    }
    r := Fault("automation.schedule.noOccurrence");
  }

  // ---------------------------------------------------------------- next

  ghost predicate AllRegular(zones: map<string, Zone>) {
    forall name :: name in zones ==> Regular(zones[name])
  }

  ghost function Next(s: Schedule, zones: map<string, Zone>, after: int, previous: Option<int>): Occurrence
    requires AllRegular(zones)
  {
    var complaint := Validate(s, zones);
    if complaint.Some? then Fault(complaint.value)
    else if s.kind == "at" then (if s.at.value > after then At(s.at.value) else Never)
    else if s.kind == "every" then
      At(EveryNext(if previous.Some? then previous.value else after, s.everyMs.value, after))
    else
      var z := zones[s.timeZone.value];
      Search(s, z, after, z.date(after), SEARCH_DAYS)
  }

  // A valid schedule always answers, and never with an instant that is not past `after`.
  lemma NextIsLater(s: Schedule, zones: map<string, Zone>, after: int, previous: Option<int>)
    requires AllRegular(zones)
    ensures Next(s, zones, after, previous).Fault? <==> Validate(s, zones).Some?
    ensures Next(s, zones, after, previous).At? ==> Next(s, zones, after, previous).instant > after
    ensures Next(s, zones, after, previous).Never? ==> s.kind == "at" && s.at.value <= after
  {
    if Validate(s, zones).None? {
      if s.kind == "every" {
        EveryNextIsLeast(if previous.Some? then previous.value else after, s.everyMs.value, after);
      } else if Calendar(s) {
        ValidCalendar(s, zones);
        SearchIsEarliest(s, zones[s.timeZone.value], after);
      }
    }
  }

  method ComputeNext(s: Schedule, zones: map<string, Zone>, after: int, previous: Option<int>) returns (r: Occurrence)
    requires AllRegular(zones)
    ensures r == Next(s, zones, after, previous)
  {
    var complaint := Validate(s, zones);
    if complaint.Some? {
      return Fault(complaint.value);
    }
    if s.kind == "at" {
      return if s.at.value > after then At(s.at.value) else Never;
    }
    if s.kind == "every" {
      var basis := if previous.Some? then previous.value else after;
      var steps := (after - basis) / s.everyMs.value + 1;
      return At(basis + (if 1 > steps then 1 else steps) * s.everyMs.value);
    }
    r := SearchCalendar(s, zones[s.timeZone.value], after);
  }

  // ---------------------------------------------------------------- same occurrences

  function DaySet(days: Option<seq<int>>): set<int> {
    if days.None? then {} else set d | d in days.value
  }

  predicate HasSameOccurrences(s: Schedule, other: Schedule) {
    s.kind == other.kind &&
    if s.kind == "at" then s.at == other.at
    else if s.kind == "every" then s.everyMs == other.everyMs
    else if s.kind == "daily" || s.kind == "weekdays" then
      s.hour == other.hour && s.minute == other.minute && s.timeZone == other.timeZone
    else s.kind == "weekly" && s.hour == other.hour && s.minute == other.minute && s.timeZone == other.timeZone
         && DaySet(s.days) == DaySet(other.days)
  }

  lemma SameDays(s: Schedule, other: Schedule, date: int)
    requires HasSameOccurrences(s, other)
    ensures OnDay(s, date) <==> OnDay(other, date)
  {
    if s.kind == "weekly" {
      assert Weekday(date) in DaySet(s.days) <==> Weekday(date) in DaySet(other.days);
    }
  }

  lemma SameHit(s: Schedule, other: Schedule, z: Zone, after: int, date: int)
    requires Regular(z) && s.hour.Some? && s.minute.Some? && other.hour.Some? && other.minute.Some?
    requires HasSameOccurrences(s, other) && Calendar(s)
    ensures Candidate(s, z, date) == Candidate(other, z, date)
            && (Hit(s, z, after, date) <==> Hit(other, z, after, date))
  {
    SameDays(s, other, date);
  }

  lemma {:induction false} SameSearch(s: Schedule, other: Schedule, z: Zone, after: int, date: int, left: nat)
    requires Regular(z) && s.hour.Some? && s.minute.Some? && other.hour.Some? && other.minute.Some?
    requires HasSameOccurrences(s, other) && Calendar(s)
    ensures Search(s, z, after, date, left) == Search(other, z, after, date, left)
    decreases left
  {
    if left > 0 {
      SameHit(s, other, z, after, date);
      SameSearch(s, other, z, after, date + 1, left - 1);
    }
  }

  // Two valid schedules that compare as the same are due at the same instants, whatever the day list
  // looks like; for two one-shot or two interval schedules the comparison is exact.
  lemma SameOccurrencesAgree(s: Schedule, other: Schedule, zones: map<string, Zone>)
    requires AllRegular(zones) && Validate(s, zones).None? && Validate(other, zones).None?
    ensures HasSameOccurrences(s, other) ==>
              forall after, previous :: Next(s, zones, after, previous) == Next(other, zones, after, previous)
    ensures s.kind == other.kind && (s.kind == "at" || s.kind == "every") ==>
              (HasSameOccurrences(s, other) <==>
               forall after, previous :: Next(s, zones, after, previous) == Next(other, zones, after, previous))
  {
    if HasSameOccurrences(s, other) {
      forall after, previous
        ensures Next(s, zones, after, previous) == Next(other, zones, after, previous)
      {
        if Calendar(s) {
          var z := zones[s.timeZone.value];
          SameSearch(s, other, z, after, z.date(after), SEARCH_DAYS);
        }
      }
    } else if s.kind == "at" && other.kind == "at" {
      assert Next(s, zones, s.at.value - 1, None) == At(s.at.value);
      assert Next(other, zones, s.at.value - 1, None) != At(s.at.value);
    } else if s.kind == "every" && other.kind == "every" {
      assert Next(s, zones, 0, None) == At(s.everyMs.value);
      assert Next(other, zones, 0, None) == At(other.everyMs.value);
    }
  }
}
