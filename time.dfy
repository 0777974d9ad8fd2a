/** Local date-times as the clinic uses them (java.time.LocalDateTime without a zone).

    A date is a day number counted from 2025-06-01, the first day of the clinic's
    timetable; the rest of the value are the hour, minute, second and nanosecond
    fields. Equality is field-wise and `Before` is the chronological order, which for
    well-formed values is the lexicographic order of the fields. */
module Time {

  datatype DateTime = DateTime(day: int, hour: int, minute: int, second: int, nano: int)
  {
    /** The ranges LocalDateTime keeps its fields in. */
    predicate WellFormed() {
      0 <= hour < 24 && 0 <= minute < 60 && 0 <= second < 60 && 0 <= nano < 1000000000
    }

    /** LocalDateTime.plusDays: the same clock time `n` days later. */
    function PlusDays(n: int): (r: DateTime)
      ensures r.day == day + n
      ensures r.hour == hour && r.minute == minute && r.second == second && r.nano == nano
    {
      this.(day := day + n)
    }

    /** LocalDateTime.withHour: the same date and minute, second and nanosecond. */
    function WithHour(h: int): (r: DateTime)
      ensures r.hour == h
      ensures r.day == day && r.minute == minute && r.second == second && r.nano == nano
    {
      this.(hour := h)
    }

    /** LocalDateTime.withMinute: the same date, hour, second and nanosecond. */
    function WithMinute(m: int): (r: DateTime)
      ensures r.minute == m
      ensures r.day == day && r.hour == hour && r.second == second && r.nano == nano
    {
      this.(minute := m)
    }
  }

  /** LocalDateTime.isBefore: `a` lies strictly earlier than `b`. */
  predicate Before(a: DateTime, b: DateTime): (r: bool)
    ensures r ==> a != b && a.day <= b.day
    ensures a.day < b.day ==> r
  {
    || a.day < b.day
    || (a.day == b.day && a.hour < b.hour)
    || (a.day == b.day && a.hour == b.hour && a.minute < b.minute)
    || (a.day == b.day && a.hour == b.hour && a.minute == b.minute && a.second < b.second)
    || (a.day == b.day && a.hour == b.hour && a.minute == b.minute && a.second == b.second && a.nano < b.nano)
  }

  /** `Before` is a strict total order: irreflexive, transitive and total on distinct values. */
  lemma BeforeIsStrictTotalOrder(a: DateTime, b: DateTime, c: DateTime)
    ensures !Before(a, a)
    ensures Before(a, b) && Before(b, c) ==> Before(a, c)
    ensures a != b ==> Before(a, b) || Before(b, a)
    ensures Before(a, b) ==> !Before(b, a)
  {
  }

  /** A sequence of date-times in strictly ascending order, as a TreeMap iterates its keys. */
  predicate StrictlyIncreasing(s: seq<DateTime>) {
    forall i, j :: 0 <= i < j < |s| ==> Before(s[i], s[j])
  }

  /** java.time.DayOfWeek.getValue of day number `day`: 1 is Monday, ..., 7 is Sunday.
      Day 0, 2025-06-01, is a Sunday. */
  function DayOfWeek(day: int): (r: int)
    ensures 1 <= r <= 7
    ensures r == 7 <==> day % 7 == 0
    ensures day % 7 != 0 ==> r == day % 7
  {
    (day % 7 + 6) % 7 + 1
  }

  /** Saturday and Sunday, the days the clinic's calendar skips. */
  predicate IsWeekend(day: int): (r: bool)
    ensures r <==> day % 7 == 0 || day % 7 == 6
  {
    DayOfWeek(day) >= 6
  }

  /** Consecutive days have consecutive weekdays, Monday following Sunday. */
  lemma DayOfWeekNext(day: int)
    ensures DayOfWeek(day + 1) == DayOfWeek(day) % 7 + 1
  {
  }
}
