/** A physiotherapist (the provider): identity, descriptive data, an active flag and the
    timetable of one-hour slots generated once when the provider is created. */
module Physiotherapists {
  import opened Time
  import opened Timetables
  import opened Outcomes

  /** Number of days the timetable covers, starting at day 0 (2025-06-01). */
  const DAYS_IN_JUNE: int := 30
  /** The first slot of a day starts at 9:00 and the last at 16:00. */
  const FIRST_HOUR: int := 9
  const CLOSING_HOUR: int := 17

  /** The slots initializeTimetable creates: every whole hour from 9:00 to 16:00 on each
      day of the thirty starting at 2025-06-01 that is not a Saturday or Sunday. */
  predicate IsOpeningSlot(t: DateTime) {
    && 0 <= t.day < DAYS_IN_JUNE && !IsWeekend(t.day)
    && FIRST_HOUR <= t.hour < CLOSING_HOUR
    && t.minute == 0 && t.second == 0 && t.nano == 0
  }

  /** The number of working days among days 0 .. n-1. */
  function WorkingDaysBefore(n: nat): nat {
    if n == 0 then 0 else WorkingDaysBefore(n - 1) + (if IsWeekend(n - 1) then 0 else 1)
  }

  /** The opening slots before hour `hour` of day `day`, in generation order. */
  ghost predicate FilledUpTo(m: map<DateTime, bool>, day: int, hour: int) {
    forall t :: t in m <==> IsOpeningSlot(t) && (t.day < day || (t.day == day && t.hour < hour))
  }

  lemma FillHour(m: map<DateTime, bool>, day: int, hour: int)
    requires FilledUpTo(m, day, hour)
    requires 0 <= day < DAYS_IN_JUNE && !IsWeekend(day) && FIRST_HOUR <= hour < CLOSING_HOUR
    ensures DateTime(day, hour, 0, 0, 0) !in m
    ensures FilledUpTo(m[DateTime(day, hour, 0, 0, 0) := true], day, hour + 1)
  {
  }

  lemma FillDay(m: map<DateTime, bool>, day: int)
    requires FilledUpTo(m, day, CLOSING_HOUR) || (FilledUpTo(m, day, FIRST_HOUR) && IsWeekend(day))
    ensures FilledUpTo(m, day + 1, FIRST_HOUR)
  {
  }

  /** initializeTimetable: fills a fresh TreeMap with one free slot per opening hour. */
  method InitializeTimetable() returns (slots: TreeMap)
    ensures forall t :: t in slots.flags <==> IsOpeningSlot(t)
    ensures forall t :: t in slots.flags ==> slots.flags[t]
    ensures |slots.flags| == 168
  {
    slots := Empty();
    var start := DateTime(0, 9, 0, 0, 0);
    for day := 0 to DAYS_IN_JUNE
      invariant FilledUpTo(slots.flags, day, FIRST_HOUR)
      invariant forall t :: t in slots.flags ==> slots.flags[t]
      invariant |slots.flags| == 8 * WorkingDaysBefore(day)
    {
      var currentDay := start.PlusDays(day);
      if DayOfWeek(currentDay.day) >= 6 {
        FillDay(slots.flags, day);
        continue;
      }
      for hour := FIRST_HOUR to CLOSING_HOUR
        invariant FilledUpTo(slots.flags, day, hour)
        invariant forall t :: t in slots.flags ==> slots.flags[t]
        invariant |slots.flags| == 8 * WorkingDaysBefore(day) + (hour - FIRST_HOUR)
      {
        FillHour(slots.flags, day, hour);
        slots := Put(slots, currentDay.WithHour(hour), true);
      }
      FillDay(slots.flags, day);
    }
    WorkingDaysInJune();
  }

  /** Every week from a Sunday has five working days, Monday to Friday. */
  lemma WeekHasFiveWorkingDays(w: nat)
    ensures WorkingDaysBefore(7 * w + 7) == WorkingDaysBefore(7 * w) + 5
  {
    var d := 7 * w;
    assert d % 7 == 0;
    assert IsWeekend(d) && IsWeekend(d + 6);
    assert !IsWeekend(d + 1) && !IsWeekend(d + 2) && !IsWeekend(d + 3);
    assert !IsWeekend(d + 4) && !IsWeekend(d + 5);
    assert WorkingDaysBefore(d + 1) == WorkingDaysBefore(d);
    assert WorkingDaysBefore(d + 2) == WorkingDaysBefore(d) + 1;
    assert WorkingDaysBefore(d + 3) == WorkingDaysBefore(d) + 2;
    assert WorkingDaysBefore(d + 4) == WorkingDaysBefore(d) + 3;
    assert WorkingDaysBefore(d + 5) == WorkingDaysBefore(d) + 4;
    assert WorkingDaysBefore(d + 6) == WorkingDaysBefore(d) + 5;
  }

  /** June 2025 from Sunday the 1st has 21 working days: four whole weeks, then Sunday
      the 29th and Monday the 30th. */
  lemma WorkingDaysInJune()
    ensures WorkingDaysBefore(30) == 21
  {
    WeekHasFiveWorkingDays(0);
    WeekHasFiveWorkingDays(1);
    WeekHasFiveWorkingDays(2);
    WeekHasFiveWorkingDays(3);
    assert IsWeekend(28) && !IsWeekend(29);
  }

  class Physiotherapist {
    const id: string
    const name: string
    const address: string
    const phone: string
    const expertise: seq<string>
    /** true: free, false: booked */
    var timetable: TreeMap
    /** true: taking appointments */
    var isActive: bool

    /** A new provider is active and every opening slot is free. */
    constructor (id: string, name: string, address: string, phone: string, expertise: seq<string>)
      ensures this.id == id && this.name == name && this.address == address
      ensures this.phone == phone && this.expertise == expertise
      ensures isActive
      ensures forall t :: t in timetable.flags <==> IsOpeningSlot(t)
      ensures forall t :: t in timetable.flags ==> timetable.flags[t]
    {
      this.id := id;
      this.name := name;
      this.address := address;
      this.phone := phone;
      this.expertise := expertise;
      var slots := InitializeTimetable();
      this.timetable := slots;
      this.isActive := true;
    }

    /** getAvailableAppointments: nothing while inactive, otherwise the free slots in
        ascending time order. */
    function AvailableAppointments(): (r: seq<DateTime>)
      reads this
      ensures !isActive ==> r == []
      ensures isActive ==> StrictlyIncreasing(r) && forall t :: t in r <==> IsFree(timetable, t)
    {
      if !isActive then [] else FreeKeys(timetable)
    }

    /** isAvailable: active, and `t` is a slot of the timetable that is free. A time that
        is not a slot is never available. */
    function IsAvailable(t: DateTime): (r: bool)
      reads this
      ensures r <==> isActive && IsFree(timetable, t)
      ensures t !in timetable.flags ==> !r
    {
      isActive && GetOrDefault(timetable, t, false)
    }

    /** assignAppointment: books the free slot `t`, and throws while inactive or when the
        slot is not free, changing nothing. */
    method AssignAppointment(t: DateTime) returns (o: Outcome)
      modifies this`timetable
      ensures !isActive ==> o == Fail(PhysiotherapistNotAvailable) && timetable == old(timetable)
      ensures isActive && !IsFree(old(timetable), t) ==>
        o == Fail(SlotNotAvailable) && timetable == old(timetable)
      ensures isActive && IsFree(old(timetable), t) ==>
        o == Pass && timetable == Put(old(timetable), t, false)
      ensures o.Pass? ==> timetable.keys == old(timetable).keys && !IsFree(timetable, t)
      ensures o.Pass? ==> Occupied(timetable) == Occupied(old(timetable)) + {t}
    {
      if !isActive {
        return Fail(PhysiotherapistNotAvailable);
      }
      if !IsAvailable(t) {
        return Fail(SlotNotAvailable);
      }
      OccupyAddsOne(timetable, t);
      timetable := Put(timetable, t, false);
      o := Pass;
    }

    /** freeAppointment: marks a known slot free; unknown times are ignored. */
    method FreeAppointment(t: DateTime)
      modifies this`timetable
      ensures timetable == Release(old(timetable), t)
      ensures timetable.flags.Keys == old(timetable.flags.Keys)
      ensures t in timetable.flags ==> IsFree(timetable, t)
      ensures forall u :: u != t && u in timetable.flags ==> timetable.flags[u] == old(timetable.flags[u])
    {
      if t in timetable.flags {
        timetable := Put(timetable, t, true);
      }
    }

    /** deactivate: only the active flag changes. */
    method Deactivate()
      modifies this`isActive
      ensures !isActive
      ensures AvailableAppointments() == []
    {
      isActive := false;
    }

    /** activate: only the active flag changes, so the free slots offered are the ones the
        timetable held before the provider was deactivated. */
    method Activate()
      modifies this`isActive
      ensures isActive
      ensures AvailableAppointments() == FreeKeys(timetable)
    {
      isActive := true;
    }

    /** equals: two providers are equal exactly when their ids are. */
    function Equals(other: Physiotherapist?): (r: bool)
      ensures r <==> other != null && other.id == id
    {
      if this == other then true else other != null && id == other.id
    }
  }

  /** Assigning the same slot twice fails the second time, whatever the first call did. */
  method AssignTwice(p: Physiotherapist, t: DateTime) returns (first: Outcome, second: Outcome)
    modifies p`timetable
    ensures first.Pass? <==> old(p.IsAvailable(t))
    ensures second.Fail?
    ensures p.timetable == (if first.Pass? then Put(old(p.timetable), t, false) else old(p.timetable))
  {
    first := p.AssignAppointment(t);
    second := p.AssignAppointment(t);
  }

  /** Deactivating and re-activating a provider offers the same free slots as before. */
  method DeactivateThenActivate(p: Physiotherapist)
    modifies p`isActive
    ensures p.isActive && p.timetable == old(p.timetable)
    ensures p.AvailableAppointments() == FreeKeys(old(p.timetable))
  {
    p.Deactivate();
    p.Activate();
  }
}
