/** The second, older copy of the provider, treatment and booking classes (package
    main.java.com.bpc.model). It differs from the main model: the timetable covers 28
    days from the day of creation with no weekend skip, providers have no active flag
    and no slot is ever freed, treatments are not validated, a BOOKED booking cannot be
    cancelled, and changing a booking keeps its treatment. */
module Legacy {
  import opened Time
  import opened Timetables
  import opened Outcomes
  import opened BookingStatus
  import Bookings

  /** Number of consecutive days the timetable covers. */
  const LEGACY_DAYS: int := 28
  const FIRST_HOUR: int := 9
  const CLOSING_HOUR: int := 17

  /** The first slot: `now` with the hour set to 9 and the minute to 0; the seconds and
      nanoseconds of `now` are kept. */
  function Start(now: DateTime): (s: DateTime)
    ensures s.day == now.day && s.hour == FIRST_HOUR && s.minute == 0
    ensures s.second == now.second && s.nano == now.nano
  {
    now.WithHour(FIRST_HOUR).WithMinute(0)
  }

  /** The slots initializeTimetable creates: every hour from 9 to 16 on each of the 28
      days starting on the day of `now`, weekends included, at minute 0 and with the
      seconds and nanoseconds of `now`. */
  predicate IsLegacySlot(now: DateTime, t: DateTime) {
    && now.day <= t.day < now.day + LEGACY_DAYS
    && FIRST_HOUR <= t.hour < CLOSING_HOUR
    && t.minute == 0 && t.second == now.second && t.nano == now.nano
  }

  /** The slots generated before hour `hour` of day offset `day`. */
  ghost predicate FilledUpTo(now: DateTime, m: map<DateTime, bool>, day: int, hour: int) {
    forall t :: t in m <==>
      IsLegacySlot(now, t) && (t.day < now.day + day || (t.day == now.day + day && t.hour < hour))
  }

  lemma FillHour(now: DateTime, m: map<DateTime, bool>, day: int, hour: int)
    requires FilledUpTo(now, m, day, hour)
    requires 0 <= day < LEGACY_DAYS && FIRST_HOUR <= hour < CLOSING_HOUR
    ensures Start(now).PlusDays(day).WithHour(hour) !in m
    ensures FilledUpTo(now, m[Start(now).PlusDays(day).WithHour(hour) := true], day, hour + 1)
  {
  }

  lemma FillDay(now: DateTime, m: map<DateTime, bool>, day: int)
    requires FilledUpTo(now, m, day, CLOSING_HOUR)
    ensures FilledUpTo(now, m, day + 1, FIRST_HOUR)
  {
  }

  /** initializeTimetable: 8 free one-hour slots on each of 28 consecutive days. */
  method InitializeTimetable(now: DateTime) returns (slots: TreeMap)
    ensures forall t :: t in slots.flags <==> IsLegacySlot(now, t)
    ensures forall t :: t in slots.flags ==> slots.flags[t]
    ensures |slots.flags| == 8 * LEGACY_DAYS
  {
    slots := Empty();
    var start := Start(now);
    for day := 0 to LEGACY_DAYS
      invariant FilledUpTo(now, slots.flags, day, FIRST_HOUR)
      invariant forall t :: t in slots.flags ==> slots.flags[t]
      invariant |slots.flags| == 8 * day
    {
      var currentDay := start.PlusDays(day);
      for hour := FIRST_HOUR to CLOSING_HOUR
        invariant FilledUpTo(now, slots.flags, day, hour)
        invariant forall t :: t in slots.flags ==> slots.flags[t]
        invariant |slots.flags| == 8 * day + (hour - FIRST_HOUR)
      {
        FillHour(now, slots.flags, day, hour);
        slots := Put(slots, currentDay.WithHour(hour), true);
      }
      FillDay(now, slots.flags, day);
    }
  }

  class Physiotherapist {
    const id: string
    const name: string
    const address: string
    const phone: string
    const expertise: seq<string>
    /** true: free, false: booked */
    var timetable: TreeMap

    /** A new provider offers every generated slot; the clock reading is `now`. */
    constructor (id: string, name: string, address: string, phone: string, expertise: seq<string>,
                 now: DateTime)
      ensures this.id == id && this.name == name && this.address == address
      ensures this.phone == phone && this.expertise == expertise
      ensures forall t :: t in timetable.flags <==> IsLegacySlot(now, t)
      ensures forall t :: t in timetable.flags ==> timetable.flags[t]
      ensures Occupied(timetable) == {}
    {
      this.id := id;
      this.name := name;
      this.address := address;
      this.phone := phone;
      this.expertise := expertise;
      var slots := InitializeTimetable(now);
      this.timetable := slots;
    }

    /** getAvailableAppointments: the free slots in ascending time order. */
    function AvailableAppointments(): (r: seq<DateTime>)
      reads this
      ensures StrictlyIncreasing(r)
      ensures forall t :: t in r <==> IsFree(timetable, t)
    {
      FreeKeys(timetable)
    }

    /** isAvailable: `t` is a slot of the timetable and it is free; there is no active
        flag, and a time that is not a slot is never available. */
    function IsAvailable(t: DateTime): (r: bool)
      reads this
      ensures r <==> IsFree(timetable, t)
      ensures t !in timetable.flags ==> !r
    {
      GetOrDefault(timetable, t, false)
    }

    /** assignAppointment: books the free slot `t`, and throws when it is not free,
        changing nothing. No slot is ever freed. */
    method AssignAppointment(t: DateTime) returns (o: Outcome)
      modifies this`timetable
      ensures !IsFree(old(timetable), t) ==> o == Fail(TimeSlotNotAvailable) && timetable == old(timetable)
      ensures IsFree(old(timetable), t) ==> o == Pass && timetable == Put(old(timetable), t, false)
      ensures o.Pass? ==> Occupied(timetable) == Occupied(old(timetable)) + {t}
      ensures Occupied(old(timetable)) <= Occupied(timetable)
    {
      if !IsAvailable(t) {
        return Fail(TimeSlotNotAvailable);
      }
      OccupyAddsOne(timetable, t);
      timetable := Put(timetable, t, false);
      o := Pass;
    }
  }

  class Treatment {
    const name: string
    const dateTime: DateTime
    const physiotherapist: Physiotherapist
    var booked: bool

    /** No argument is checked. */
    constructor (name: string, physiotherapist: Physiotherapist, dateTime: DateTime)
      ensures this.name == name && this.physiotherapist == physiotherapist
      ensures this.dateTime == dateTime
      ensures !booked
    {
      this.name := name;
      this.dateTime := dateTime;
      this.physiotherapist := physiotherapist;
      this.booked := false;
    }

    /** isAvailable: not booked through this treatment, and the provider's slot is free. */
    function IsAvailable(): (r: bool)
      reads this, physiotherapist
      ensures r <==> !booked && IsFree(physiotherapist.timetable, dateTime)
    {
      !booked && physiotherapist.IsAvailable(dateTime)
    }

    /** markAsBooked: "already booked" whenever the treatment is not available; there is
        no check of the time against the clock. Otherwise the flag is set and the slot
        occupied. */
    method MarkAsBooked() returns (o: Outcome)
      modifies this`booked, physiotherapist`timetable
      ensures o.Pass? <==> old(IsAvailable())
      ensures o.Fail? ==> o == Fail(AlreadyBooked) && booked == old(booked)
                          && physiotherapist.timetable == old(physiotherapist.timetable)
      ensures o.Pass? ==> booked && physiotherapist.timetable == Put(old(physiotherapist.timetable), dateTime, false)
      ensures o.Pass? ==> Occupied(physiotherapist.timetable) == Occupied(old(physiotherapist.timetable)) + {dateTime}
    {
      if !IsAvailable() {
        return Fail(AlreadyBooked);
      }
      booked := true;
      var claim := physiotherapist.AssignAppointment(dateTime);
      assert claim == Pass;
      o := Pass;
    }
  }

  /** Booking a treatment twice fails the second time, whatever the first call did. */
  method MarkTwice(t: Treatment) returns (first: Outcome, second: Outcome)
    modifies t`booked, t.physiotherapist`timetable
    ensures first.Pass? <==> old(t.IsAvailable())
    ensures second == Fail(AlreadyBooked)
    ensures t.booked == (old(t.booked) || first.Pass?)
  {
    first := t.MarkAsBooked();
    second := t.MarkAsBooked();
  }

  class Booking {
    const id: string
    /** The owning patient; the legacy code only stores it. */
    const patient: Bookings.Patient?
    var treatment: Treatment
    var status: Status
    const bookingTime: DateTime

    /** The object the constructor builds before it claims the slot; the claim is in
        `NewBooking`. */
    constructor (id: string, patient: Bookings.Patient?, treatment: Treatment, bookingTime: DateTime)
      ensures this.id == id && this.patient == patient && this.treatment == treatment
      ensures this.bookingTime == bookingTime
      ensures status == Booked
    {
      this.id := id;
      this.patient := patient;
      this.treatment := treatment;
      this.status := Booked;
      this.bookingTime := bookingTime;
    }

    /** cancelBooking as written: it throws exactly when the booking IS booked, and
        otherwise sets CANCELLED, so a CANCELLED or ATTENDED booking can be "cancelled"
        and a BOOKED one never. No slot is freed. */
    method CancelBooking() returns (o: Outcome)
      modifies this`status
      ensures old(status) == Booked ==> o == Fail(NotConfirmed) && status == Booked
      ensures old(status) != Booked ==> o == Pass && status == Cancelled
    {
      if status == Booked {
        return Fail(NotConfirmed);
      }
      status := Cancelled;
      o := Pass;
    }

    /** attend: a BOOKED booking becomes ATTENDED; any other status throws. */
    method Attend() returns (o: Outcome)
      modifies this`status
      ensures old(status) != Booked ==> o == Fail(NotConfirmed) && status == old(status)
      ensures old(status) == Booked ==> o == Pass && status == Attended
    {
      if status != Booked {
        return Fail(NotConfirmed);
      }
      status := Attended;
      o := Pass;
    }

    /** changeBooking as written: requires BOOKED, assigns the treatment field to itself
        and books the new treatment, so the booking keeps its old treatment, the old slot
        stays occupied and the new slot is occupied too. */
    method ChangeBooking(newTreatment: Treatment) returns (o: Outcome)
      modifies this`treatment, newTreatment`booked, newTreatment.physiotherapist`timetable
      ensures treatment == old(treatment) && status == old(status)
      ensures old(status) != Booked ==>
        o == Fail(NotConfirmed) && newTreatment.booked == old(newTreatment.booked)
        && newTreatment.physiotherapist.timetable == old(newTreatment.physiotherapist.timetable)
      ensures old(status) == Booked && !old(newTreatment.IsAvailable()) ==>
        o == Fail(AlreadyBooked) && newTreatment.booked == old(newTreatment.booked)
        && newTreatment.physiotherapist.timetable == old(newTreatment.physiotherapist.timetable)
      ensures old(status) == Booked && old(newTreatment.IsAvailable()) ==>
        o == Pass && newTreatment.booked
        && newTreatment.physiotherapist.timetable == Put(old(newTreatment.physiotherapist.timetable), newTreatment.dateTime, false)
      ensures Occupied(old(newTreatment.physiotherapist.timetable)) <= Occupied(newTreatment.physiotherapist.timetable)
    {
      if status != Booked {
        return Fail(NotConfirmed);
      }
      treatment := treatment;
      o := newTreatment.MarkAsBooked();
    }
  }

  /** The constructor: the status and booking-time arguments are ignored (the status is
      BOOKED and the booking time is the clock reading `now`), and the treatment is
      booked, which throws when it is not available. */
  method NewBooking(id: string, patient: Bookings.Patient?, treatment: Treatment, status: Status,
                    bookingTime: DateTime, now: DateTime)
    returns (r: Result<Booking>)
    modifies treatment`booked, treatment.physiotherapist`timetable
    ensures r.Ok? <==> old(treatment.IsAvailable())
    ensures r.Err? ==> r.error == AlreadyBooked && treatment.booked == old(treatment.booked)
                       && treatment.physiotherapist.timetable == old(treatment.physiotherapist.timetable)
    ensures r.Ok? ==> treatment.booked
    ensures r.Ok? ==> fresh(r.value) && r.value.status == Booked && r.value.bookingTime == now
                      && r.value.id == id && r.value.patient == patient && r.value.treatment == treatment
    ensures r.Ok? ==> treatment.physiotherapist.timetable == Put(old(treatment.physiotherapist.timetable), treatment.dateTime, false)
  {
    var claim := treatment.MarkAsBooked();
    if claim.Fail? {
      return Err(claim.error);
    }
    var b := new Booking(id, patient, treatment, now);
    r := Ok(b);
  }

  /** A booking that has just been created cannot be cancelled: the guard is inverted. */
  method CancelNewBooking(id: string, patient: Bookings.Patient?, treatment: Treatment, now: DateTime)
    returns (r: Result<Booking>, o: Outcome)
    modifies treatment`booked, treatment.physiotherapist`timetable
    ensures r.Ok? <==> old(treatment.IsAvailable())
    ensures r.Ok? ==> o == Fail(NotConfirmed) && r.value.status == Booked
  {
    r := NewBooking(id, patient, treatment, Cancelled, now, now);
    o := Pass;
    if r.Ok? {
      o := r.value.CancelBooking();
    }
  }

  /** A successful change leaves the booking on its old treatment with the old slot
      still occupied, and occupies the new slot as well: one booking holds two slots. */
  method ChangeHoldsBothSlots(b: Booking, newTreatment: Treatment) returns (o: Outcome)
    requires b.status == Booked && b.treatment.booked
    requires b.treatment.dateTime in Occupied(b.treatment.physiotherapist.timetable)
    modifies b`treatment, newTreatment`booked, newTreatment.physiotherapist`timetable
    ensures o.Pass? <==> old(newTreatment.IsAvailable())
    ensures o.Pass? ==>
      && b.treatment == old(b.treatment) && b.treatment != newTreatment
      && b.treatment.dateTime in Occupied(b.treatment.physiotherapist.timetable)
      && newTreatment.dateTime in Occupied(newTreatment.physiotherapist.timetable)
  {
    o := b.ChangeBooking(newTreatment);
  }
}
