/** A treatment: a named appointment with one provider at one time, which claims and
    releases that provider's slot. Name, provider and time are fixed at construction. */
module Treatments {
  import opened Time
  import opened Timetables
  import opened Outcomes
  import opened Physiotherapists

  class Treatment {
    const name: string
    const physiotherapist: Physiotherapist
    const dateTime: DateTime
    var booked: bool

    /** The object the constructor builds once its argument checks have passed; the
        checks themselves are in `NewTreatment`. */
    constructor (name: string, physiotherapist: Physiotherapist, dateTime: DateTime)
      ensures this.name == name && this.physiotherapist == physiotherapist
      ensures this.dateTime == dateTime
      ensures !booked
    {
      this.name := name;
      this.physiotherapist := physiotherapist;
      this.dateTime := dateTime;
      this.booked := false;
    }

    /** isAvailable: not booked through this treatment, and the provider offers the slot. */
    function IsAvailable(): (r: bool)
      reads this, physiotherapist
      ensures r <==> !booked && physiotherapist.isActive && IsFree(physiotherapist.timetable, dateTime)
    {
      !booked && physiotherapist.IsAvailable(dateTime)
    }

    /** markAsBooked: "already booked" whenever the treatment is not available (booked
        already, slot taken or provider inactive), "in the past" when its time is before
        `now`; otherwise the flag is set and exactly the provider's slot is occupied. */
    method MarkAsBooked(now: DateTime) returns (o: Outcome)
      modifies this`booked, physiotherapist`timetable
      ensures !old(IsAvailable()) ==> o == Fail(AlreadyBooked)
      ensures old(IsAvailable()) && Before(dateTime, now) ==> o == Fail(BookingInPast)
      ensures o.Fail? ==> booked == old(booked) && physiotherapist.timetable == old(physiotherapist.timetable)
      ensures o.Pass? <==> old(IsAvailable()) && !Before(dateTime, now)
      ensures o.Pass? ==> booked && !IsAvailable()
      ensures o.Pass? ==> physiotherapist.timetable == Put(old(physiotherapist.timetable), dateTime, false)
      ensures o.Pass? ==> Occupied(physiotherapist.timetable) == Occupied(old(physiotherapist.timetable)) + {dateTime}
    {
      if !IsAvailable() {
        return Fail(AlreadyBooked);
      }
      if Before(dateTime, now) {
        return Fail(BookingInPast);
      }
      booked := true;
      var claim := physiotherapist.AssignAppointment(dateTime);
      assert claim == Pass;
      o := Pass;
    }

    /** markAsUnbooked: a booked treatment clears its flag and frees its slot; an
        unbooked one changes nothing. */
    method MarkAsUnbooked()
      modifies this`booked, physiotherapist`timetable
      ensures !booked
      ensures old(booked) ==> physiotherapist.timetable == Release(old(physiotherapist.timetable), dateTime)
      ensures !old(booked) ==> physiotherapist.timetable == old(physiotherapist.timetable)
    {
      if booked {
        booked := false;
        physiotherapist.FreeAppointment(dateTime);
      }
    }
  }

  /** The constructor with its checks: every argument present (a Java reference may be
      null), and the time not strictly before `now`. */
  method NewTreatment(name: Option<string>, physiotherapist: Physiotherapist?,
                      dateTime: Option<DateTime>, now: DateTime)
    returns (r: Result<Treatment>)
    ensures name.None? || physiotherapist == null || dateTime.None? ==> r == Err(NullParameter)
    ensures name.Some? && physiotherapist != null && dateTime.Some? && Before(dateTime.value, now) ==>
      r == Err(DateInPast)
    ensures r.Ok? <==> name.Some? && physiotherapist != null && dateTime.Some? && !Before(dateTime.value, now)
    ensures r.Ok? ==> fresh(r.value) && !r.value.booked
    ensures r.Ok? ==> r.value.name == name.value && r.value.physiotherapist == physiotherapist
    ensures r.Ok? ==> r.value.dateTime == dateTime.value
  {
    if name.None? || physiotherapist == null || dateTime.None? {
      return Err(NullParameter);
    }
    if Before(dateTime.value, now) {
      return Err(DateInPast);
    }
    var t := new Treatment(name.value, physiotherapist, dateTime.value);
    r := Ok(t);
  }

  /** Unbooking twice leaves the provider as unbooking once does. */
  method UnbookTwice(t: Treatment)
    modifies t`booked, t.physiotherapist`timetable
    ensures !t.booked
    ensures t.physiotherapist.timetable ==
      if old(t.booked) then Release(old(t.physiotherapist.timetable), t.dateTime)
      else old(t.physiotherapist.timetable)
  {
    t.MarkAsUnbooked();
    t.MarkAsUnbooked();
  }

  /** Booking and then unbooking a treatment restores the provider's timetable. */
  method BookThenUnbook(t: Treatment, now: DateTime) returns (o: Outcome)
    modifies t`booked, t.physiotherapist`timetable
    ensures t.physiotherapist.timetable == old(t.physiotherapist.timetable)
    ensures o.Pass? ==> !t.booked
    ensures o.Fail? ==> t.booked == old(t.booked)
  {
    o := t.MarkAsBooked(now);
    if o.Pass? {
      ReleaseUndoesOccupy(old(t.physiotherapist.timetable), t.dateTime);
      t.MarkAsUnbooked();
    }
  }
}
