/** Bookings and the patients who hold them.

    A booking is BOOKED when created and moves once to CANCELLED or ATTENDED; while
    BOOKED it can swap its treatment. A patient keeps an append-only list of its
    bookings, refuses new ones while inactive or when a BOOKED one already sits at the
    same time, and cannot be deactivated while any booking is BOOKED. */
module Bookings {
  import opened Time
  import opened Timetables
  import opened Outcomes
  import opened BookingStatus
  import opened Physiotherapists
  import opened Treatments

  class Booking {
    const id: string
    const patient: Patient?
    var treatment: Treatment
    var status: Status
    const bookingTime: DateTime

    /** The object the constructor builds once its treatment has been booked; the claim
        itself is in `NewBooking`. */
    constructor (id: string, patient: Patient?, treatment: Treatment, bookingTime: DateTime)
      ensures this.id == id && this.patient == patient && this.treatment == treatment
      ensures this.bookingTime == bookingTime
      ensures status == Booked
    {
      this.id := id;
      this.patient := patient;
      this.treatment := treatment;
      this.status := Booked;
      this.bookingTime := bookingTime;
    }

    /** validateBookingStatus: passes exactly when the status is the expected one. */
    function ValidateBookingStatus(expected: Status): (o: Outcome)
      reads this
      ensures o.Pass? <==> status == expected
      ensures o.Fail? ==> o.error == NotInState(expected) && o.error.Class() == IllegalStateException
    {
      if status != expected then Fail(NotInState(expected)) else Pass
    }

    /** cancelBooking: a BOOKED booking becomes CANCELLED and its provider slot is freed,
        while the treatment's own booked flag is left as it was; any other status throws
        and nothing changes. */
    method CancelBooking() returns (o: Outcome)
      modifies this`status, treatment.physiotherapist`timetable
      ensures old(status) != Booked ==> o == Fail(NotInState(Booked)) && status == old(status)
      ensures old(status) != Booked ==>
        treatment.physiotherapist.timetable == old(treatment.physiotherapist.timetable)
      ensures old(status) == Booked ==> o == Pass && status == Cancelled
      ensures old(status) == Booked ==>
        treatment.physiotherapist.timetable == Release(old(treatment.physiotherapist.timetable), treatment.dateTime)
      ensures treatment.booked == old(treatment.booked)
    {
      o := ValidateBookingStatus(Booked);
      if o.Fail? {
        return;
      }
      status := Cancelled;
      treatment.physiotherapist.FreeAppointment(treatment.dateTime);
    }

    /** attend: a BOOKED booking becomes ATTENDED, keeping its slot; any other status
        throws and nothing changes. */
    method Attend() returns (o: Outcome)
      modifies this`status
      ensures old(status) != Booked ==> o == Fail(NotInState(Booked)) && status == old(status)
      ensures old(status) == Booked ==> o == Pass && status == Attended
    {
      o := ValidateBookingStatus(Booked);
      if o.Fail? {
        return;
      }
      status := Attended;
    }

    /** changeBooking: on a BOOKED booking, frees the old slot, makes `newTreatment` the
        current treatment and then books it, in that order and without undoing the first
        two steps when the booking of the new treatment throws. `mid` is the new
        provider's timetable between the two steps, which is the freed one when the old
        and the new provider are the same object. The status stays BOOKED either way. */
    method ChangeBooking(newTreatment: Treatment, now: DateTime) returns (o: Outcome)
      modifies this`treatment, treatment.physiotherapist`timetable
      modifies newTreatment`booked, newTreatment.physiotherapist`timetable
      ensures status == old(status)
      ensures old(status) != Booked ==> o == Fail(NotInState(Booked)) && treatment == old(treatment)
      ensures old(status) != Booked ==>
        && treatment.physiotherapist.timetable == old(treatment.physiotherapist.timetable)
        && newTreatment.physiotherapist.timetable == old(newTreatment.physiotherapist.timetable)
        && newTreatment.booked == old(newTreatment.booked)
      ensures old(status) == Booked ==> treatment == newTreatment
      ensures old(status) == Booked && newTreatment.physiotherapist != old(treatment).physiotherapist ==>
        old(treatment).physiotherapist.timetable ==
          Release(old(treatment.physiotherapist.timetable), old(treatment).dateTime)
      ensures old(status) == Booked ==>
        var p := newTreatment.physiotherapist;
        var mid := if p == old(treatment).physiotherapist
                   then Release(old(treatment.physiotherapist.timetable), old(treatment).dateTime)
                   else old(p.timetable);
        && (o.Pass? <==> !old(newTreatment.booked) && p.isActive && IsFree(mid, newTreatment.dateTime)
                         && !Before(newTreatment.dateTime, now))
        && (!(!old(newTreatment.booked) && p.isActive && IsFree(mid, newTreatment.dateTime)) ==>
              o == Fail(AlreadyBooked))
        && (var bookable := !old(newTreatment.booked) && p.isActive && IsFree(mid, newTreatment.dateTime);
            bookable && Before(newTreatment.dateTime, now) ==> o == Fail(BookingInPast))
        && p.timetable == (if o.Pass? then Put(mid, newTreatment.dateTime, false) else mid)
      ensures o.Pass? ==> newTreatment.booked
      ensures o.Fail? ==> newTreatment.booked == old(newTreatment.booked)
    {
      o := ValidateBookingStatus(Booked);
      if o.Fail? {
        return;
      }
      treatment.physiotherapist.FreeAppointment(treatment.dateTime);
      treatment := newTreatment;
      o := newTreatment.MarkAsBooked(now);
    }
  }

  /** The constructor: books `treatment` (which throws when it is not available or its
      time has passed) and, when that succeeds, yields a BOOKED booking stamped `now`. */
  method NewBooking(id: string, patient: Patient?, treatment: Treatment, now: DateTime)
    returns (r: Result<Booking>)
    modifies treatment`booked, treatment.physiotherapist`timetable
    ensures !old(treatment.IsAvailable()) ==> r == Err(AlreadyBooked)
    ensures old(treatment.IsAvailable()) && Before(treatment.dateTime, now) ==> r == Err(BookingInPast)
    ensures r.Ok? <==> old(treatment.IsAvailable()) && !Before(treatment.dateTime, now)
    ensures r.Err? ==>
      treatment.booked == old(treatment.booked) &&
      treatment.physiotherapist.timetable == old(treatment.physiotherapist.timetable)
    ensures r.Ok? ==> fresh(r.value) && r.value.status == Booked
    ensures r.Ok? ==> r.value.id == id && r.value.patient == patient && r.value.treatment == treatment
    ensures r.Ok? ==> r.value.bookingTime == now && treatment.booked
    ensures r.Ok? ==>
      treatment.physiotherapist.timetable == Put(old(treatment.physiotherapist.timetable), treatment.dateTime, false)
  {
    var o := treatment.MarkAsBooked(now);
    if o.Fail? {
      return Err(o.error);
    }
    var b := new Booking(id, patient, treatment, now);
    r := Ok(b);
  }

  /** Some booking of `bs` is BOOKED at time `t` (a filter-then-anyMatch stream). */
  function AnyBookedAt(bs: seq<Booking>, t: DateTime): (r: bool)
    reads bs
    ensures r <==> exists i :: 0 <= i < |bs| && bs[i].status == Booked && bs[i].treatment.dateTime == t
  {
    if bs == [] then false
    else if bs[0].status == Booked && bs[0].treatment.dateTime == t then true
    else
      var r := AnyBookedAt(bs[1..], t);
      assert r ==> exists i :: 0 <= i < |bs| && bs[i].status == Booked && bs[i].treatment.dateTime == t by {
        if r {
          var j :| 0 <= j < |bs[1..]| && bs[1..][j].status == Booked && bs[1..][j].treatment.dateTime == t;
          assert bs[j + 1] == bs[1..][j];
        }
      }
      assert !r ==> forall i :: 0 <= i < |bs| ==> !(bs[i].status == Booked && bs[i].treatment.dateTime == t) by {
        if !r {
          forall i | 0 <= i < |bs| ensures !(bs[i].status == Booked && bs[i].treatment.dateTime == t) {
            if i > 0 { assert bs[i] == bs[1..][i - 1]; }
          }
        }
      }
      r
  }

  /** Some booking of `bs` is BOOKED (an anyMatch stream). */
  function AnyBooked(bs: seq<Booking>): (r: bool)
    reads bs
    ensures r <==> exists i :: 0 <= i < |bs| && bs[i].status == Booked
  {
    if bs == [] then false
    else if bs[0].status == Booked then true
    else
      var r := AnyBooked(bs[1..]);
      assert r ==> exists i :: 0 <= i < |bs| && bs[i].status == Booked by {
        if r {
          var j :| 0 <= j < |bs[1..]| && bs[1..][j].status == Booked;
          assert bs[j + 1] == bs[1..][j];
        }
      }
      assert !r ==> forall i :: 0 <= i < |bs| ==> bs[i].status != Booked by {
        if !r {
          forall i | 0 <= i < |bs| ensures bs[i].status != Booked {
            if i > 0 { assert bs[i] == bs[1..][i - 1]; }
          }
        }
      }
      r
  }

  /** No two positions of `bs` hold BOOKED bookings at the same time. */
  ghost predicate NoTwoBookedAtOnce(bs: seq<Booking>)
    reads bs
  {
    forall i, j :: 0 <= i < j < |bs| && bs[i].status == Booked && bs[j].status == Booked ==>
      bs[i].treatment.dateTime != bs[j].treatment.dateTime
  }

  class Patient {
    const id: string
    const name: string
    const address: string
    const phone: string
    var bookings: seq<Booking>
    var active: bool

    /** A new patient is active and has no bookings. */
    constructor (id: string, name: string, address: string, phone: string)
      ensures this.id == id && this.name == name && this.address == address && this.phone == phone
      ensures active && bookings == []
    {
      this.id := id;
      this.name := name;
      this.address := address;
      this.phone := phone;
      this.bookings := [];
      this.active := true;
    }

    /** hasOverlappingBooking: a BOOKED booking of this patient sits exactly at the time
        of `newBooking`'s treatment; cancelled and attended ones do not count. */
    function HasOverlappingBooking(newBooking: Booking): (r: bool)
      reads this, newBooking, bookings
      ensures r <==> exists i :: 0 <= i < |bookings| && bookings[i].status == Booked &&
                                 bookings[i].treatment.dateTime == newBooking.treatment.dateTime
    {
      AnyBookedAt(bookings, newBooking.treatment.dateTime)
    }

    /** hasActiveBooking: some booking of this patient is BOOKED. */
    function HasActiveBooking(): (r: bool)
      reads this, bookings
      ensures r <==> exists i :: 0 <= i < |bookings| && bookings[i].status == Booked
    {
      AnyBooked(bookings)
    }

    /** addBooking: refuses while inactive, then refuses a time that clashes with a BOOKED
        booking, and otherwise appends `booking` at the end. Under the statuses at the
        time of the call, appending never creates two BOOKED bookings at one time. */
    method AddBooking(booking: Booking) returns (o: Outcome)
      modifies this`bookings
      ensures !active ==> o == Fail(InactivePatient) && bookings == old(bookings)
      ensures active && old(HasOverlappingBooking(booking)) ==>
        o == Fail(OverlappingBooking) && bookings == old(bookings)
      ensures active && !old(HasOverlappingBooking(booking)) ==>
        o == Pass && bookings == old(bookings) + [booking]
      ensures old(NoTwoBookedAtOnce(bookings)) ==> NoTwoBookedAtOnce(bookings)
    {
      if !active {
        return Fail(InactivePatient);
      }
      if HasOverlappingBooking(booking) {
        return Fail(OverlappingBooking);
      }
      bookings := bookings + [booking];
      o := Pass;
    }

    /** deactivate: refused while a booking is BOOKED, otherwise the patient is inactive. */
    method Deactivate() returns (o: Outcome)
      modifies this`active
      ensures old(HasActiveBooking()) ==> o == Fail(ActiveBookingExists) && active == old(active)
      ensures !old(HasActiveBooking()) ==> o == Pass && !active
    {
      if HasActiveBooking() {
        return Fail(ActiveBookingExists);
      }
      active := false;
      o := Pass;
    }

    /** reactivate: the patient is active, whatever it was before. */
    method Reactivate()
      modifies this`active
      ensures active
    {
      active := true;
    }

    /** setActive: writes the flag with no booking guard. */
    method SetActive(active: bool)
      modifies this`active
      ensures this.active == active
    {
      this.active := active;
    }
  }

  /** Cancelling a patient's only BOOKED booking leaves no active booking, after which
      the patient can be deactivated. */
  method CancelLastThenDeactivate(p: Patient, b: Booking) returns (cancelled: Outcome, deactivated: Outcome)
    requires b in p.bookings && b.status == Booked
    requires forall x :: x in p.bookings && x != b ==> x.status != Booked
    modifies b`status, b.treatment.physiotherapist`timetable, p`active
    ensures cancelled == Pass && deactivated == Pass
    ensures b.status == Cancelled && !p.active
  {
    cancelled := b.CancelBooking();
    assert !p.HasActiveBooking();
    deactivated := p.Deactivate();
  }

  /** A cancelled or attended booking never returns to BOOKED: every operation on it
      throws and leaves the status alone. */
  method NoWayBack(b: Booking, t: Treatment, now: DateTime) returns (o1: Outcome, o2: Outcome, o3: Outcome)
    requires b.status != Booked
    modifies b, b.treatment.physiotherapist, t, t.physiotherapist
    ensures b.status == old(b.status) && b.treatment == old(b.treatment)
    ensures o1.Fail? && o2.Fail? && o3.Fail?
  {
    o1 := b.CancelBooking();
    o2 := b.Attend();
    o3 := b.ChangeBooking(t, now);
  }
}
