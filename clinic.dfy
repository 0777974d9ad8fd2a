/** The clinic: id-keyed tables of patients, providers and bookings, and the operations
    that drive the entities (create, cancel, attend and modify a booking) together with
    the two read-only report queries. */
module ClinicSystem {
  import opened Time
  import opened Timetables
  import opened Outcomes
  import opened BookingStatus
  import opened Physiotherapists
  import opened Treatments
  import opened Bookings
  import opened Ids
  import Reports

  /** The provider whose slot a booking currently holds, and the slot's time. */
  function SlotOf(b: Booking): (Physiotherapist, DateTime)
    reads b
  {
    (b.treatment.physiotherapist, b.treatment.dateTime)
  }

  /** The booking's slot is a key of its provider's timetable and is marked booked. */
  predicate HoldsSlot(b: Booking)
    reads b, b.treatment.physiotherapist
  {
    b.treatment.dateTime in Occupied(b.treatment.physiotherapist.timetable)
  }

  class Clinic {
    var physiotherapists: map<string, Physiotherapist>
    var patients: map<string, Patient>
    var bookings: map<string, Booking>
    /** The id counters (static in the source). */
    const ids: IdGenerator

    /** A new clinic has empty tables and fresh counters. */
    constructor ()
      ensures physiotherapists == map[] && patients == map[] && bookings == map[]
      ensures fresh(ids)
      ensures ids.patientCounter == 1 && ids.physiotherapistCounter == 1 && ids.bookingCounter == 1
      ensures Valid()
    {
      physiotherapists := map[];
      patients := map[];
      bookings := map[];
      ids := new IdGenerator();
    }

    ghost function BookedProviders(): set<Physiotherapist>
      reads this, bookings.Values
    {
      set k | k in bookings :: bookings[k].treatment.physiotherapist
    }

    /** The clinic's invariant:
        - every entry is stored under its own id, and no stored id carries a sequence
          number the counters have not handed out yet, so a generated id is new;
        - every BOOKED booking holds its slot; and
        - no two BOOKED bookings hold the same slot of the same provider. */
    ghost predicate Valid()
      reads this, ids, bookings.Values, BookedProviders()
    {
      KeysValid() && BookedHoldSlots() && NoSharedSlots()
    }

    ghost predicate KeysValid()
      reads this, ids
    {
      && (forall k :: k in patients ==> patients[k].id == k && IdNumber(PATIENT_PREFIX, k) < ids.patientCounter)
      && (forall k :: k in physiotherapists ==>
            physiotherapists[k].id == k && IdNumber(PHYSIOTHERAPIST_PREFIX, k) < ids.physiotherapistCounter)
      && (forall k :: k in bookings ==> bookings[k].id == k && IdNumber(BOOKING_PREFIX, k) < ids.bookingCounter)
    }

    ghost predicate BookedHoldSlots()
      reads this, bookings.Values, BookedProviders()
    {
      forall k :: k in bookings && bookings[k].status == Booked ==> HoldsSlot(bookings[k])
    }

    ghost predicate NoSharedSlots()
      reads this, bookings.Values
    {
      forall k, k' ::
        (k in bookings && k' in bookings && k != k' &&
         bookings[k].status == Booked && bookings[k'].status == Booked) ==>
        SlotOf(bookings[k]) != SlotOf(bookings[k'])
    }

    /** addPatient: a new active patient without bookings, stored under a new id. */
    method AddPatient(name: string, address: string, phone: string, stamp: string) returns (patient: Patient)
      requires |stamp| == 8
      modifies this`patients, ids`patientCounter
      ensures fresh(patient) && patient.active && patient.bookings == []
      ensures patient.name == name && patient.address == address && patient.phone == phone
      ensures patient.id == FormatId(PATIENT_PREFIX, stamp, old(ids.patientCounter))
      ensures ids.patientCounter == old(ids.patientCounter) + 1
      ensures patients == old(patients)[patient.id := patient]
      ensures old(Valid()) ==> patient.id !in old(patients) && Valid()
    {
      var id := ids.GeneratePatientId(stamp);
      IdNumberOfFormat(PATIENT_PREFIX, stamp, old(ids.patientCounter));
      patient := new Patient(id, name, address, phone);
      patients := patients[id := patient];
    }

    /** addPhysiotherapist: a new active provider with a fresh timetable, stored under a
        new id. */
    method AddPhysiotherapist(name: string, address: string, phone: string, expertise: seq<string>,
                              stamp: string)
      returns (physiotherapist: Physiotherapist)
      requires |stamp| == 8
      modifies this`physiotherapists, ids`physiotherapistCounter
      ensures fresh(physiotherapist) && physiotherapist.isActive
      ensures forall t :: t in physiotherapist.timetable.flags <==> IsOpeningSlot(t)
      ensures forall t :: IsFree(physiotherapist.timetable, t) <==> IsOpeningSlot(t)
      ensures Occupied(physiotherapist.timetable) == {}
      ensures physiotherapist.name == name && physiotherapist.expertise == expertise
      ensures physiotherapist.id == FormatId(PHYSIOTHERAPIST_PREFIX, stamp, old(ids.physiotherapistCounter))
      ensures ids.physiotherapistCounter == old(ids.physiotherapistCounter) + 1
      ensures physiotherapists == old(physiotherapists)[physiotherapist.id := physiotherapist]
      ensures old(Valid()) ==> physiotherapist.id !in old(physiotherapists) && Valid()
    {
      var id := ids.GeneratePhysiotherapistId(stamp);
      IdNumberOfFormat(PHYSIOTHERAPIST_PREFIX, stamp, old(ids.physiotherapistCounter));
      physiotherapist := new Physiotherapist(id, name, address, phone, expertise);
      physiotherapists := physiotherapists[id := physiotherapist];
    }

    /** getPhysiotherapist: unknown ids and inactive providers are refused, in that order. */
    function GetPhysiotherapist(id: string): (r: Result<Physiotherapist>)
      reads this, physiotherapists.Values
      ensures id !in physiotherapists ==> r == Err(PhysiotherapistNotFound)
      ensures id in physiotherapists && !physiotherapists[id].isActive ==> r == Err(PhysiotherapistNotActive)
      ensures r.Ok? <==> id in physiotherapists && physiotherapists[id].isActive
      ensures r.Ok? ==> r.value == physiotherapists[id]
    {
      if id !in physiotherapists then Err(PhysiotherapistNotFound)
      else if !physiotherapists[id].isActive then Err(PhysiotherapistNotActive)
      else Ok(physiotherapists[id])
    }

    /** getBooking: unknown ids are refused. */
    function GetBooking(id: string): (r: Result<Booking>)
      reads this
      ensures r.Ok? <==> id in bookings
      ensures r.Ok? ==> r.value == bookings[id]
      ensures r.Err? ==> r.error == BookingNotFound && r.error.Class() == IllegalArgumentException
    {
      if id !in bookings then Err(BookingNotFound) else Ok(bookings[id])
    }

    /** The stored booking under `id`, as a frame. */
    function BookingAt(id: string): set<Booking>
      reads this
    {
      if id in bookings then {bookings[id]} else {}
    }

    /** The provider of the stored booking under `id`, as a frame. */
    function BookingProviderAt(id: string): set<Physiotherapist>
      reads this, BookingAt(id)
    {
      if id in bookings then {bookings[id].treatment.physiotherapist} else {}
    }

    /** cancelBooking: an unknown id dereferences null; otherwise the booking is cancelled
        as `Booking.CancelBooking` states, and the freed slot is offered again. */
    method CancelBooking(bookingId: string) returns (o: Outcome)
      modifies BookingAt(bookingId)`status, BookingProviderAt(bookingId)`timetable
      ensures bookingId !in bookings ==> o == Fail(NullReference)
      ensures bookingId in bookings ==>
        var b := bookings[bookingId];
        var p := b.treatment.physiotherapist;
        && (old(b.status) != Booked ==> o == Fail(NotInState(Booked)) && b.status == old(b.status)
                                        && p.timetable == old(p.timetable))
        && (old(b.status) == Booked ==> o == Pass && b.status == Cancelled
                                        && p.timetable == Release(old(p.timetable), b.treatment.dateTime))
      ensures old(Valid()) && o.Pass? ==>
        var b := bookings[bookingId];
        IsFree(b.treatment.physiotherapist.timetable, b.treatment.dateTime)
      ensures old(Valid()) ==> Valid()
    {
      if bookingId !in bookings {
        return Fail(NullReference);
      }
      var b := bookings[bookingId];
      o := b.CancelBooking();
    }

    /** attendBooking: an unknown id dereferences null; otherwise the booking is attended
        as `Booking.Attend` states, and its slot stays booked. */
    method AttendBooking(bookingId: string) returns (o: Outcome)
      modifies BookingAt(bookingId)`status
      ensures bookingId !in bookings ==> o == Fail(NullReference)
      ensures bookingId in bookings ==>
        var b := bookings[bookingId];
        && (old(b.status) != Booked ==> o == Fail(NotInState(Booked)) && b.status == old(b.status))
        && (old(b.status) == Booked ==> o == Pass && b.status == Attended)
      ensures old(Valid()) ==> Valid()
    {
      if bookingId !in bookings {
        return Fail(NullReference);
      }
      var b := bookings[bookingId];
      o := b.Attend();
    }

    /** The provider stored under `id`, as a frame. */
    function ProviderAt(id: string): set<Physiotherapist>
      reads this
    {
      if id in physiotherapists then {physiotherapists[id]} else {}
    }

    /** The patient stored under `id`, as a frame. */
    function PatientAt(id: string): set<Patient>
      reads this
    {
      if id in patients then {patients[id]} else {}
    }

    /** createBooking, step by step as the source runs it:
        1. an unknown provider dereferences null;
        2. a slot the provider does not offer (unknown, booked, or the provider is
           inactive) is refused before anything changes;
        3. the booking counter advances, and a time before `now` is refused;
        4. the slot is claimed (by the booking's constructor);
        5. an unknown patient dereferences null, and the patient may refuse the booking
           (inactive, or a BOOKED booking at the same time), in which case the claimed
           slot stays booked and the booking is not stored;
        6. otherwise the booking is appended to the patient's list and stored. */
    method CreateBooking(patientId: string, physiotherapistId: string, treatmentName: string,
                         dateTime: DateTime, now: DateTime, stamp: string)
      returns (r: Result<Booking>)
      requires |stamp| == 8
      modifies this`bookings, ids`bookingCounter, ProviderAt(physiotherapistId)`timetable,
               PatientAt(patientId)`bookings
      ensures r.Err? ==> bookings == old(bookings)
      ensures r.Err? && patientId in patients ==>
        patients[patientId].bookings == old(patients[patientId].bookings)
      ensures physiotherapistId !in physiotherapists ==>
        r == Err(NullReference) && ids.bookingCounter == old(ids.bookingCounter)
      ensures physiotherapistId in physiotherapists ==>
        var p := physiotherapists[physiotherapistId];
        && (!old(p.IsAvailable(dateTime)) ==>
              r == Err(NotAvailableAtThisTime) && ids.bookingCounter == old(ids.bookingCounter)
              && p.timetable == old(p.timetable))
        && (old(p.IsAvailable(dateTime)) ==> ids.bookingCounter == old(ids.bookingCounter) + 1)
        && (old(p.IsAvailable(dateTime)) && Before(dateTime, now) ==>
              r == Err(DateInPast) && p.timetable == old(p.timetable))
        && (old(p.IsAvailable(dateTime)) && !Before(dateTime, now) ==>
              p.timetable == Put(old(p.timetable), dateTime, false))
      ensures physiotherapistId in physiotherapists && old(physiotherapists[physiotherapistId].IsAvailable(dateTime))
              && !Before(dateTime, now) ==>
        && (patientId !in patients ==> r == Err(NullReference))
        && (patientId in patients ==>
              var patient := patients[patientId];
              && (!patient.active ==> r == Err(InactivePatient) && patient.bookings == old(patient.bookings))
              && (patient.active && old(AnyBookedAt(patient.bookings, dateTime)) ==>
                    r == Err(OverlappingBooking) && patient.bookings == old(patient.bookings))
              && (patient.active && !old(AnyBookedAt(patient.bookings, dateTime)) ==>
                    r.Ok? && patient.bookings == old(patient.bookings) + [r.value]))
      ensures r.Ok? ==>
        var b := r.value;
        && fresh(b) && fresh(b.treatment) && b.status == Booked && b.bookingTime == now
        && b.id == FormatId(BOOKING_PREFIX, stamp, old(ids.bookingCounter))
        && patientId in patients && b.patient == patients[patientId]
        && physiotherapistId in physiotherapists && b.treatment.physiotherapist == physiotherapists[physiotherapistId]
        && b.treatment.name == treatmentName && b.treatment.dateTime == dateTime && b.treatment.booked
        && bookings == old(bookings)[b.id := b]
      ensures old(Valid()) && r.Ok? ==> r.value.id !in old(bookings)
      ensures old(Valid()) ==> Valid()
    {
      var patient: Patient? := if patientId in patients then patients[patientId] else null;
      if physiotherapistId !in physiotherapists {
        return Err(NullReference);
      }
      var p := physiotherapists[physiotherapistId];
      if !p.IsAvailable(dateTime) {
        return Err(NotAvailableAtThisTime);
      }
      r := BookSlot(patient, p, treatmentName, dateTime, now, stamp);
      if old(Valid()) {
        if r.Ok? {
          StoringKeepsValid(this, r.value.id, r.value, p, dateTime);
        } else {
          OccupyingKeepsValid(this, p);
        }
      }
    }

    /** createBooking once the provider is known to offer the slot: a new id, then the
        treatment, the claim and the patient's decision as `Admit` states them, and the
        booking stored when the patient accepts it. */
    method BookSlot(patient: Patient?, p: Physiotherapist, treatmentName: string,
                    dateTime: DateTime, now: DateTime, stamp: string)
      returns (r: Result<Booking>)
      requires |stamp| == 8 && p.IsAvailable(dateTime)
      requires p in physiotherapists.Values
      modifies this`bookings, ids`bookingCounter, p`timetable, (if patient == null then {} else {patient})`bookings
      ensures ids.bookingCounter == old(ids.bookingCounter) + 1
      ensures Before(dateTime, now) ==> r == Err(DateInPast) && p.timetable == old(p.timetable)
      ensures !Before(dateTime, now) ==> p.timetable == Put(old(p.timetable), dateTime, false)
      ensures !Before(dateTime, now) && patient == null ==> r == Err(NullReference)
      ensures !Before(dateTime, now) && patient != null ==>
        && (!patient.active ==> r == Err(InactivePatient) && patient.bookings == old(patient.bookings))
        && (patient.active && old(AnyBookedAt(patient.bookings, dateTime)) ==>
              r == Err(OverlappingBooking) && patient.bookings == old(patient.bookings))
        && (patient.active && !old(AnyBookedAt(patient.bookings, dateTime)) ==>
              r.Ok? && patient.bookings == old(patient.bookings) + [r.value])
      ensures r.Err? ==> bookings == old(bookings)
      ensures r.Err? && patient != null ==> patient.bookings == old(patient.bookings)
      ensures r.Ok? ==>
        var b := r.value;
        && fresh(b) && fresh(b.treatment) && b.status == Booked && b.bookingTime == now
        && b.id == FormatId(BOOKING_PREFIX, stamp, old(ids.bookingCounter))
        && b.patient == patient && b.treatment.physiotherapist == p
        && b.treatment.name == treatmentName && b.treatment.dateTime == dateTime && b.treatment.booked
        && bookings == old(bookings)[b.id := b]
      ensures r.Ok? ==> IdNumber(BOOKING_PREFIX, r.value.id) == old(ids.bookingCounter)
    {
      var bookingId := ids.GenerateBookingId(stamp);
      IdNumberOfFormat(BOOKING_PREFIX, stamp, old(ids.bookingCounter));
      r := Admit(bookingId, patient, p, treatmentName, dateTime, now);
      if r.Ok? {
        bookings := bookings[bookingId := r.value];
      }
    }

    /** modifyBooking: refuses an unknown booking, then an unknown or inactive provider,
        then a slot the provider does not offer (which includes the booking's own current
        slot), then a time before `now`, then a booking that is not BOOKED; otherwise the
        old slot is freed and the booking moves to a new treatment on the requested slot.
        The patient's other bookings play no part: there is no overlap check. */
    method ModifyBooking(bookingId: string, physiotherapistId: string, treatmentName: string,
                         dateTime: DateTime, now: DateTime)
      returns (o: Outcome)
      modifies BookingAt(bookingId)`treatment, BookingProviderAt(bookingId)`timetable
      modifies ProviderAt(physiotherapistId)`timetable
      ensures bookingId !in bookings ==> o == Fail(BookingNotFound)
      ensures bookingId in bookings && GetPhysiotherapist(physiotherapistId).Err? ==>
        o == Fail(GetPhysiotherapist(physiotherapistId).error)
      ensures bookingId in bookings && GetPhysiotherapist(physiotherapistId).Ok? ==>
        var b := bookings[bookingId];
        var p := physiotherapists[physiotherapistId];
        && (!old(p.IsAvailable(dateTime)) ==> o == Fail(NotAvailableAtThisTime))
        && (old(p.IsAvailable(dateTime)) && Before(dateTime, now) ==> o == Fail(DateInPast))
        && (old(p.IsAvailable(dateTime)) && !Before(dateTime, now) && old(b.status) != Booked ==>
              o == Fail(NotInState(Booked)))
      ensures o.Pass? <==>
        && bookingId in bookings && GetPhysiotherapist(physiotherapistId).Ok?
        && old(physiotherapists[physiotherapistId].IsAvailable(dateTime)) && !Before(dateTime, now)
        && old(bookings[bookingId].status) == Booked
      ensures o.Fail? && bookingId in bookings ==>
        var b := bookings[bookingId];
        && b.treatment == old(b.treatment)
        && b.treatment.physiotherapist.timetable == old(b.treatment.physiotherapist.timetable)
      ensures o.Fail? && physiotherapistId in physiotherapists ==>
        physiotherapists[physiotherapistId].timetable == old(physiotherapists[physiotherapistId].timetable)
      ensures o.Pass? ==>
        var b := bookings[bookingId];
        var p := physiotherapists[physiotherapistId];
        var p0 := old(b.treatment).physiotherapist;
        var t0 := old(b.treatment).dateTime;
        && b.status == Booked && fresh(b.treatment) && b.treatment.booked
        && b.treatment.physiotherapist == p && b.treatment.dateTime == dateTime
        && b.treatment.name == treatmentName
        && (p != p0 ==> p0.timetable == Release(old(p0.timetable), t0)
                        && p.timetable == Put(old(p.timetable), dateTime, false))
        && (p == p0 ==> p.timetable == Put(Release(old(p.timetable), t0), dateTime, false))
      ensures old(Valid()) && bookingId in bookings && old(bookings[bookingId].status) == Booked &&
              physiotherapistId in physiotherapists &&
              old(SlotOf(bookings[bookingId])) == (physiotherapists[physiotherapistId], dateTime) ==>
        o.Fail?
      ensures old(Valid()) ==> Valid()
    {
      var found := GetBooking(bookingId);
      if found.Err? {
        return Fail(found.error);
      }
      var booking := found.value;
      var provider := GetPhysiotherapist(physiotherapistId);
      if provider.Err? {
        return Fail(provider.error);
      }
      var p := provider.value;
      if !p.IsAvailable(dateTime) {
        return Fail(NotAvailableAtThisTime);
      }
      ghost var p0, t0 := booking.treatment.physiotherapist, booking.treatment.dateTime;
      o := Move(booking, p, treatmentName, dateTime, now);
      if old(Valid()) {
        if o.Pass? {
          MovingKeepsValid(this, bookingId, p0, t0, p, dateTime);
        } else {
          OccupyingKeepsValid(this, p);
        }
      }
    }

    /** getPhysiotherapistBookings: the stored bookings, visited in the table's iteration
        order `order`, grouped by their current provider (identified by id). A provider
        has a group exactly when one of the stored bookings is its, and its group holds
        exactly those bookings. */
    function PhysiotherapistBookings(order: seq<string>): (g: map<string, seq<Booking>>)
      reads this, bookings.Values
      requires Reports.IsOrderOf(order, bookings.Keys)
      ensures forall pid :: pid in g ==> exists x :: x in bookings.Values && Reports.ProviderId(x) == pid
      ensures forall pid, x :: pid in g && x in g[pid] ==> x in bookings.Values && Reports.ProviderId(x) == pid
      ensures forall x :: x in bookings.Values ==> Reports.ProviderId(x) in g && x in g[Reports.ProviderId(x)]
    {
      var vs := Reports.ValuesInOrder(bookings, order);
      Reports.ValuesInOrderMembers(bookings, order);
      Reports.GroupMembers(vs);
      Reports.GroupBy(vs)
    }

    /** getPhysiotherapistByAttendedBookings: the attended counts (entries visited in the
        count table's iteration order `countOrder`) sorted by count from the highest down.
        An entry is ranked exactly when it pairs a provider with its number of ATTENDED
        bookings and that number is at least one; each provider appears once. */
    function AttendedRanking(order: seq<string>, countOrder: seq<string>): (r: seq<(string, nat)>)
      reads this, bookings.Values
      requires Reports.IsOrderOf(order, bookings.Keys)
      requires Reports.IsOrderOf(countOrder, Reports.CountAttended(Reports.ValuesInOrder(bookings, order)).Keys)
      ensures Reports.NonIncreasing(r) && Reports.DistinctKeys(r)
      ensures forall e :: e in r <==> e.1 >= 1 && e.1 == Reports.AttendedCount(Reports.ValuesInOrder(bookings, order), e.0)
    {
      var counts := Reports.CountAttended(Reports.ValuesInOrder(bookings, order));
      Reports.RankEntries(counts, countOrder);
      Reports.Rank(counts, countOrder)
    }
  }

  /** The same request twice: once the first has been stored, the second is refused
      as "not available" and the booking counter does not move again. */
  method CreateTwice(c: Clinic, patientId: string, physiotherapistId: string, treatmentName: string,
                     dateTime: DateTime, now: DateTime, stamp: string)
    returns (first: Result<Booking>, second: Result<Booking>)
    requires |stamp| == 8
    modifies c`bookings, c.ids`bookingCounter, c.ProviderAt(physiotherapistId)`timetable,
             c.PatientAt(patientId)`bookings
    ensures first.Ok? ==> second == Err(NotAvailableAtThisTime)
    ensures first.Ok? ==> c.bookings == old(c.bookings)[first.value.id := first.value]
    ensures first.Ok? ==> c.ids.bookingCounter == old(c.ids.bookingCounter) + 1
    ensures first.Ok? && patientId in c.patients ==>
      c.patients[patientId].bookings == old(c.patients[patientId].bookings) + [first.value]
  {
    first := c.CreateBooking(patientId, physiotherapistId, treatmentName, dateTime, now, stamp);
    second := c.CreateBooking(patientId, physiotherapistId, treatmentName, dateTime, now, stamp);
  }

  /** A request that meets every condition succeeds: a known provider who offers the
      slot, a time not before `now`, and a known, active patient with no BOOKED booking
      at that time. The booking is stored and holds the requested slot. */
  method CreateSucceeds(c: Clinic, patientId: string, providerId: string, treatmentName: string,
                        dateTime: DateTime, now: DateTime, stamp: string)
    returns (r: Result<Booking>)
    requires |stamp| == 8 && !Before(dateTime, now)
    requires providerId in c.physiotherapists && c.physiotherapists[providerId].IsAvailable(dateTime)
    requires patientId in c.patients && c.patients[patientId].active
    requires !AnyBookedAt(c.patients[patientId].bookings, dateTime)
    modifies c`bookings, c.ids`bookingCounter, c.ProviderAt(providerId)`timetable,
             c.PatientAt(patientId)`bookings
    ensures r.Ok? && r.value.treatment.dateTime == dateTime
    ensures r.value.treatment.physiotherapist == c.physiotherapists[providerId]
    ensures r.value.patient == c.patients[patientId] && r.value.status == Booked
    ensures c.bookings == old(c.bookings)[r.value.id := r.value]
  {
    r := c.CreateBooking(patientId, providerId, treatmentName, dateTime, now, stamp);
  }

  /** Two patients can book the same time with two different providers: each request
      only touches its own provider's timetable and its own patient's list. */
  method SameTimeDifferentProviders(c: Clinic, patient1: string, patient2: string,
                                    provider1: string, provider2: string, treatmentName: string,
                                    dateTime: DateTime, now: DateTime, stamp: string)
    returns (first: Result<Booking>, second: Result<Booking>)
    requires |stamp| == 8 && !Before(dateTime, now)
    requires provider1 in c.physiotherapists && provider2 in c.physiotherapists
    requires c.physiotherapists[provider1] != c.physiotherapists[provider2]
    requires c.physiotherapists[provider1].IsAvailable(dateTime)
    requires c.physiotherapists[provider2].IsAvailable(dateTime)
    requires patient1 in c.patients && patient2 in c.patients && c.patients[patient1] != c.patients[patient2]
    requires c.patients[patient1].active && !AnyBookedAt(c.patients[patient1].bookings, dateTime)
    requires c.patients[patient2].active && !AnyBookedAt(c.patients[patient2].bookings, dateTime)
    modifies c`bookings, c.ids`bookingCounter, c.ProviderAt(provider1)`timetable,
             c.PatientAt(patient1)`bookings, c.ProviderAt(provider2)`timetable, c.PatientAt(patient2)`bookings
    ensures first.Ok? && second.Ok?
    ensures first.value.treatment.dateTime == second.value.treatment.dateTime == dateTime
    ensures first.value.treatment.physiotherapist != second.value.treatment.physiotherapist
  {
    first := CreateSucceeds(c, patient1, provider1, treatmentName, dateTime, now, stamp);
    second := CreateSucceeds(c, patient2, provider2, treatmentName, dateTime, now, stamp);
  }

  /** The part of modifyBooking after the availability check: the new treatment is
      made (refusing a time before `now`) and the booking changes to it. */
  method Move(booking: Booking, p: Physiotherapist, treatmentName: string, dateTime: DateTime, now: DateTime)
    returns (o: Outcome)
    requires p.IsAvailable(dateTime)
    modifies booking`treatment, booking.treatment.physiotherapist`timetable, p`timetable
    ensures booking.status == old(booking.status)
    ensures Before(dateTime, now) ==> o == Fail(DateInPast)
    ensures !Before(dateTime, now) && old(booking.status) != Booked ==> o == Fail(NotInState(Booked))
    ensures o.Pass? <==> !Before(dateTime, now) && old(booking.status) == Booked
    ensures o.Fail? ==>
      && booking.treatment == old(booking.treatment)
      && booking.treatment.physiotherapist.timetable == old(booking.treatment.physiotherapist.timetable)
      && p.timetable == old(p.timetable)
    ensures o.Pass? ==>
      var p0 := old(booking.treatment).physiotherapist;
      var t0 := old(booking.treatment).dateTime;
      && fresh(booking.treatment) && booking.treatment.booked
      && booking.treatment.physiotherapist == p && booking.treatment.dateTime == dateTime
      && booking.treatment.name == treatmentName
      && (p != p0 ==> p0.timetable == Release(old(p0.timetable), t0)
                      && p.timetable == Put(old(p.timetable), dateTime, false))
      && (p == p0 ==> p.timetable == Put(Release(old(p.timetable), t0), dateTime, false))
  {
    var made := NewTreatment(Some(treatmentName), p, Some(dateTime), now);
    if made.Err? {
      return Fail(made.error);
    }
    o := booking.ChangeBooking(made.value, now);
  }

  /** The part of createBooking after the availability check and the id: the treatment
      is made (refusing a time before `now`), the booking's constructor claims the slot,
      and the patient then accepts or refuses the booking. */
  method Admit(bookingId: string, patient: Patient?, p: Physiotherapist, treatmentName: string,
               dateTime: DateTime, now: DateTime)
    returns (r: Result<Booking>)
    requires p.IsAvailable(dateTime)
    modifies p`timetable, (if patient == null then {} else {patient})`bookings
    ensures Before(dateTime, now) ==> r == Err(DateInPast) && p.timetable == old(p.timetable)
    ensures !Before(dateTime, now) ==> p.timetable == Put(old(p.timetable), dateTime, false)
    ensures !Before(dateTime, now) && patient == null ==> r == Err(NullReference)
    ensures !Before(dateTime, now) && patient != null ==>
      && (!patient.active ==> r == Err(InactivePatient) && patient.bookings == old(patient.bookings))
      && (patient.active && old(AnyBookedAt(patient.bookings, dateTime)) ==>
            r == Err(OverlappingBooking) && patient.bookings == old(patient.bookings))
      && (patient.active && !old(AnyBookedAt(patient.bookings, dateTime)) ==>
            r.Ok? && patient.bookings == old(patient.bookings) + [r.value])
    ensures r.Err? && patient != null ==> patient.bookings == old(patient.bookings)
    ensures r.Ok? ==>
      var b := r.value;
      && fresh(b) && fresh(b.treatment) && b.status == Booked && b.bookingTime == now
      && b.id == bookingId && b.patient == patient && b.treatment.physiotherapist == p
      && b.treatment.name == treatmentName && b.treatment.dateTime == dateTime && b.treatment.booked
  {
    var made := NewTreatment(Some(treatmentName), p, Some(dateTime), now);
    if made.Err? {
      return Err(made.error);
    }
    var treatment := made.value;
    var created := NewBooking(bookingId, patient, treatment, now);
    assert created.Ok?;
    var booking := created.value;
    if patient == null {
      return Err(NullReference);
    }
    var added := patient.AddBooking(booking);
    if added.Fail? {
      return Err(added.error);
    }
    r := Ok(booking);
  }

  /** Storing a new BOOKED booking that has just claimed a slot which was free keeps the
      clinic's invariant: no stored BOOKED booking can have held that slot, and claiming
      it changed no other flag. */
  twostate lemma StoringKeepsValid(c: Clinic, new id: string, new b: Booking, new p: Physiotherapist, new t: DateTime)
    requires old(c.Valid()) && old(allocated(p))
    requires fresh(b) && b.id == id && b.status == Booked && SlotOf(b) == (p, t)
    requires old(IsFree(p.timetable, t)) && p.timetable == Put(old(p.timetable), t, false)
    requires c.bookings == old(c.bookings)[id := b]
    requires c.patients == old(c.patients) && c.physiotherapists == old(c.physiotherapists)
    requires IdNumber(BOOKING_PREFIX, id) < c.ids.bookingCounter
    requires c.ids.bookingCounter >= old(c.ids.bookingCounter)
    requires c.ids.patientCounter == old(c.ids.patientCounter)
    requires c.ids.physiotherapistCounter == old(c.ids.physiotherapistCounter)
    requires forall x :: x in old(c.bookings).Values ==> x.status == old(x.status) && x.treatment == old(x.treatment)
    requires forall q :: q in old(c.BookedProviders()) && q != p ==> q.timetable == old(q.timetable)
    ensures c.Valid()
  {
    forall k | k in c.bookings && c.bookings[k].status == Booked
      ensures HoldsSlot(c.bookings[k])
    {
      if k != id {
        var x := c.bookings[k];
        assert x in old(c.bookings).Values;
        assert old(HoldsSlot(x));
        OccupyAddsOne(old(p.timetable), t);
      }
    }
    forall k, k' | k in c.bookings && k' in c.bookings && k != k' &&
                   c.bookings[k].status == Booked && c.bookings[k'].status == Booked
      ensures SlotOf(c.bookings[k]) != SlotOf(c.bookings[k'])
    {
      if k == id || k' == id {
        var x := if k == id then c.bookings[k'] else c.bookings[k];
        assert x in old(c.bookings).Values;
        assert old(HoldsSlot(x));
      } else {
        assert c.bookings[k] in old(c.bookings).Values && c.bookings[k'] in old(c.bookings).Values;
      }
    }
  }

  /** Occupying more slots of one provider, with the tables unchanged, keeps the
      clinic's invariant: this covers a slot claimed and then orphaned. */
  twostate lemma OccupyingKeepsValid(c: Clinic, new p: Physiotherapist)
    requires old(c.Valid()) && old(allocated(p))
    requires c.bookings == old(c.bookings) && c.patients == old(c.patients)
    requires c.physiotherapists == old(c.physiotherapists)
    requires c.ids.bookingCounter >= old(c.ids.bookingCounter)
    requires c.ids.patientCounter == old(c.ids.patientCounter)
    requires c.ids.physiotherapistCounter == old(c.ids.physiotherapistCounter)
    requires Occupied(old(p.timetable)) <= Occupied(p.timetable)
    requires forall x :: x in old(c.bookings).Values ==> x.status == old(x.status) && x.treatment == old(x.treatment)
    requires forall q :: q in old(c.BookedProviders()) && q != p ==> q.timetable == old(q.timetable)
    ensures c.Valid()
  {
    forall k | k in c.bookings && c.bookings[k].status == Booked
      ensures HoldsSlot(c.bookings[k])
    {
      var x := c.bookings[k];
      assert x in old(c.bookings).Values;
      assert old(HoldsSlot(x));
      assert old(c.bookings[k].treatment.physiotherapist) in old(c.BookedProviders());
    }
    forall k, k' | k in c.bookings && k' in c.bookings && k != k' &&
                   c.bookings[k].status == Booked && c.bookings[k'].status == Booked
      ensures SlotOf(c.bookings[k]) != SlotOf(c.bookings[k'])
    {
      assert c.bookings[k] in old(c.bookings).Values && c.bookings[k'] in old(c.bookings).Values;
    }
  }

  /** Moving a BOOKED booking from its slot to a slot that was free keeps the clinic's
      invariant: the old slot was held by that booking alone, and only the two flags
      concerned change. */
  twostate lemma MovingKeepsValid(c: Clinic, new id: string, new p0: Physiotherapist, new t0: DateTime,
                                  new p: Physiotherapist, new t: DateTime)
    requires old(c.Valid()) && old(allocated(p)) && old(allocated(p0))
    requires c.bookings == old(c.bookings) && c.patients == old(c.patients)
    requires c.physiotherapists == old(c.physiotherapists) && unchanged(c.ids)
    requires id in c.bookings
    requires old(c.bookings[id].status) == Booked && c.bookings[id].status == Booked
    requires old(SlotOf(c.bookings[id])) == (p0, t0) && SlotOf(c.bookings[id]) == (p, t)
    requires old(IsFree(p.timetable, t))
    requires p != p0 ==> p0.timetable == Release(old(p0.timetable), t0) && p.timetable == Put(old(p.timetable), t, false)
    requires p == p0 ==> p.timetable == Put(Release(old(p.timetable), t0), t, false)
    requires forall x :: x in old(c.bookings).Values && x != c.bookings[id] ==>
      x.status == old(x.status) && x.treatment == old(x.treatment)
    requires forall q :: q in old(c.BookedProviders()) && q != p && q != p0 ==> q.timetable == old(q.timetable)
    ensures c.Valid()
  {
    MovingKeepsHolding(c, id, p0, t0, p, t);
    MovingKeepsDistinct(c, id, p, t);
  }

  twostate lemma MovingKeepsHolding(c: Clinic, new id: string, new p0: Physiotherapist, new t0: DateTime,
                                    new p: Physiotherapist, new t: DateTime)
    requires old(c.Valid()) && old(allocated(p)) && old(allocated(p0))
    requires c.bookings == old(c.bookings) && c.patients == old(c.patients)
    requires c.physiotherapists == old(c.physiotherapists) && unchanged(c.ids)
    requires id in c.bookings
    requires old(c.bookings[id].status) == Booked && c.bookings[id].status == Booked
    requires old(SlotOf(c.bookings[id])) == (p0, t0) && SlotOf(c.bookings[id]) == (p, t)
    requires old(IsFree(p.timetable, t))
    requires p != p0 ==> p0.timetable == Release(old(p0.timetable), t0) && p.timetable == Put(old(p.timetable), t, false)
    requires p == p0 ==> p.timetable == Put(Release(old(p.timetable), t0), t, false)
    requires forall x :: x in old(c.bookings).Values && x != c.bookings[id] ==>
      x.status == old(x.status) && x.treatment == old(x.treatment)
    requires forall q :: q in old(c.BookedProviders()) && q != p && q != p0 ==> q.timetable == old(q.timetable)
    ensures c.BookedHoldSlots()
  {
    var b := c.bookings[id];
    assert old(HoldsSlot(b));
    forall k | k in c.bookings && c.bookings[k].status == Booked
      ensures HoldsSlot(c.bookings[k])
    {
      if k != id {
        var x := c.bookings[k];
        assert x in old(c.bookings).Values;
        assert old(HoldsSlot(x));
        assert old(x.treatment.physiotherapist) in old(c.BookedProviders());
      }
    }
  }

  twostate lemma MovingKeepsDistinct(c: Clinic, new id: string, new p: Physiotherapist, new t: DateTime)
    requires old(c.Valid()) && old(allocated(p))
    requires c.bookings == old(c.bookings)
    requires id in c.bookings
    requires c.bookings[id].status == Booked && SlotOf(c.bookings[id]) == (p, t)
    requires old(IsFree(p.timetable, t))
    requires forall x :: x in old(c.bookings).Values && x != c.bookings[id] ==>
      x.status == old(x.status) && x.treatment == old(x.treatment)
    ensures c.NoSharedSlots()
  {
    forall k, k' | k in c.bookings && k' in c.bookings && k != k' &&
                   c.bookings[k].status == Booked && c.bookings[k'].status == Booked
      ensures SlotOf(c.bookings[k]) != SlotOf(c.bookings[k'])
    {
      if k == id || k' == id {
        var x := if k == id then c.bookings[k'] else c.bookings[k];
        assert x in old(c.bookings).Values;
        assert old(HoldsSlot(x));
      } else {
        assert c.bookings[k] in old(c.bookings).Values && c.bookings[k'] in old(c.bookings).Values;
      }
    }
  }
}
