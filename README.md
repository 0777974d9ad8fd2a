# BPC Clinic: slot allocation and booking lifecycle, modelled in Dafny

This project models the booking core of the Boost Physio Clinic (BPC) system and proves
properties of that model. The core has five parts:

- **Providers** (`Physiotherapists`). A physiotherapist owns a timetable, an ordered map
  from slot time to a free/booked flag. The timetable is generated once: every hour
  from 9:00 to 16:00 on each weekday of the thirty days starting 2025-06-01. A provider
  also has an active flag. Providers claim and free slots, and answer availability
  queries.
- **Treatments** (`Treatments`). A treatment binds a name, a provider and a time. It is
  validated when it is made. Marking it booked claims that provider's slot, and marking
  it unbooked releases the slot.
- **Bookings and patients** (`Bookings`). A booking is BOOKED when created. It moves once
  to CANCELLED or ATTENDED, and while BOOKED it can swap its treatment. A patient keeps an
  append-only list of bookings. The patient refuses a new booking while inactive, or when
  a BOOKED booking already sits at the same time. A patient cannot be deactivated while
  it holds a BOOKED booking.
- **The clinic** (`ClinicSystem`). It keeps id-keyed tables of patients, providers and
  bookings. Its operations are add patient, add provider, create, cancel, attend and
  modify a booking, plus two report queries (`Reports`): bookings grouped by provider,
  and providers ranked by attended count. Ids come from per-kind counters (`Ids`).
- **The older copy of the model classes** (`Legacy`, package `main.java.com.bpc.model`).
  It behaves differently from the main classes: a 28-day timetable without a weekend
  skip, no active flag, no release of slots, an inverted cancel guard and a
  `changeBooking` that keeps the old treatment.

Shared building blocks:

- `Time`: local date-times, with the day counted from 2025-06-01, a Sunday.
- `Timetables`: the sorted timetable, as a key sequence plus a flag map.
- `Outcomes`: one error constructor per throw site, with its message and exception class.
- `BookingStatus`: the status enum.

Exceptions are modelled as returned `Outcome`/`Result` values. Where Java throws part-way
through an operation, the state changes made before the throw are kept, as in the source.
Examples are the slot orphaned by a refused `createBooking` and the old slot freed by a
failed `changeBooking`.

The clinic keeps an invariant, `ClinicSystem.Clinic.Valid`, with three parts:

- every entry is stored under its own id, and no stored id carries a sequence number the
  counters have not handed out yet, so each generated id is new;
- every BOOKED booking holds its slot, i.e. the slot is occupied in its provider's
  timetable;
- no two BOOKED bookings hold the same slot of the same provider.

Every state-changing clinic operation is proved to preserve `Valid`.

## Model

| member | source | states |
|---|---|---|
| Time.Before | src/com/bpc/model/BPC_Treatment.java:26 | `isBefore`: an earlier date is always before, and a date-time is before another only when it is a different one on the same or an earlier day |
| Time.BeforeIsStrictTotalOrder | src/com/bpc/model/BPC_Treatment.java:26 | `isBefore` on date-times is irreflexive, transitive, asymmetric and total on distinct values |
| Time.DayOfWeek | src/com/bpc/model/BPC_Physiotherapist.java:42 | the ISO weekday (1 = Monday … 7 = Sunday) of a day number, with day 0 (2025-06-01) a Sunday |
| Time.IsWeekend | src/com/bpc/model/BPC_Physiotherapist.java:42 | `getDayOfWeek().getValue() >= 6`: a day counted from Sunday 2025-06-01 is skipped exactly when it falls on a Saturday or a Sunday of that calendar (day number 6 or 0 mod 7) |
| Time.DayOfWeekNext | src/com/bpc/model/BPC_Physiotherapist.java:39-42 | consecutive days have consecutive weekdays, with Monday following Sunday |
| Time.DateTime.PlusDays | src/com/bpc/model/BPC_Physiotherapist.java:39 | plusDays moves the date by `n` days and keeps the clock time |
| Time.DateTime.WithHour | src/com/bpc/model/BPC_Physiotherapist.java:48 | withHour sets the hour and keeps the date, minute, second and nanosecond |
| Time.DateTime.WithMinute | src/main/java/com/bpc/model/BPC_Physiotherapist.java:27 | withMinute sets the minute and keeps the date, hour, second and nanosecond |
| Outcomes.Error.Message | src/com/bpc/model/BPC_Treatment.java:19-59 | the message attached at every throw site of the core (in BPC_Treatment, BPC_Physiotherapist, BPC_Booking and BPC_Clinic, and in the older copy's BPC_Treatment, BPC_Physiotherapist, BPC_Booking and BPC_Patient); every explicit throw has a non-empty message, and only the null dereference has none |
| Outcomes.Error.Class | src/com/bpc/model/BPC_Treatment.java:19-59 | the exception class at every throw site of the core (the same classes as for `Message`, not only the one cited): IllegalStateException exactly for the state checks (provider not available, slot not available, booking in the past, wrong booking state, not available at this time), NullPointerException exactly for the null dereference, IllegalArgumentException otherwise |
| Timetables.Empty | src/com/bpc/model/BPC_Physiotherapist.java:29 | `new TreeMap<>()` has no keys and no entries |
| Timetables.InsertKey | src/com/bpc/model/BPC_Physiotherapist.java:48 | inserting a new key into a TreeMap's ascending key list keeps it ascending, adds exactly that key and lengthens it by one |
| Timetables.Put | src/com/bpc/model/BPC_Physiotherapist.java:75 | TreeMap.put sets the flag of `k` and leaves the order intact; only a new key adds an entry |
| Timetables.GetOrDefault | src/com/bpc/model/BPC_Physiotherapist.java:65 | getOrDefault returns the stored flag of a key and the default for a missing key |
| Timetables.Release | src/com/bpc/model/BPC_Physiotherapist.java:78-82 | freeing marks a known slot free, keeps the key order, and changes nothing for an unknown time |
| Timetables.FreeIn | src/com/bpc/model/BPC_Physiotherapist.java:58-61 | the filter over the entries keeps exactly the free keys, and keeps them in ascending order |
| Timetables.FreeKeys | src/com/bpc/model/BPC_Physiotherapist.java:58-61 | the free keys of a timetable, ascending, and nothing else |
| Timetables.AscendingIsUnique | src/com/bpc/model/BPC_Physiotherapist.java:58-61 | two ascending lists with the same elements are equal, so the free-slot list is determined by the free set |
| Timetables.OccupyAddsOne | src/com/bpc/model/BPC_Physiotherapist.java:75 | booking a free slot adds exactly that slot to the occupied set, so the occupied set grows by one |
| Timetables.ReleaseRemovesOne | src/com/bpc/model/BPC_Physiotherapist.java:78-82 | freeing a booked slot removes exactly that slot from the occupied set |
| Timetables.ReleaseIdempotent | src/com/bpc/model/BPC_Physiotherapist.java:78-82 | freeing never adds keys, and freeing twice is freeing once |
| Timetables.ReleaseUndoesOccupy | src/com/bpc/model/BPC_Treatment.java:61-72 | booking a free slot and then freeing it gives back the original timetable |
| Physiotherapists.InitializeTimetable | src/com/bpc/model/BPC_Physiotherapist.java:28-52 | the generated keys are exactly the whole hours 9..16 of the non-weekend days among the 30 starting 2025-06-01, all free, 168 entries |
| Physiotherapists.WeekHasFiveWorkingDays | src/com/bpc/model/BPC_Physiotherapist.java:41-44 | each week from a Sunday has five days the weekend skip keeps |
| Physiotherapists.WorkingDaysInJune | src/com/bpc/model/BPC_Physiotherapist.java:35-44 | the 30 days from Sunday 2025-06-01 hold 21 working days |
| Physiotherapists.Physiotherapist.constructor | src/com/bpc/model/BPC_Physiotherapist.java:18-26 | a new provider is active, keeps its data, and every opening slot is free |
| Physiotherapists.Physiotherapist.AvailableAppointments | src/com/bpc/model/BPC_Physiotherapist.java:54-62 | empty while inactive; otherwise exactly the free slots, in ascending time order |
| Physiotherapists.Physiotherapist.IsAvailable | src/com/bpc/model/BPC_Physiotherapist.java:64-66 | available iff the provider is active and the time is a key whose flag is free; an unknown time is never available |
| Physiotherapists.Physiotherapist.AssignAppointment | src/com/bpc/model/BPC_Physiotherapist.java:68-76 | inactive or not-free slots throw with their own errors and change nothing; otherwise exactly that slot is booked, the keys are kept and the occupied set grows by that slot |
| Physiotherapists.Physiotherapist.FreeAppointment | src/com/bpc/model/BPC_Physiotherapist.java:78-82 | a known slot becomes free, every other flag and the key set are unchanged, and an unknown time is ignored |
| Physiotherapists.Physiotherapist.Deactivate | src/com/bpc/model/BPC_Physiotherapist.java:85-87 | only the active flag changes, and nothing is offered afterwards |
| Physiotherapists.Physiotherapist.Activate | src/com/bpc/model/BPC_Physiotherapist.java:89-91 | only the active flag changes, and the offered slots are the timetable's free keys |
| Physiotherapists.Physiotherapist.Equals | src/com/bpc/model/BPC_Physiotherapist.java:94-100 | two providers are equal iff the other is present and the ids are equal |
| Physiotherapists.AssignTwice | src/com/bpc/model/BPC_Physiotherapist.java:72-75 | assigning the same slot twice always fails the second time, and books the slot once if it was available |
| Physiotherapists.DeactivateThenActivate | src/com/bpc/model/BPC_Physiotherapist.java:85-91 | deactivating and reactivating leaves the timetable alone and offers the same free slots as before |
| Treatments.Treatment.constructor | src/com/bpc/model/BPC_Treatment.java:30-33 | the object made after the checks keeps name, provider and time and is not booked |
| Treatments.NewTreatment | src/com/bpc/model/BPC_Treatment.java:19-34 | a missing argument fails first, then a time strictly before `now`; success exactly otherwise, with a fresh unbooked treatment |
| Treatments.Treatment.IsAvailable | src/com/bpc/model/BPC_Treatment.java:41-43 | available iff not booked, the provider is active and the slot is free |
| Treatments.Treatment.MarkAsBooked | src/com/bpc/model/BPC_Treatment.java:51-63 | "already booked" whenever not available, then "in the past"; success exactly otherwise, setting the flag, occupying exactly the provider's slot and leaving it unavailable; a failure changes nothing |
| Treatments.Treatment.MarkAsUnbooked | src/com/bpc/model/BPC_Treatment.java:68-73 | a booked treatment clears its flag and frees its slot; an unbooked one changes nothing |
| Treatments.UnbookTwice | src/com/bpc/model/BPC_Treatment.java:68-73 | unbooking twice has the effect of unbooking once |
| Treatments.BookThenUnbook | src/com/bpc/model/BPC_Treatment.java:51-73 | booking then unbooking restores the provider's timetable |
| Bookings.Booking.constructor | src/com/bpc/model/BPC_Booking.java:12-17 | a booking starts BOOKED with the given id, patient, treatment and booking time |
| Bookings.NewBooking | src/com/bpc/model/BPC_Booking.java:12-19 | construction succeeds iff the treatment is available and not in the past; it then claims exactly the slot and books the treatment; otherwise it throws the treatment's error and changes nothing |
| Bookings.Booking.ValidateBookingStatus | src/com/bpc/model/BPC_Booking.java:21-25 | passes iff the status is the expected one; otherwise an IllegalStateException naming that state |
| Bookings.Booking.CancelBooking | src/com/bpc/model/BPC_Booking.java:27-32 | BOOKED becomes CANCELLED and the slot is freed, while the treatment's booked flag is left true; any other status throws and nothing changes |
| Bookings.Booking.Attend | src/com/bpc/model/BPC_Booking.java:34-37 | BOOKED becomes ATTENDED and the slot stays occupied; any other status throws and nothing changes |
| Bookings.Booking.ChangeBooking | src/com/bpc/model/BPC_Booking.java:39-45 | on BOOKED: the old slot is freed, the new treatment becomes current and is then booked, and the first two steps are kept when the booking of the new treatment fails, which throws "already booked" when the treatment is booked or its slot is not available and otherwise "in the past" for a past time; the status stays BOOKED; otherwise it throws and changes nothing |
| Bookings.AnyBookedAt | src/main/java/com/bpc/model/BPC_Patient.java:37-40 | true iff some listed booking is BOOKED at exactly that time |
| Bookings.AnyBooked | src/main/java/com/bpc/model/BPC_Patient.java:44-45 | true iff some listed booking is BOOKED |
| Bookings.Patient.constructor | src/main/java/com/bpc/model/BPC_Patient.java:15-23 | a new patient is active with no bookings |
| Bookings.Patient.HasOverlappingBooking | src/main/java/com/bpc/model/BPC_Patient.java:36-41 | true iff a BOOKED booking of the patient sits exactly at the new booking's time; cancelled and attended bookings do not count |
| Bookings.Patient.HasActiveBooking | src/main/java/com/bpc/model/BPC_Patient.java:43-46 | true iff some booking of the patient is BOOKED |
| Bookings.Patient.AddBooking | src/main/java/com/bpc/model/BPC_Patient.java:25-34 | inactive first, then overlap, each refused with the list unchanged; otherwise the booking is appended at the end, and no two BOOKED bookings end up at one time |
| Bookings.Patient.Deactivate | src/main/java/com/bpc/model/BPC_Patient.java:48-54 | refused with the flag unchanged while a booking is BOOKED; otherwise the patient becomes inactive |
| Bookings.Patient.Reactivate | src/main/java/com/bpc/model/BPC_Patient.java:56-59 | the patient is active afterwards, whatever it was before |
| Bookings.Patient.SetActive | src/main/java/com/bpc/model/BPC_Patient.java:68 | writes the flag with no booking guard |
| Bookings.CancelLastThenDeactivate | src/main/java/com/bpc/model/BPC_Patient.java:43-54 | once the only BOOKED booking is cancelled, the patient has no active booking and can be deactivated |
| Bookings.NoWayBack | src/com/bpc/model/BPC_Booking.java:21-45 | a CANCELLED or ATTENDED booking never returns to BOOKED: cancel, attend and change all fail and keep its status and treatment |
| Ids.DigitChar | src/main/java/com/bpc/util/BPC_IdGenerator.java:19 | an ASCII digit for each value below ten |
| Ids.Decimal | src/main/java/com/bpc/util/BPC_IdGenerator.java:19 | the decimal form of a number is a non-empty digit string |
| Ids.Pad4 | src/main/java/com/bpc/util/BPC_IdGenerator.java:19 | `%04d` gives a digit string of at least four characters |
| Ids.DecimalValue | src/main/java/com/bpc/util/BPC_IdGenerator.java:19 | reading the decimal form gives the number back |
| Ids.LeadingZeros | src/main/java/com/bpc/util/BPC_IdGenerator.java:19 | leading zeros do not change a digit string's value |
| Ids.Pad4Value | src/main/java/com/bpc/util/BPC_IdGenerator.java:19 | the padded sequence reads back as the counter value |
| Ids.DecimalLength | src/main/java/com/bpc/util/BPC_IdGenerator.java:19 | a number has at most k digits iff it is below 10^k |
| Ids.Pad4Length | src/main/java/com/bpc/util/BPC_IdGenerator.java:19 | the padded sequence has exactly four digits iff the counter is at most 9999 |
| Ids.FormatId | src/main/java/com/bpc/util/BPC_IdGenerator.java:17-19 | `String.format("PREFIX_%s_%s", timestamp, sequence)`: the prefix, `_`, the stamp, `_`, then at least four digits |
| Ids.Matches | src/main/java/com/bpc/util/BPC_IdGenerator.java:43-53 | `matches("PREFIX_\\d{8}_\\d{4}")` on the whole string: a matching id is 14 characters longer than its prefix, and after the prefix it has underscores exactly at the two separator positions |
| Ids.IsValidPatientId | src/main/java/com/bpc/util/BPC_IdGenerator.java:43-45 | a valid patient id has 17 characters and starts with `PAT_` |
| Ids.IsValidPhysiotherapistId | src/main/java/com/bpc/util/BPC_IdGenerator.java:47-49 | a valid provider id has 17 characters and starts with `PHY_` |
| Ids.IsValidBookingId | src/main/java/com/bpc/util/BPC_IdGenerator.java:51-53 | a valid booking id has 18 characters and starts with `BOOK_` |
| Ids.GeneratedIdValidity | src/main/java/com/bpc/util/BPC_IdGenerator.java:17-20 | a generated id passes its validator iff the date stamp has eight digits and the counter is at most 9999 |
| Ids.FormatIdInjective | src/main/java/com/bpc/util/BPC_IdGenerator.java:17-34 | ids of one kind and one stamp differ whenever their counter values differ |
| Ids.IdNumberOfFormat | src/main/java/com/bpc/util/BPC_IdGenerator.java:17-34 | the sequence number read back from a generated id is the counter value it was made from |
| Ids.KindsAreDisjoint | src/main/java/com/bpc/util/BPC_IdGenerator.java:43-53 | no string is a valid id of two kinds |
| Ids.IdGenerator.constructor | src/main/java/com/bpc/util/BPC_IdGenerator.java:8-10 | the three counters start at 1 |
| Ids.IdGenerator.GeneratePatientId | src/main/java/com/bpc/util/BPC_IdGenerator.java:17-21 | formats the current patient counter as PAT_stamp_seq and advances only that counter |
| Ids.IdGenerator.GeneratePhysiotherapistId | src/main/java/com/bpc/util/BPC_IdGenerator.java:24-28 | formats the current provider counter as PHY_stamp_seq and advances only that counter |
| Ids.IdGenerator.GenerateBookingId | src/main/java/com/bpc/util/BPC_IdGenerator.java:30-34 | formats the current booking counter as BOOK_stamp_seq and advances only that counter |
| Ids.IdGenerator.ResetCounters | src/main/java/com/bpc/util/BPC_IdGenerator.java:37-41 | all three counters are back at 1 |
| Ids.TwoBookingIds | src/main/java/com/bpc/util/BPC_IdGenerator.java:30-34 | two successive booking ids with one stamp differ |
| Ids.FirstPatientIdAfterReset | src/main/java/com/bpc/util/BPC_IdGenerator.java:16-21 | after a reset the first patient id on 2025-03-04 is PAT_20250304_0001, and it is valid |
| ClinicSystem.Clinic.constructor | src/com/bpc/system/BPC_Clinic.java:15-19 | a new clinic has empty tables and fresh counters, and satisfies the invariant |
| ClinicSystem.Clinic.AddPatient | src/com/bpc/system/BPC_Clinic.java:22-27 | exactly one new active patient without bookings is stored, under a generated id not used before; the other entries are unchanged and the invariant is kept |
| ClinicSystem.Clinic.AddPhysiotherapist | src/com/bpc/system/BPC_Clinic.java:30-35 | exactly one new active provider is stored, whose timetable keys are exactly the opening slots, all free and none occupied, under a generated id not used before; the invariant is kept |
| ClinicSystem.Clinic.GetPhysiotherapist | src/com/bpc/system/BPC_Clinic.java:142-151 | an unknown id is refused first, then an inactive provider; success exactly otherwise, with the stored provider |
| ClinicSystem.Clinic.GetBooking | src/com/bpc/system/BPC_Clinic.java:153-159 | an unknown id is refused with an IllegalArgumentException; otherwise the stored booking |
| ClinicSystem.Clinic.CancelBooking | src/com/bpc/system/BPC_Clinic.java:56-59 | an unknown id fails on the missing booking; otherwise the booking is cancelled as Booking.CancelBooking states and its slot is offered again; the invariant is kept |
| ClinicSystem.Clinic.AttendBooking | src/com/bpc/system/BPC_Clinic.java:61-64 | an unknown id fails on the missing booking; otherwise the booking is attended as Booking.Attend states; the invariant is kept |
| ClinicSystem.Clinic.CreateBooking | src/com/bpc/system/BPC_Clinic.java:38-54 | the checks in the source's order with each error; the counter advances once availability passes; every refusal leaves the booking table and the patient's list unchanged; a refusal by the patient leaves the claimed slot booked and stores nothing; success stores exactly one fresh BOOKED booking, which holds the slot and is appended to the patient's list; the invariant is kept |
| ClinicSystem.Clinic.BookSlot | src/com/bpc/system/BPC_Clinic.java:46-53 | the part of createBooking after the availability check: a new id, the claim, the patient's decision, and the booking stored only when the patient accepts it; a refusal leaves the booking table and the patient's list unchanged |
| ClinicSystem.Admit | src/com/bpc/system/BPC_Clinic.java:47-50 | the treatment is made, the slot is claimed by the booking's constructor, and only then does the patient accept or refuse, the slot staying claimed on refusal |
| ClinicSystem.Clinic.ModifyBooking | src/com/bpc/system/BPC_Clinic.java:66-75 | refusals in the source's order (unknown booking, unknown or inactive provider, slot not offered, time in the past, not BOOKED), each changing nothing; success moves the booking to a new treatment on the requested slot, freeing the old one, with no overlap check; moving onto its own current slot always fails; the invariant is kept |
| ClinicSystem.Move | src/com/bpc/system/BPC_Clinic.java:73-74 | the new treatment is made (refusing a past time) and the booking changes to it, freeing the old slot and claiming the new one |
| ClinicSystem.Clinic.PhysiotherapistBookings | src/com/bpc/system/BPC_Clinic.java:78-81 | the stored bookings partitioned by current provider: a provider has a group iff it has a booking, each group holds only its provider's bookings, and every booking is in its provider's group |
| ClinicSystem.Clinic.AttendedRanking | src/com/bpc/system/BPC_Clinic.java:83-92 | exactly the providers with at least one ATTENDED booking, each once with its exact attended count, in non-increasing count order |
| ClinicSystem.CreateTwice | src/com/bpc/system/BPC_Clinic.java:43-45 | repeating a request that succeeded is refused as "not available" and does not move the counter again; the patient's list gains exactly the first booking |
| ClinicSystem.CreateSucceeds | src/com/bpc/system/BPC_Clinic.java:38-54 | a request meeting every condition succeeds and stores a BOOKED booking for that patient, provider and time |
| ClinicSystem.SameTimeDifferentProviders | src/com/bpc/system/BPC_Clinic.java:38-54 | two patients can book the same time with two different providers |
| ClinicSystem.StoringKeepsValid | src/com/bpc/system/BPC_Clinic.java:48-51 | storing a new BOOKED booking on a slot that was free keeps the invariant |
| ClinicSystem.OccupyingKeepsValid | src/com/bpc/system/BPC_Clinic.java:48-50 | occupying more slots of one provider with unchanged tables (the orphaned slot) keeps the invariant |
| ClinicSystem.MovingKeepsValid | src/com/bpc/system/BPC_Clinic.java:70-74 | moving a BOOKED booking from its slot onto a slot that was free keeps the invariant |
| Reports.ValuesInOrder | src/com/bpc/system/BPC_Clinic.java:79 | the table's values in iteration order, one per key |
| Reports.ValuesInOrderMembers | src/com/bpc/system/BPC_Clinic.java:79 | the values visited in an iteration order are exactly the table's values |
| Reports.Filter | src/com/bpc/system/BPC_Clinic.java:80 | the bookings of one provider, taken from the input only |
| Reports.FilterPartitions | src/com/bpc/system/BPC_Clinic.java:80 | a provider's group keeps every occurrence of its own bookings and none of the others |
| Reports.FilterNonEmpty | src/com/bpc/system/BPC_Clinic.java:80 | a group is non-empty iff some booking has that provider |
| Reports.ProviderId | src/com/bpc/system/BPC_Clinic.java:79-80 | the groupingBy key: the provider of the booking's current treatment, identified by its id as the provider's equals and hashCode do |
| Reports.GroupBy | src/com/bpc/system/BPC_Clinic.java:79-80 | groupingBy: a key for each provider with a booking and no other, mapped to that provider's bookings in encounter order |
| Reports.GroupMembers | src/com/bpc/system/BPC_Clinic.java:79-80 | grouping loses no booking and puts each in its own provider's group |
| Reports.AttendedBookings | src/com/bpc/system/BPC_Clinic.java:85 | the filter keeps exactly the ATTENDED bookings of the input: every kept booking is an ATTENDED member, and every ATTENDED member is kept |
| Reports.AttendedPartitions | src/com/bpc/system/BPC_Clinic.java:85 | the ATTENDED filter keeps every occurrence of an ATTENDED booking and none of the others |
| Reports.AttendedCountOfGroup | src/com/bpc/system/BPC_Clinic.java:84-86 | the attended count of a provider is the number of ATTENDED bookings in its group |
| Reports.AttendedCountOfAttended | src/com/bpc/system/BPC_Clinic.java:84-86 | filtering to ATTENDED first and then grouping by provider counts the same |
| Reports.AttendedCount | src/com/bpc/system/BPC_Clinic.java:84-86 | `counting()` for one provider: at most the number of bookings, and zero exactly when none of them is an ATTENDED booking of that provider |
| Reports.CountAttended | src/com/bpc/system/BPC_Clinic.java:84-86 | the counting map has a key iff that provider has at least one ATTENDED booking, mapped to the exact count |
| Reports.HeadIsMax | src/com/bpc/system/BPC_Clinic.java:89-90 | the head of a non-increasing list holds the highest count |
| Reports.InsertByCount | src/com/bpc/system/BPC_Clinic.java:89-90 | inserting into a list sorted by non-increasing count keeps it sorted and adds exactly that entry (a permutation) |
| Reports.InsertKeepsDistinct | src/com/bpc/system/BPC_Clinic.java:89-91 | inserting an entry for a new provider keeps every provider listed once |
| Reports.Rank | src/com/bpc/system/BPC_Clinic.java:89-91 | the sorted entry list is in non-increasing count order |
| Reports.RankEntries | src/com/bpc/system/BPC_Clinic.java:89-91 | the sorted list holds exactly the counting map's entries, each provider once |
| Legacy.Start | src/main/java/com/bpc/model/BPC_Physiotherapist.java:27 | the first slot is today at 9:00, keeping the seconds and nanoseconds of the clock reading |
| Legacy.InitializeTimetable | src/main/java/com/bpc/model/BPC_Physiotherapist.java:25-39 | the keys are exactly the hours 9..16 of each of 28 consecutive days from today, weekends included, all free, 224 entries |
| Legacy.Physiotherapist.constructor | src/main/java/com/bpc/model/BPC_Physiotherapist.java:15-23 | a new provider keeps its data and has every generated slot free |
| Legacy.Physiotherapist.AvailableAppointments | src/main/java/com/bpc/model/BPC_Physiotherapist.java:41-46 | exactly the free slots in ascending time order; there is no active flag |
| Legacy.Physiotherapist.IsAvailable | src/main/java/com/bpc/model/BPC_Physiotherapist.java:48-50 | available iff the time is a key whose flag is free |
| Legacy.Physiotherapist.AssignAppointment | src/main/java/com/bpc/model/BPC_Physiotherapist.java:52-57 | a slot that is not free throws "Time slot is not available" and changes nothing; otherwise exactly that slot is booked; the occupied set never shrinks |
| Legacy.Treatment.constructor | src/main/java/com/bpc/model/BPC_Treatment.java:18-23 | no argument is checked, and the new treatment is not booked |
| Legacy.Treatment.IsAvailable | src/main/java/com/bpc/model/BPC_Treatment.java:30-32 | available iff not booked and the provider's slot is free |
| Legacy.Treatment.MarkAsBooked | src/main/java/com/bpc/model/BPC_Treatment.java:39-45 | success iff available, with no time check; success sets the flag and occupies exactly the slot; failure is "already booked" and changes nothing |
| Legacy.MarkTwice | src/main/java/com/bpc/model/BPC_Treatment.java:40-42 | a second markAsBooked on the same treatment always throws |
| Legacy.Booking.constructor | src/main/java/com/bpc/model/BPC_Booking.java:12-17 | the booking starts BOOKED with the given id, patient and treatment |
| Legacy.NewBooking | src/main/java/com/bpc/model/BPC_Booking.java:12-19 | the status and booking-time arguments are ignored: the booking is BOOKED, stamped with the clock reading, books the treatment and claims the slot; it fails iff the treatment is not available, and then the treatment and the timetable are unchanged |
| Legacy.Booking.CancelBooking | src/main/java/com/bpc/model/BPC_Booking.java:21-26 | as written: throws exactly when BOOKED, and otherwise sets CANCELLED; no slot is freed |
| Legacy.CancelNewBooking | src/main/java/com/bpc/model/BPC_Booking.java:21-26 | a booking just created can never be cancelled |
| Legacy.Booking.Attend | src/main/java/com/bpc/model/BPC_Booking.java:28-33 | BOOKED becomes ATTENDED; any other status throws and changes nothing |
| Legacy.Booking.ChangeBooking | src/main/java/com/bpc/model/BPC_Booking.java:35-41 | as written: requires BOOKED, keeps the old treatment, and books the new treatment's slot without freeing the old one; a refusal leaves the new treatment and its timetable unchanged |
| Legacy.ChangeHoldsBothSlots | src/main/java/com/bpc/model/BPC_Booking.java:35-41 | after a successful change the booking still has its old treatment, and both the old and the new slot are occupied |

## Left out

- The interactive console (`src/com/bpc/Main.java`) and `BPC_Clinic.generateReport`. One
  is a menu loop over standard input and output with random sample data; the other is
  text formatting of the two report queries, which are modelled.
- `hashCode` of the provider. Only the id-based `equals` is modelled. Report results are
  keyed by provider id, which is what the id-based equality and hash make them.
- The wall clock. Every `LocalDateTime.now()` is the parameter `now`, with one reading per
  clinic operation. So the second "in the past" check in `markAsBooked` uses the reading
  the treatment constructor used, and it cannot fail inside `createBooking` or
  `modifyBooking`. The date stamp of generated ids is the parameter `stamp`, which the
  clinic requires to have eight characters (`yyyyMMdd`).
- Calendar arithmetic. A date is a day number from 2025-06-01, with the weekday computed
  from that Sunday. Month lengths, years and time zones are not modelled. No clinic
  operation requires date-times to be well formed.
- Iteration order of the clinic's HashMaps. It is the parameter `order` (the bookings
  table) and `countOrder` (the attended-count map) of the two queries.
- `ClinicSystem.Clinic.AttendedRanking`: does not state the order among providers with
  equal counts, because that order comes from HashMap iteration through a stable sort.
- `ClinicSystem.Clinic.PhysiotherapistBookings`: does not state the order of bookings
  within a group as a property of the clinic (`Reports.GroupBy` gives it as the encounter
  order in `order`), because the source's order is that of HashMap iteration.
- Thread safety of the `AtomicInteger` counters, and their 32-bit overflow. The counters
  are unbounded sequential counters held by the clinic (`ids`), not static fields.
- Null arguments other than those `BPC_Treatment`'s constructor checks. Strings and
  expertise lists are never null here. An unknown patient, provider or booking id in
  `createBooking`, `cancelBooking` or `attendBooking` gives `Err(NullReference)`, the
  NullPointerException of the source. The side effects that precede it are kept: for an
  unknown patient, the counter advances and the slot is claimed.
- The legacy treatment takes a non-null provider; its constructor does not check this,
  and a null provider would fail later with a NullPointerException.
- The legacy booking's patient has the type of the main patient class, since the legacy
  code only stores it. The legacy status enum is the same three-value enum.
- `com.bpc.model.BPC_Patient`, `com.bpc.model.BPC_BookingStatus` and
  `com.bpc.util.BPC_IdGenerator` are not part of this model. The patient logic of
  `src/main/java/com/bpc/model/BPC_Patient.java` and the generator of
  `src/main/java/com/bpc/util/BPC_IdGenerator.java` stand in for them. The status enum
  BOOKED, CANCELLED, ATTENDED is inferred from its uses.
- The defensive-copy getters of the clinic and the provider. The model reads the fields
  directly; a copy is the same value.
- Descriptive fields (name, address, phone, expertise) are stored and never interpreted.

## Findings

| source | as written | input that shows it | evidently intended | confidence | as-written member | corrected member |
|---|---|---|---|---|---|---|
| src/main/java/com/bpc/model/BPC_Booking.java:22 | `cancelBooking` throws when the status is BOOKED and otherwise sets CANCELLED | a booking just constructed (status BOOKED): `cancelBooking()` throws "Booking is not confirmed", so a live booking can never be cancelled, while an ATTENDED one can be "cancelled" | throw unless the status is BOOKED, then set CANCELLED and free the slot, as the main copy does | not executed | Legacy.CancelNewBooking | Bookings.Booking.CancelBooking |
| src/main/java/com/bpc/model/BPC_Booking.java:39 | `changeBooking` assigns `this.treatment = treatment` (the field to itself) and books the new treatment | a BOOKED booking on slot A and an available treatment on slot B: afterwards the booking still refers to A, and both A and B are occupied | free the old slot, make the new treatment current, then book it, as the main copy does | not executed | Legacy.ChangeHoldsBothSlots | Bookings.Booking.ChangeBooking |
