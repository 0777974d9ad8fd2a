/** The lifecycle states of a booking (the BPC_BookingStatus enum). */
module BookingStatus {
  datatype Status = Booked | Cancelled | Attended
}

/** The exceptions the clinic's code throws, one constructor per throw site, and the
    result types that carry them back to the caller instead of unwinding the stack. */
module Outcomes {
  import opened BookingStatus

  /** The Java exception class a failure is thrown as. */
  datatype ExceptionClass = IllegalArgumentException | IllegalStateException | NullPointerException

  datatype Error =
    // Physiotherapist.assignAppointment
    | PhysiotherapistNotAvailable
    | SlotNotAvailable
    // Treatment constructor and markAsBooked
    | NullParameter
    | DateInPast
    | AlreadyBooked
    | BookingInPast
    // Booking.validateBookingStatus
    | NotInState(expected: Status)
    // Patient.addBooking and deactivate
    | InactivePatient
    | OverlappingBooking
    | ActiveBookingExists
    // Clinic
    | NotAvailableAtThisTime
    | PhysiotherapistNotFound
    | PhysiotherapistNotActive
    | BookingNotFound
    | NullReference
    // the second copy of the model under src/main/java
    | TimeSlotNotAvailable
    | NotConfirmed
  {
    /** The message text the source attaches (ids appended by the clinic are omitted).
        Every explicit throw carries a message; only the null dereference has none. */
    function Message(): (m: string)
      ensures |m| == 0 <==> this == NullReference
    {
      match this
      case PhysiotherapistNotAvailable => "Physiotherapist is not available"
      case SlotNotAvailable => "Slot is not available"
      case NullParameter => "All parameters must be non-null"
      case DateInPast => "Treatment date cannot be in the past"
      case AlreadyBooked => "Treatment is already booked"
      case BookingInPast => "Cannot book a treatment in the past"
      case NotInState(expected) => "Booking is not in " + StatusName(expected) + " state"
      case InactivePatient => "Cannot add booking to inactive patient"
      case OverlappingBooking => "Patient already has a booking at this time"
      case ActiveBookingExists => "Cannot deactivate patient with active booking"
      case NotAvailableAtThisTime => "Physiotherapist is not available at this time"
      case PhysiotherapistNotFound => "Physiotherapist not found: "
      case PhysiotherapistNotActive => "Physiotherapist is not active: "
      case BookingNotFound => "Booking not found"
      case NullReference => ""
      case TimeSlotNotAvailable => "Time slot is not available"
      case NotConfirmed => "Booking is not confirmed"
    }

    /** The exception class each failure is thrown as. */
    function Class(): (c: ExceptionClass)
      ensures c == NullPointerException <==> this == NullReference
      ensures c == IllegalStateException <==>
        (this.NotInState? || this in {PhysiotherapistNotAvailable, SlotNotAvailable,
                                      BookingInPast, NotAvailableAtThisTime})
    {
      match this
      case PhysiotherapistNotAvailable | SlotNotAvailable | BookingInPast
        | NotInState(_) | NotAvailableAtThisTime => IllegalStateException
      case NullReference => NullPointerException
      case _ => IllegalArgumentException
    }
  }

  /** The enum constant's name, as string concatenation prints it. */
  function StatusName(s: Status): string {
    match s
    case Booked => "BOOKED"
    case Cancelled => "CANCELLED"
    case Attended => "ATTENDED"
  }

  /** A Java reference that may be null, for values the core does not otherwise model as objects. */
  datatype Option<+T> = None | Some(value: T)

  /** A call that returns a value or throws. */
  datatype Result<+T> = Ok(value: T) | Err(error: Error)

  /** A void call that returns normally or throws. */
  datatype Outcome = Pass | Fail(error: Error)
}
