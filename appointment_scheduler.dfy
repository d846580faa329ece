/** The appointment scheduler: the booked appointments, the availability
    badge, and the hand-over from the booking dialog. */
module AppointmentScheduler {
  import opened Types
  import BookingDialog

  /** `isDoctorAvailable`: some availability entry is for today's weekday. */
  predicate IsDoctorAvailable(doctor: Doctor, today: string) {
    exists i :: 0 <= i < |doctor.availability| && doctor.availability[i].day == today
  }

  /** A doctor with no availability entries is never available. */
  lemma NoAvailabilityNeverAvailable(doctor: Doctor, today: string)
    requires doctor.availability == []
    ensures !IsDoctorAvailable(doctor, today)
  {
  }

  /** Available exactly when the dialog finds a day to offer slots from;
      a doctor who is not available that day offers no slots. */
  lemma AvailableIffDayFound(doctor: Doctor, date: DateTime)
    ensures IsDoctorAvailable(doctor, date.weekday) <==> BookingDialog.FindDay(doctor.availability, date.weekday).Some?
    ensures !IsDoctorAvailable(doctor, date.weekday) ==> BookingDialog.AvailableSlots(Some(date), Some(doctor)) == []
  {
    match BookingDialog.FindDay(doctor.availability, date.weekday)
    case None =>
    case Some(i) =>
      assert doctor.availability[i].day == date.weekday;
  }

  /** The appointment `handleBookAppointment` builds for a request. */
  function NewAppointment(appointments: seq<Appointment>, req: BookingDialog.BookingRequest): (a: Appointment) {
    Appointment(|appointments| + 1, req.patientName, req.doctorName, req.specialization, req.startTime, Booked)
  }

  /** The ids are 1, 2, 3, ... in booking order. */
  ghost predicate IdsSequential(appointments: seq<Appointment>) {
    forall i :: 0 <= i < |appointments| ==> appointments[i].id == i + 1
  }

  /** Booking after sequentially numbered appointments keeps the numbering,
      so the new id is not used by any earlier appointment. */
  lemma BookingKeepsIds(appointments: seq<Appointment>, req: BookingDialog.BookingRequest)
    requires IdsSequential(appointments)
    ensures IdsSequential(appointments + [NewAppointment(appointments, req)])
    ensures forall a :: a in appointments ==> a.id != NewAppointment(appointments, req).id
  {
    forall a | a in appointments
      ensures a.id != NewAppointment(appointments, req).id
    {
      var k :| 0 <= k < |appointments| && appointments[k] == a;
    }
  }

  class Scheduler {
    var appointments: seq<Appointment>

    constructor (initial: seq<Appointment>)
      ensures appointments == initial
    {
      appointments := initial;
    }

    /** `handleBookAppointment`: one new appointment at the end, numbered
        after the existing ones, with status Booked and the request's
        patient, doctor, specialization and start; the rest untouched. */
    method BookAppointment(req: BookingDialog.BookingRequest)
      modifies this
      ensures appointments == old(appointments) + [NewAppointment(old(appointments), req)]
      ensures |appointments| == |old(appointments)| + 1
      ensures appointments[..|old(appointments)|] == old(appointments)
      ensures var a := appointments[|old(appointments)|];
        a.id == |old(appointments)| + 1 && a.status == Booked
        && a.patientName == req.patientName && a.doctorName == req.doctorName
        && a.specialization == req.specialization && a.startTime == req.startTime
      ensures IdsSequential(old(appointments)) ==> IdsSequential(appointments)
    {
      if IdsSequential(appointments) {
        BookingKeepsIds(appointments, req);
      }
      appointments := appointments + [NewAppointment(appointments, req)];
    }

    /** Submitting the booking dialog: an accepted form books exactly one
        appointment, closes the dialog and clears its form; a refused one
        books nothing and leaves the dialog as it was. */
    method Submit(dialog: BookingDialog.Dialog) returns (outcome: BookingDialog.SubmitOutcome)
      modifies this, dialog
      ensures outcome == BookingDialog.Submission(old(dialog.patientName), old(dialog.date), old(dialog.timeSlot), old(dialog.doctor))
      ensures outcome.Submitted? ==>
        appointments == old(appointments) + [NewAppointment(old(appointments), outcome.request)] && !dialog.isOpen
      ensures outcome.Submitted? ==> dialog.Cleared() && dialog.doctor == old(dialog.doctor)
      ensures !outcome.Submitted? ==> appointments == old(appointments) && dialog.isOpen == old(dialog.isOpen)
      ensures !outcome.Submitted? ==>
        (dialog.doctor == old(dialog.doctor) && dialog.patientName == old(dialog.patientName)
         && dialog.date == old(dialog.date) && dialog.timeSlot == old(dialog.timeSlot))
    {
      outcome := dialog.HandleSubmit();
      if outcome.Submitted? {
        BookAppointment(outcome.request);
      }
    }
  }
}
