/** The three overview cards. They read the fixture arrays they are given
    here as parameters and nothing else; in particular not the store's
    patient list. */
module OverviewCards {
  import opened Types
  import Lists
  import AppointmentCalendar

  function InQueue(p: Patient): bool {
    p.status == Waiting || p.status == WithDoctor
  }

  function Finished(p: Patient): bool {
    p.status == Completed || p.status == Cancelled
  }

  function IsBooked(a: Appointment): bool {
    a.status == Booked
  }

  function BookedOn(today: CalendarDay): Appointment -> bool {
    (a: Appointment) => a.startTime.day == today && a.status == Booked
  }

  /** "Patients in Queue": those waiting or with a doctor. */
  function PatientsInQueue(fixturePatients: seq<Patient>): (n: nat)
    ensures n <= |fixturePatients|
  {
    |Lists.Filter(fixturePatients, InQueue)|
  }

  /** "Appointments Today": booked appointments starting today. */
  function AppointmentsToday(fixtureAppointments: seq<Appointment>, today: CalendarDay): (n: nat)
    ensures n <= |fixtureAppointments|
  {
    |Lists.Filter(fixtureAppointments, BookedOn(today))|
  }

  /** "Available Doctors": every doctor counts. */
  function AvailableDoctors(fixtureDoctors: seq<Doctor>): nat {
    |fixtureDoctors|
  }

  /** The queue count and the completed-or-cancelled count split the
      patients between them: finished patients are never in the queue. */
  lemma QueuePartition(patients: seq<Patient>)
    ensures PatientsInQueue(patients) + |Lists.Filter(patients, Finished)| == |patients|
  {
    Lists.FilterCountSplit(patients, (p: Patient) => true, InQueue, Finished);
    Lists.FilterKeepsAll(patients, (p: Patient) => true);
  }

  /** Each further patient adds one to the queue count exactly when they
      are waiting or with a doctor. */
  lemma PatientsInQueueStep(patients: seq<Patient>, p: Patient)
    ensures PatientsInQueue(patients + [p]) == PatientsInQueue(patients) + if InQueue(p) then 1 else 0
  {
    Lists.FilterAppend(patients, [p], InQueue);
  }

  /** Each further appointment adds one to "Appointments Today" exactly when
      it starts today and is booked; one on another day, or completed or
      cancelled, adds nothing. */
  lemma AppointmentsTodayStep(appointments: seq<Appointment>, a: Appointment, today: CalendarDay)
    ensures AppointmentsToday(appointments + [a], today)
         == AppointmentsToday(appointments, today) + if a.startTime.day == today && a.status == Booked then 1 else 0
  {
    Lists.FilterAppend(appointments, [a], BookedOn(today));
  }

  /** "Appointments Today" counts the booked entries of the calendar's list
      for today. */
  lemma AppointmentsTodayOnCalendar(appointments: seq<Appointment>, today: CalendarDay)
    ensures AppointmentsToday(appointments, today)
         == |Lists.Filter(AppointmentCalendar.SelectedDayAppointments(appointments, Some(today)), IsBooked)|
  {
    Lists.FilterTwice(appointments, AppointmentCalendar.StartsOn(today), IsBooked, BookedOn(today));
  }
}
