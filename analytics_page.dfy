/** The analytics page: today's walk-ins and appointments, the two summary
    counts, and the two widgets fed with today's walk-ins only. */
module AnalyticsPage {
  import opened Types
  import Lists
  import DoctorPerformance
  import PeakHoursChart
  import AppointmentCalendar

  function ArrivedOn(today: CalendarDay): Patient -> bool {
    (p: Patient) => p.arrivalTime.day == today
  }

  function IsCompletedPatient(p: Patient): bool {
    p.status == Completed
  }

  function IsCompletedAppointment(a: Appointment): bool {
    a.status == AppointmentCompleted
  }

  function TodaysPatients(patients: seq<Patient>, today: CalendarDay): (r: seq<Patient>)
    ensures forall p :: p in r <==> p in patients && p.arrivalTime.day == today
  {
    Lists.Filter(patients, ArrivedOn(today))
  }

  function TodaysAppointments(appointments: seq<Appointment>, today: CalendarDay): (r: seq<Appointment>)
    ensures forall a :: a in r <==> a in appointments && a.startTime.day == today
  {
    Lists.Filter(appointments, AppointmentCalendar.StartsOn(today))
  }

  /** What the page shows. */
  datatype Summary = Summary(
    patientsToday: nat,
    completedToday: nat,
    performance: seq<DoctorPerformance.DoctorLoad>,
    peakHours: seq<PeakHoursChart.HourCount>)

  function Analytics(patients: seq<Patient>, doctors: seq<Doctor>, appointments: seq<Appointment>, today: CalendarDay): (r: Summary) {
    var tp := TodaysPatients(patients, today);
    var ta := TodaysAppointments(appointments, today);
    Summary(
      |tp| + |ta|,
      |Lists.Filter(ta, IsCompletedAppointment)| + |Lists.Filter(tp, IsCompletedPatient)|,
      DoctorPerformance.PerformanceData(doctors, tp),
      PeakHoursChart.PeakHours(tp))
  }

  /** "Completed" never exceeds "Patients Today"; the first counts today's
      walk-ins and appointments together; and the two widgets only ever
      count walk-ins who arrived today. */
  lemma AnalyticsBounds(patients: seq<Patient>, doctors: seq<Doctor>, appointments: seq<Appointment>, today: CalendarDay)
    ensures Analytics(patients, doctors, appointments, today).completedToday
         <= Analytics(patients, doctors, appointments, today).patientsToday
    ensures Analytics(patients, doctors, appointments, today).patientsToday
         == |Lists.Filter(patients, ArrivedOn(today))| + |Lists.Filter(appointments, AppointmentCalendar.StartsOn(today))|
    ensures forall e :: e in Analytics(patients, doctors, appointments, today).performance ==>
      e.patientCount <= |TodaysPatients(patients, today)|
    ensures PeakHoursChart.Total(Analytics(patients, doctors, appointments, today).peakHours)
         <= |TodaysPatients(patients, today)|
  {
    var tp := TodaysPatients(patients, today);
    PeakHoursChart.PeakHoursTotal(tp);
  }

  /** A walk-in who did not arrive today changes nothing on the page. */
  lemma OtherDaysIgnored(patients: seq<Patient>, p: Patient, doctors: seq<Doctor>, appointments: seq<Appointment>, today: CalendarDay)
    requires p.arrivalTime.day != today
    ensures Analytics(patients + [p], doctors, appointments, today) == Analytics(patients, doctors, appointments, today)
  {
    TodayUnchanged(patients, p, today);
  }

  lemma TodayUnchanged(patients: seq<Patient>, p: Patient, today: CalendarDay)
    requires p.arrivalTime.day != today
    ensures TodaysPatients(patients + [p], today) == TodaysPatients(patients, today)
  {
    Lists.FilterAppend(patients, [p], ArrivedOn(today));
  }
}
