/** The appointment calendar: the appointments of the selected day and the
    start times it marks. */
module AppointmentCalendar {
  import opened Types
  import Lists

  /** Starts on the same local year-month-day. */
  function StartsOn(day: CalendarDay): Appointment -> bool {
    (a: Appointment) => a.startTime.day == day
  }

  /** `selectedDayAppointments`: nothing without a selected date, otherwise
      the appointments starting on that day. */
  function SelectedDayAppointments(appointments: seq<Appointment>, date: Option<CalendarDay>): (r: seq<Appointment>)
    ensures date.None? ==> r == []
    ensures date.Some? ==> forall a :: a in r <==> a in appointments && a.startTime.day == date.value
    ensures |r| <= |appointments|
  {
    if date.None? then [] else Lists.Filter(appointments, StartsOn(date.value))
  }

  /** The selected-day list keeps the appointments in their booking order:
      it is a subsequence of all appointments. */
  lemma SelectedDayKeepsOrder(appointments: seq<Appointment>, day: CalendarDay)
    ensures exists idx :: Lists.Embeds(idx, SelectedDayAppointments(appointments, Some(day)), appointments)
  {
    Lists.FilterEmbeds(appointments, StartsOn(day));
    assert Lists.Embeds(Lists.FilterIndices(appointments, StartsOn(day)), SelectedDayAppointments(appointments, Some(day)), appointments);
  }

  /** Every appointment starting on the day is in its list as many times as
      it was booked. */
  lemma SelectedDayMultiset(appointments: seq<Appointment>, day: CalendarDay, a: Appointment)
    ensures multiset(SelectedDayAppointments(appointments, Some(day)))[a]
         == if a.startTime.day == day then multiset(appointments)[a] else 0
  {
    Lists.FilterMultiset(appointments, StartsOn(day), a);
  }

  /** `appointmentDates`: one start time per appointment, in order. */
  function AppointmentDates(appointments: seq<Appointment>): (r: seq<DateTime>)
    ensures |r| == |appointments|
    ensures forall i :: 0 <= i < |r| ==> r[i] == appointments[i].startTime
  {
    Lists.Map(appointments, (a: Appointment) => a.startTime)
  }

  /** A day with appointments listed is a day the calendar marks. */
  lemma ListedDaysAreMarked(appointments: seq<Appointment>, day: CalendarDay)
    requires SelectedDayAppointments(appointments, Some(day)) != []
    ensures exists t :: t in AppointmentDates(appointments) && t.day == day
  {
    var a := SelectedDayAppointments(appointments, Some(day))[0];
    assert a in appointments;
    var k :| 0 <= k < |appointments| && appointments[k] == a;
    assert AppointmentDates(appointments)[k] == a.startTime;
  }
}
