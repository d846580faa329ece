/** Records shared by the whole dashboard: patients, doctors, appointments
    and the calendar values they carry. */
module Types {

  datatype Option<T> = None | Some(value: T)

  /** The four states of a queued patient. */
  datatype Status = Waiting | WithDoctor | Completed | Cancelled

  /** Binary urgency tag of a queued patient. */
  datatype Priority = Urgent | Normal

  /** The three states of an appointment. */
  datatype AppointmentStatus = Booked | AppointmentCompleted | AppointmentCancelled

  /** A local calendar day: what `toDateString` and "yyyy-MM-dd" compare. */
  datatype CalendarDay = CalendarDay(year: int, month: int, day: int)

  /** A point in time: its millisecond timestamp (what `getTime` and `<` on
      dates compare), and its local calendar day, weekday name and clock
      fields as the browser's time zone reports them. */
  datatype DateTime = DateTime(
    stamp: int,
    day: CalendarDay,
    weekday: string,
    hours: int,
    minutes: int,
    seconds: int,
    millis: int)

  datatype Patient = Patient(
    id: int,
    name: string,
    queueNumber: int,
    status: Status,
    arrivalTime: DateTime,
    doctor: string,
    priority: Priority)

  /** The slots a doctor offers on one weekday. */
  datatype Availability = Availability(day: string, slots: seq<string>)

  datatype Doctor = Doctor(
    id: int,
    name: string,
    specialization: string,
    availability: seq<Availability>,
    rating: real,
    reviews: int)

  datatype Appointment = Appointment(
    id: int,
    patientName: string,
    doctorName: string,
    specialization: string,
    startTime: DateTime,
    status: AppointmentStatus)
}
