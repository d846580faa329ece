/** The booking dialog: the slots the chosen doctor offers on the chosen
    day, the submission guard, reading the "HH:mm" slot into the start
    time, and clearing the form when the dialog closes. */
module BookingDialog {
  import opened Types
  import opened Text

  /** `i` is the first availability entry for `weekday`. */
  ghost predicate IsFirstDay(availability: seq<Availability>, weekday: string, i: int) {
    0 <= i < |availability| && availability[i].day == weekday
    && forall j :: 0 <= j < i ==> availability[j].day != weekday
  }

  /** `availability.find(d => d.day === weekday)`, as an index. */
  function FindDay(availability: seq<Availability>, weekday: string): (r: Option<nat>)
    ensures r.Some? ==> IsFirstDay(availability, weekday, r.value)
    ensures r.None? ==> forall j :: 0 <= j < |availability| ==> availability[j].day != weekday
  {
    if availability == [] then None
    else if availability[0].day == weekday then Some(0)
    else
      match FindDay(availability[1..], weekday)
      case None => None
      case Some(i) => Some(i + 1)
  }

  /** `availableSlots`: nothing without a date and a doctor; otherwise the
      slots of the first availability entry for the date's weekday, or
      nothing when the doctor does not work that day. */
  function AvailableSlots(date: Option<DateTime>, doctor: Option<Doctor>): (r: seq<string>)
    ensures date.None? || doctor.None? ==> r == []
    ensures forall i ::
              date.Some? && doctor.Some? && IsFirstDay(doctor.value.availability, date.value.weekday, i)
              ==> r == doctor.value.availability[i].slots
    ensures date.Some? && doctor.Some?
      && (forall j :: 0 <= j < |doctor.value.availability| ==> doctor.value.availability[j].day != date.value.weekday)
      ==> r == []
  {
    if date.None? || doctor.None? then []
    else
      match FindDay(doctor.value.availability, date.value.weekday)
      case None => []
      case Some(i) =>
        assert forall k :: IsFirstDay(doctor.value.availability, date.value.weekday, k) ==> k == i;
        doctor.value.availability[i].slots
  }

  /** `timeSlot.split(':').map(Number)` read as hours and minutes: at least
      two pieces, the first two whole numbers, a valid time of day. */
  function ParseSlot(slot: string): (r: Option<(nat, nat)>)
    ensures r.Some? ==> r.value.0 < 24 && r.value.1 < 60
  {
    var parts := Split(slot, ':');
    if |parts| < 2 then None
    else
      match (Number(parts[0]), Number(parts[1]))
      case (Some(h), Some(m)) => if h < 24 && m < 60 then Some((h, m)) else None
      case _ => None
  }

  function Pad2(s: string): string {
    if |s| < 2 then "0" + s else s
  }

  /** The "HH:mm" form the availability lists use. */
  function FormatSlot(h: nat, m: nat): (s: string) {
    Pad2(DecimalString(h)) + ":" + Pad2(DecimalString(m))
  }

  lemma PadDigits(n: nat)
    ensures AllDigits(Pad2(DecimalString(n))) && DigitsValue(Pad2(DecimalString(n))) == n
    ensures ':' !in Pad2(DecimalString(n))
  {
    DecimalRoundTrip(n);
    LeadingZero(DecimalString(n));
  }

  /** Reading a formatted slot gives back its hours and minutes. */
  lemma SlotRoundTrip(h: nat, m: nat)
    requires h < 24 && m < 60
    ensures ParseSlot(FormatSlot(h, m)) == Some((h, m))
  {
    var hh, mm := Pad2(DecimalString(h)), Pad2(DecimalString(m));
    PadDigits(h);
    PadDigits(m);
    SplitPair(hh, mm, ':');
    assert FormatSlot(h, m) == hh + [':'] + mm;
    DigitsTrimmed(hh);
    DigitsTrimmed(mm);
  }

  /** A slot written as two digits, a colon and two digits, naming a time
      of day. */
  predicate IsHHmm(s: string) {
    |s| == 5 && AllDigits(s[..2]) && s[2] == ':' && AllDigits(s[3..])
    && DigitsValue(s[..2]) < 24 && DigitsValue(s[3..]) < 60
  }

  /** Any "HH:mm" slot reads as its hours and minutes. */
  lemma HHmmParses(s: string)
    requires IsHHmm(s)
    ensures ParseSlot(s) == Some((DigitsValue(s[..2]), DigitsValue(s[3..])))
  {
    var hh, mm := s[..2], s[3..];
    assert s == hh + [':'] + mm;
    assert ':' !in hh && ':' !in mm by {
      assert forall c :: c in hh ==> IsDigit(c);
      assert forall c :: c in mm ==> IsDigit(c);
    }
    SplitPair(hh, mm, ':');
    DigitsTrimmed(hh);
    DigitsTrimmed(mm);
  }

  /** `new Date(date).setHours(h, m, 0, 0)`: the same local day at h:m
      sharp, the timestamp moved by the change of clock time. */
  function AtTime(date: DateTime, h: nat, m: nat): (r: DateTime)
    ensures r.day == date.day && r.weekday == date.weekday
    ensures r.hours == h && r.minutes == m && r.seconds == 0 && r.millis == 0
  {
    var shift := (h - date.hours) * 3600000 + (m - date.minutes) * 60000 - date.seconds * 1000 - date.millis;
    DateTime(date.stamp + shift, date.day, date.weekday, h, m, 0, 0)
  }

  /** On one day, an earlier slot starts earlier. */
  lemma AtTimeMonotonic(date: DateTime, h1: nat, m1: nat, h2: nat, m2: nat)
    requires m1 < 60 && m2 < 60
    ensures AtTime(date, h1, m1).stamp < AtTime(date, h2, m2).stamp <==> h1 < h2 || (h1 == h2 && m1 < m2)
  {
  }

  /** What the dialog hands to `onBookAppointment`. */
  datatype BookingRequest = BookingRequest(patientName: string, doctorName: string, specialization: string, startTime: DateTime)

  datatype SubmitOutcome = MissingInformation | MalformedSlot | Submitted(request: BookingRequest)

  /** The guard of `handleSubmit`; an empty slot string is falsy too. */
  predicate FormIncomplete(patientName: string, date: Option<DateTime>, timeSlot: Option<string>, doctor: Option<Doctor>) {
    IsBlank(patientName) || date.None? || timeSlot.None? || timeSlot.value == "" || doctor.None?
  }

  /** `handleSubmit`'s decision: refused when the trimmed name is empty or
      the date, slot or doctor is missing; otherwise the request carries the
      name as typed, the doctor's name and specialization, and the chosen
      day at the slot's time. */
  function Submission(patientName: string, date: Option<DateTime>, timeSlot: Option<string>, doctor: Option<Doctor>): (r: SubmitOutcome)
    ensures r == MissingInformation <==> FormIncomplete(patientName, date, timeSlot, doctor)
    ensures r == MalformedSlot <==> !FormIncomplete(patientName, date, timeSlot, doctor) && ParseSlot(timeSlot.value).None?
    ensures r.Submitted? ==>
      && r.request.patientName == patientName
      && r.request.doctorName == doctor.value.name
      && r.request.specialization == doctor.value.specialization
      && r.request.startTime.day == date.value.day
      && ParseSlot(timeSlot.value) == Some((r.request.startTime.hours, r.request.startTime.minutes))
      && r.request.startTime.seconds == 0 && r.request.startTime.millis == 0
  {
    if FormIncomplete(patientName, date, timeSlot, doctor) then MissingInformation
    else
      match ParseSlot(timeSlot.value)
      case None => MalformedSlot
      case Some((h, m)) =>
        Submitted(BookingRequest(patientName, doctor.value.name, doctor.value.specialization, AtTime(date.value, h, m)))
  }

  class Dialog {
    var isOpen: bool
    var doctor: Option<Doctor>
    var patientName: string
    var date: Option<DateTime>
    var timeSlot: Option<string>

    ghost predicate Cleared()
      reads this
    {
      patientName == "" && date == None && timeSlot == None
    }

    /** Closed, no doctor chosen, an empty form. */
    constructor ()
      ensures !isOpen && doctor == None && Cleared()
    {
      isOpen, doctor := false, None;
      patientName, date, timeSlot := "", None, None;
    }

    /** A doctor's "Book Appointment" button: that doctor, dialog open. */
    method OpenFor(d: Doctor)
      modifies this
      ensures isOpen && doctor == Some(d)
      ensures patientName == old(patientName) && date == old(date) && timeSlot == old(timeSlot)
    {
      doctor, isOpen := Some(d), true;
    }

    /** `onOpenChange(open)` and the effect it triggers: closing clears the
        name, the date and the slot; the doctor stays selected. */
    method SetOpen(open: bool)
      modifies this
      ensures isOpen == open && doctor == old(doctor)
      ensures !open ==> Cleared()
      ensures open ==> patientName == old(patientName) && date == old(date) && timeSlot == old(timeSlot)
    {
      isOpen := open;
      if !open {
        patientName, date, timeSlot := "", None, None;
      }
    }

    /** The form's inputs. */
    method Fill(name: string, day: Option<DateTime>, slot: Option<string>)
      modifies this
      ensures patientName == name && date == day && timeSlot == slot
      ensures isOpen == old(isOpen) && doctor == old(doctor)
    {
      patientName, date, timeSlot := name, day, slot;
    }

    /** `handleSubmit`: a refused form changes nothing; an accepted one is
        handed over once, and the dialog closes and clears. */
    method HandleSubmit() returns (outcome: SubmitOutcome)
      modifies this
      ensures outcome == Submission(old(patientName), old(date), old(timeSlot), old(doctor))
      ensures outcome.Submitted? ==> !isOpen && Cleared() && doctor == old(doctor)
      ensures !outcome.Submitted? ==>
        isOpen == old(isOpen) && doctor == old(doctor)
        && patientName == old(patientName) && date == old(date) && timeSlot == old(timeSlot)
    {
      outcome := Submission(patientName, date, timeSlot, doctor);
      if outcome.Submitted? {
        SetOpen(false);
      }
    }
  }
}
