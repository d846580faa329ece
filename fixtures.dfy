/** The sample doctors the clinic starts with, and what the model says
    about them: every slot they offer reads as a valid time, so a booking
    made from their lists never reaches the malformed-slot case. */
module Fixtures {
  import opened Types
  import BookingDialog
  import DoctorRankings
  import Lists
  import Dashboard
  import OverviewCards

  const MockDoctors: seq<Doctor> := [
    Doctor(1, "Dr. Evelyn Reed", "Cardiology",
      [Availability("Monday", ["09:00", "11:00", "14:00"]), Availability("Wednesday", ["10:00", "12:00", "15:00"])],
      4.9, 124),
    Doctor(2, "Dr. Samuel Green", "Pediatrics",
      [Availability("Tuesday", ["09:30", "11:30", "14:30"]), Availability("Thursday", ["10:30", "12:30", "15:30"])],
      4.8, 98),
    Doctor(3, "Dr. Olivia Blue", "Dermatology",
      [Availability("Monday", ["13:00", "16:00"]), Availability("Friday", ["09:00", "11:00", "14:00"])],
      4.7, 152)
  ]

  /** Every slot of a day is written "HH:mm". */
  predicate DayWellFormed(a: Availability) {
    forall s :: s in a.slots ==> BookingDialog.IsHHmm(s)
  }

  predicate DoctorWellFormed(d: Doctor) {
    forall a :: a in d.availability ==> DayWellFormed(a)
  }

  /** Every offered slot of every doctor is written "HH:mm". */
  predicate SlotsWellFormed(doctors: seq<Doctor>) {
    forall d :: d in doctors ==> DoctorWellFormed(d)
  }

  /** Well-formed slots always parse. */
  lemma WellFormedSlotsParse(doctors: seq<Doctor>, d: Doctor, a: Availability, s: string)
    requires SlotsWellFormed(doctors)
    requires d in doctors && a in d.availability && s in a.slots
    ensures BookingDialog.ParseSlot(s).Some?
  {
    BookingDialog.HHmmParses(s);
  }

  lemma MockSlotsWellFormed()
    ensures SlotsWellFormed(MockDoctors)
  {
    forall d | d in MockDoctors
      ensures DoctorWellFormed(d)
    {
      forall a | a in d.availability
        ensures DayWellFormed(a)
      {
        forall s | s in a.slots
          ensures BookingDialog.IsHHmm(s)
        {
          MockSlot(s);
        }
      }
    }
  }

  /** The individual slot strings of the sample doctors. */
  lemma MockSlot(s: string)
    requires s in ["09:00", "09:30", "10:00", "10:30", "11:00", "11:30", "12:00", "12:30", "13:00", "14:00", "14:30", "15:00", "15:30", "16:00"]
    ensures BookingDialog.IsHHmm(s)
  {
    if s in ["09:00", "09:30", "10:00", "10:30", "11:00", "11:30", "12:00"] {
      MorningSlot(s);
    } else {
      AfternoonSlot(s);
    }
  }

  lemma MorningSlot(s: string)
    requires s in ["09:00", "09:30", "10:00", "10:30", "11:00", "11:30", "12:00"]
    ensures BookingDialog.IsHHmm(s)
  {
  }

  lemma AfternoonSlot(s: string)
    requires s in ["12:30", "13:00", "14:00", "14:30", "15:00", "15:30", "16:00"]
    ensures BookingDialog.IsHHmm(s)
  {
  }

  /** The sample doctors are already listed best-rated first, so the
      rankings show them in that order, gold to bronze. */
  lemma MockRanking()
    ensures DoctorRankings.SortedDoctors(MockDoctors) == MockDoctors
  {
    var key := DoctorRankings.Rating;
    var d := MockDoctors;
    assert d[1..][1..] == [d[2]];
    assert Lists.SortDescending([d[2]], key) == [d[2]];
    assert Lists.SortDescending(d[1..], key) == [d[1], d[2]];
  }

  /** `new Date(now.setHours(h, m))`: today at h:m, keeping the seconds. */
  function TodayAt(now: DateTime, h: nat, m: nat): DateTime {
    now.(stamp := now.stamp + (h - now.hours) * 3600000 + (m - now.minutes) * 60000, hours := h, minutes := m)
  }

  /** The sample walk-ins; they carry no priority, which the model reads as
      Normal. */
  function MockPatients(now: DateTime): seq<Patient> {
    [ Patient(1, "Alice Johnson", 1, WithDoctor, TodayAt(now, 9, 5), "Dr. Evelyn Reed", Normal),
      Patient(2, "Bob Williams", 2, Waiting, TodayAt(now, 9, 15), "Dr. Samuel Green", Normal),
      Patient(3, "Charlie Brown", 3, Waiting, TodayAt(now, 9, 30), "Dr. Evelyn Reed", Normal),
      Patient(4, "Diana Miller", 4, Waiting, TodayAt(now, 9, 45), "Dr. Olivia Blue", Normal),
      Patient(5, "Ethan Davis", 5, Completed, TodayAt(now, 8, 50), "Dr. Samuel Green", Normal) ]
  }

  /** The sample list satisfies the store's invariant. */
  lemma MockPatientsWellFormed(now: DateTime)
    ensures Dashboard.WellFormed(MockPatients(now))
  {
    var ps := MockPatients(now);
    assert forall i :: 0 <= i < 5 ==> ps[i].queueNumber == i + 1 && ps[i].id == i + 1;
  }

  /** The overview shows four of the sample patients in the queue. */
  lemma MockQueueCount(now: DateTime)
    ensures OverviewCards.PatientsInQueue(MockPatients(now)) == 4
  {
    var ps := MockPatients(now);
    assert ps[..1] == [] + [ps[0]];
    OverviewCards.PatientsInQueueStep([], ps[0]);
    assert ps[..2] == ps[..1] + [ps[1]];
    OverviewCards.PatientsInQueueStep(ps[..1], ps[1]);
    assert ps[..3] == ps[..2] + [ps[2]];
    OverviewCards.PatientsInQueueStep(ps[..2], ps[2]);
    assert ps[..4] == ps[..3] + [ps[3]];
    OverviewCards.PatientsInQueueStep(ps[..3], ps[3]);
    assert ps == ps[..4] + [ps[4]];
    OverviewCards.PatientsInQueueStep(ps[..4], ps[4]);
  }
}
