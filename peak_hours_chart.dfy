/** The hourly arrival histogram: one bar per opening hour from 8 to 19. */
module PeakHoursChart {
  import opened Types
  import opened Text
  import Lists

  datatype HourCount = HourCount(hour: string, patients: nat)

  const FirstHour: nat := 8
  const HourCount12: nat := 12

  /** The bar label: the hour followed by ":00". */
  function HourLabel(h: nat): string {
    DecimalString(h) + ":00"
  }

  function ArrivedAt(h: int): Patient -> bool {
    (p: Patient) => p.arrivalTime.hours == h
  }

  function ArrivedWithin(lo: int, n: nat): Patient -> bool {
    (p: Patient) => lo <= p.arrivalTime.hours < lo + n
  }

  /** `patients.filter(p => getHours(p.arrivalTime) === h).length`. */
  function ArrivalsAt(patients: seq<Patient>, h: int): nat {
    |Lists.Filter(patients, ArrivedAt(h))|
  }

  /** The bars for the `n` hours from `lo` on, in ascending hour order. */
  function Buckets(patients: seq<Patient>, lo: nat, n: nat): (r: seq<HourCount>)
    ensures |r| == n
    ensures forall i :: 0 <= i < n ==> r[i] == HourCount(HourLabel(lo + i), ArrivalsAt(patients, lo + i))
    decreases n
  {
    if n == 0 then [] else [HourCount(HourLabel(lo), ArrivalsAt(patients, lo))] + Buckets(patients, lo + 1, n - 1)
  }

  /** `data`: twelve bars, for 8:00 through 19:00. */
  function PeakHours(patients: seq<Patient>): (r: seq<HourCount>) {
    Buckets(patients, FirstHour, HourCount12)
  }

  function Total(r: seq<HourCount>): nat {
    if r == [] then 0 else r[0].patients + Total(r[1..])
  }

  /** The bars of consecutive hours together count exactly the patients
      who arrived within those hours. */
  lemma {:induction false} BucketsTotal(patients: seq<Patient>, lo: nat, n: nat)
    ensures Total(Buckets(patients, lo, n)) == |Lists.Filter(patients, ArrivedWithin(lo, n))|
    decreases n
  {
    if n == 0 {
      Lists.FilterKeepsNone(patients, ArrivedWithin(lo, n));
    } else {
      var r := Buckets(patients, lo, n);
      assert r[1..] == Buckets(patients, lo + 1, n - 1);
      BucketsTotal(patients, lo + 1, n - 1);
      Lists.FilterCountSplit(patients, ArrivedWithin(lo, n), ArrivedAt(lo), ArrivedWithin(lo + 1, n - 1));
    }
  }

  /** The twelve bars count every patient who arrived between 8:00 and
      19:59 once, and nobody who arrived outside those hours. */
  lemma PeakHoursTotal(patients: seq<Patient>)
    ensures Total(PeakHours(patients)) == |Lists.Filter(patients, ArrivedWithin(8, 12))|
    ensures (forall p :: p in patients ==> !(8 <= p.arrivalTime.hours <= 19)) ==> Total(PeakHours(patients)) == 0
  {
    BucketsTotal(patients, FirstHour, HourCount12);
    if forall p :: p in patients ==> !(8 <= p.arrivalTime.hours <= 19) {
      Lists.FilterKeepsNone(patients, ArrivedWithin(8, 12));
    }
  }

  /** The bars run 8:00, 9:00, ..., 19:00, and with no patients every bar is
      zero. */
  lemma PeakHoursShape(patients: seq<Patient>)
    ensures |PeakHours(patients)| == 12
    ensures PeakHours(patients)[0].hour == "8:00" && PeakHours(patients)[1].hour == "9:00"
    ensures PeakHours(patients)[2].hour == "10:00" && PeakHours(patients)[11].hour == "19:00"
    ensures patients == [] ==> forall i :: 0 <= i < 12 ==> PeakHours(patients)[i].patients == 0
  {
    var r := PeakHours(patients);
    assert r[0] == HourCount(HourLabel(8), ArrivalsAt(patients, 8));
    assert r[1] == HourCount(HourLabel(9), ArrivalsAt(patients, 9));
    assert r[2] == HourCount(HourLabel(10), ArrivalsAt(patients, 10));
    assert r[11] == HourCount(HourLabel(19), ArrivalsAt(patients, 19));
    assert DecimalString(10) == "10" && DecimalString(19) == "19";
  }
}
