/** The doctor-performance table: each doctor with the number of patients
    assigned to them, busiest first. */
module DoctorPerformance {
  import opened Types
  import Lists

  /** A doctor's record extended with its patient count. */
  datatype DoctorLoad = DoctorLoad(doctor: Doctor, patientCount: nat)

  function AssignedTo(name: string): Patient -> bool {
    (p: Patient) => p.doctor == name
  }

  /** `patients.filter(p => p.doctor === name).length`. */
  function PatientCount(patients: seq<Patient>, name: string): (n: nat) {
    |Lists.Filter(patients, AssignedTo(name))|
  }

  function WithCount(patients: seq<Patient>): Doctor -> DoctorLoad {
    (d: Doctor) => DoctorLoad(d, PatientCount(patients, d.name))
  }

  function Count(e: DoctorLoad): real {
    e.patientCount as real
  }

  function DoctorOf(e: DoctorLoad): Doctor {
    e.doctor
  }

  /** `performanceData`: the doctors mapped to their loads, then sorted by
      descending patient count. */
  function PerformanceData(doctors: seq<Doctor>, patients: seq<Patient>): (r: seq<DoctorLoad>)
    ensures |r| == |doctors|
    ensures forall e :: e in r ==> e.doctor in doctors && e.patientCount == PatientCount(patients, e.doctor.name)
    ensures forall i, j :: 0 <= i < j < |r| ==> r[i].patientCount >= r[j].patientCount
  {
    var loads := Lists.Map(doctors, WithCount(patients));
    var r := Lists.SortDescending(loads, Count);
    forall e | e in r ensures e.doctor in doctors && e.patientCount == PatientCount(patients, e.doctor.name) {
      assert e in multiset(loads);
    }
    r
  }

  /** Every input doctor appears exactly as often as in the input: the
      table is a permutation of the doctors, each with all its fields. */
  lemma OneEntryPerDoctor(doctors: seq<Doctor>, patients: seq<Patient>)
    ensures multiset(Lists.Map(PerformanceData(doctors, patients), DoctorOf)) == multiset(doctors)
  {
    var loads := Lists.Map(doctors, WithCount(patients));
    Lists.MapPermutation(PerformanceData(doctors, patients), loads, DoctorOf);
    assert Lists.Map(loads, DoctorOf) == doctors;
  }

  /** Doctors with equal patient counts keep their input order, as the
      engine's stable sort leaves them. */
  lemma TiesKeepDoctorOrder(doctors: seq<Doctor>, patients: seq<Patient>, n: nat)
    ensures Lists.Filter(PerformanceData(doctors, patients), Lists.HasKey(Count, n as real))
         == Lists.Filter(Lists.Map(doctors, WithCount(patients)), Lists.HasKey(Count, n as real))
  {
    Lists.SortDescendingStable(Lists.Map(doctors, WithCount(patients)), Count, n as real);
  }
}
