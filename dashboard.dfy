/** The dashboard's patient store and session state: walk-ins are appended
    with the next queue number, status and priority are changed by patient
    id, and a login flag with the active view switches the screen. */
module Dashboard {
  import opened Types
  import Lists

  datatype View = Overview | Queue | Appointments | Predictor | Rankings | Feed | Settings | Analytics

  /** `Math.max(...queueNumbers, 0)`: the largest queue number in use, or 0. */
  function MaxQueueNumber(patients: seq<Patient>): (m: int)
    ensures m >= 0
    ensures forall p :: p in patients ==> p.queueNumber <= m
    ensures m == 0 || exists p :: p in patients && p.queueNumber == m
  {
    if patients == [] then 0
    else
      var rest := MaxQueueNumber(patients[1..]);
      assert forall p :: p in patients ==> p == patients[0] || p in patients[1..];
      if patients[0].queueNumber > rest then patients[0].queueNumber else rest
  }

  /** The record `addPatient` builds: the next id, the next queue number,
      Waiting, arriving now. */
  function NewPatient(patients: seq<Patient>, name: string, doctor: string, priority: Priority, now: DateTime): (p: Patient) {
    Patient(|patients| + 1, name, MaxQueueNumber(patients) + 1, Waiting, now, doctor, priority)
  }

  /** The new queue number is 1 on an empty queue and exceeds every queue
      number already handed out. */
  lemma NewQueueNumberFresh(patients: seq<Patient>, name: string, doctor: string, priority: Priority, now: DateTime)
    ensures patients == [] ==> NewPatient(patients, name, doctor, priority, now).queueNumber == 1
    ensures forall p :: p in patients ==> p.queueNumber < NewPatient(patients, name, doctor, priority, now).queueNumber
  {
  }

  /** The store's invariant: ids are 1, 2, 3, ... in list order, and queue
      numbers are positive and strictly increasing along the list. */
  ghost predicate WellFormed(patients: seq<Patient>) {
    && (forall i :: 0 <= i < |patients| ==> patients[i].id == i + 1 && patients[i].queueNumber >= 1)
    && (forall i, j :: 0 <= i < j < |patients| ==> patients[i].queueNumber < patients[j].queueNumber)
  }

  /** Appending the new record keeps the invariant; in particular its id is
      used by no other record. */
  lemma AddKeepsWellFormed(patients: seq<Patient>, name: string, doctor: string, priority: Priority, now: DateTime)
    requires WellFormed(patients)
    ensures WellFormed(patients + [NewPatient(patients, name, doctor, priority, now)])
    ensures forall p :: p in patients ==> p.id != NewPatient(patients, name, doctor, priority, now).id
  {
    var q := NewPatient(patients, name, doctor, priority, now);
    var r := patients + [q];
    forall i, j | 0 <= i < j < |r| ensures r[i].queueNumber < r[j].queueNumber {
      if j == |patients| {
        assert r[i] in patients;
      }
    }
  }

  /** `prev.map(p => p.id === id ? {...p, status} : p)`. */
  function SetStatus(patients: seq<Patient>, id: int, status: Status): (r: seq<Patient>)
    ensures |r| == |patients|
    ensures forall i :: 0 <= i < |r| ==> r[i].status == if patients[i].id == id then status else patients[i].status
    ensures forall i :: 0 <= i < |r| ==> r[i].(status := patients[i].status) == patients[i]
  {
    Lists.Map(patients, (p: Patient) => if p.id == id then p.(status := status) else p)
  }

  /** `prev.map(p => p.id === id ? {...p, priority} : p)`. */
  function SetPriority(patients: seq<Patient>, id: int, priority: Priority): (r: seq<Patient>)
    ensures |r| == |patients|
    ensures forall i :: 0 <= i < |r| ==> r[i].priority == if patients[i].id == id then priority else patients[i].priority
    ensures forall i :: 0 <= i < |r| ==> r[i].(priority := patients[i].priority) == patients[i]
  {
    Lists.Map(patients, (p: Patient) => if p.id == id then p.(priority := priority) else p)
  }

  ghost predicate IdAbsent(patients: seq<Patient>, id: int) {
    forall i :: 0 <= i < |patients| ==> patients[i].id != id
  }

  /** Updating an id that no record has leaves the list as it was. */
  lemma UpdateAbsentIdIsIdentity(patients: seq<Patient>, id: int, status: Status, priority: Priority)
    requires IdAbsent(patients, id)
    ensures SetStatus(patients, id, status) == patients
    ensures SetPriority(patients, id, priority) == patients
  {
    var r := SetStatus(patients, id, status);
    assert forall i :: 0 <= i < |r| ==> r[i] == patients[i];
    var t := SetPriority(patients, id, priority);
    assert forall i :: 0 <= i < |t| ==> t[i] == patients[i];
  }

  /** In a well-formed store an update touches exactly the record at
      position `id - 1`, and keeps the store well formed. */
  lemma UpdateTouchesOneRecord(patients: seq<Patient>, id: int, status: Status, priority: Priority)
    requires WellFormed(patients)
    ensures WellFormed(SetStatus(patients, id, status))
    ensures WellFormed(SetPriority(patients, id, priority))
    ensures forall i :: 0 <= i < |patients| && i != id - 1 ==>
      SetStatus(patients, id, status)[i] == patients[i] && SetPriority(patients, id, priority)[i] == patients[i]
  {
    var r := SetStatus(patients, id, status);
    var t := SetPriority(patients, id, priority);
    assert forall i :: 0 <= i < |patients| ==> r[i].id == patients[i].id && r[i].queueNumber == patients[i].queueNumber;
    assert forall i :: 0 <= i < |patients| ==> t[i].id == patients[i].id && t[i].queueNumber == patients[i].queueNumber;
  }

  class Store {
    var patients: seq<Patient>
    var isLoggedIn: bool
    var activeView: View

    /** The dashboard opens logged in, on the overview, holding the
        initial patients. */
    constructor (initial: seq<Patient>)
      ensures patients == initial && isLoggedIn && activeView == Overview
    {
      patients, isLoggedIn, activeView := initial, true, Overview;
    }

    /** `addPatient`: appends exactly the new record. */
    method AddPatient(name: string, doctor: string, priority: Priority, now: DateTime)
      modifies this
      ensures patients == old(patients) + [NewPatient(old(patients), name, doctor, priority, now)]
      ensures WellFormed(old(patients)) ==> WellFormed(patients)
      ensures isLoggedIn == old(isLoggedIn) && activeView == old(activeView)
    {
      if WellFormed(patients) {
        AddKeepsWellFormed(patients, name, doctor, priority, now);
      }
      patients := patients + [NewPatient(patients, name, doctor, priority, now)];
    }

    /** `updatePatientStatus`. */
    method UpdatePatientStatus(id: int, status: Status)
      modifies this
      ensures patients == SetStatus(old(patients), id, status)
      ensures WellFormed(old(patients)) ==> WellFormed(patients)
      ensures isLoggedIn == old(isLoggedIn) && activeView == old(activeView)
    {
      if WellFormed(patients) {
        UpdateTouchesOneRecord(patients, id, status, Normal);
      }
      patients := SetStatus(patients, id, status);
    }

    /** `updatePatientPriority`. */
    method UpdatePatientPriority(id: int, priority: Priority)
      modifies this
      ensures patients == SetPriority(old(patients), id, priority)
      ensures WellFormed(old(patients)) ==> WellFormed(patients)
      ensures isLoggedIn == old(isLoggedIn) && activeView == old(activeView)
    {
      if WellFormed(patients) {
        UpdateTouchesOneRecord(patients, id, Waiting, priority);
      }
      patients := SetPriority(patients, id, priority);
    }

    /** A sidebar entry selects its view. */
    method Navigate(view: View)
      modifies this
      ensures activeView == view
      ensures patients == old(patients) && isLoggedIn == old(isLoggedIn)
    {
      activeView := view;
    }

    /** `handleLogout`: only the login flag changes. */
    method Logout()
      modifies this
      ensures !isLoggedIn
      ensures patients == old(patients) && activeView == old(activeView)
    {
      isLoggedIn := false;
    }

    /** `handleLogin`: logged in again, on the overview. */
    method Login()
      modifies this
      ensures isLoggedIn && activeView == Overview
      ensures patients == old(patients)
    {
      isLoggedIn := true;
      activeView := Overview;
    }
  }
}
