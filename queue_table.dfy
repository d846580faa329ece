/** The patient-queue ranking engine behind the queue table: three filters
    (name substring ignoring case, status, doctor), then a sort that puts
    Urgent patients first, then orders by an optional column in the chosen
    direction, then by arrival time; and the small state machine of the
    column headers and the reset button. */
module QueueTable {
  import opened Types
  import opened Text
  import Lists

  datatype StatusFilter = AllStatuses | OnlyStatus(status: Status)

  /** The sortable columns; `ByPriority` is the initial, column-less order. */
  datatype SortKey = ByPriority | ByQueueNumber | ByName | ByArrivalTime

  datatype SortOrder = Asc | Desc

  /** The doctor filter's "every doctor" value. */
  const AllDoctors: string := "all"

  datatype Filters = Filters(name: string, status: StatusFilter, doctor: string)

  const NoFilters: Filters := Filters("", AllStatuses, AllDoctors)

  predicate NameMatches(p: Patient, name: string) {
    Contains(ToLower(p.name), ToLower(name))
  }

  predicate StatusMatches(p: Patient, status: StatusFilter) {
    status == AllStatuses || p.status == status.status
  }

  predicate DoctorMatches(p: Patient, doctor: string) {
    doctor == AllDoctors || p.doctor == doctor
  }

  /** A patient is listed when it passes all three filters. */
  predicate Matches(p: Patient, f: Filters) {
    NameMatches(p, f.name) && StatusMatches(p, f.status) && DoctorMatches(p, f.doctor)
  }

  /** The filter chain, one filter after the other as the table applies
      them. */
  function Select(patients: seq<Patient>, f: Filters): (r: seq<Patient>)
    ensures forall p :: p in r <==> p in patients && Matches(p, f)
  {
    var byName := Lists.Filter(patients, p => NameMatches(p, f.name));
    var byStatus := Lists.Filter(byName, p => StatusMatches(p, f.status));
    Lists.Filter(byStatus, p => DoctorMatches(p, f.doctor))
  }

  /** The chain keeps exactly the matching patients, each as often as it
      occurs in the input, in input order: it is one filter on `Matches`. */
  lemma SelectIsOneFilter(patients: seq<Patient>, f: Filters)
    ensures Select(patients, f) == Lists.Filter(patients, p => Matches(p, f))
  {
    var nameOk := (p: Patient) => NameMatches(p, f.name);
    var statusOk := (p: Patient) => StatusMatches(p, f.status);
    var doctorOk := (p: Patient) => DoctorMatches(p, f.doctor);
    var both := (p: Patient) => NameMatches(p, f.name) && StatusMatches(p, f.status);
    Lists.FilterTwice(patients, nameOk, statusOk, both);
    Lists.FilterTwice(patients, both, doctorOk, p => Matches(p, f));
  }

  lemma SelectMultiset(patients: seq<Patient>, f: Filters, p: Patient)
    ensures multiset(Select(patients, f))[p] == if Matches(p, f) then multiset(patients)[p] else 0
  {
    SelectIsOneFilter(patients, f);
    Lists.FilterMultiset(patients, q => Matches(q, f), p);
  }

  /** An empty name filter with every status and every doctor lists the
      whole input. */
  lemma NoFiltersSelectsAll(patients: seq<Patient>)
    ensures Select(patients, NoFilters) == patients
  {
    forall p | p in patients ensures Matches(p, NoFilters) {
      ContainsEmpty(ToLower(p.name));
    }
    SelectIsOneFilter(patients, NoFilters);
    Lists.FilterKeepsAll(patients, p => Matches(p, NoFilters));
  }

  /** `a[sortBy] < b[sortBy]` for the chosen column: numbers and arrival
      timestamps numerically, names in string order. */
  predicate KeyLess(a: Patient, b: Patient, key: SortKey) {
    match key
    case ByPriority => false
    case ByQueueNumber => a.queueNumber < b.queueNumber
    case ByName => StrLess(a.name, b.name)
    case ByArrivalTime => a.arrivalTime.stamp < b.arrivalTime.stamp
  }

  predicate KeyEqual(a: Patient, b: Patient, key: SortKey) {
    match key
    case ByPriority => true
    case ByQueueNumber => a.queueNumber == b.queueNumber
    case ByName => a.name == b.name
    case ByArrivalTime => a.arrivalTime.stamp == b.arrivalTime.stamp
  }

  /** The table's comparator: negative when `a` goes first, positive when
      `b` does. */
  function Compare(a: Patient, b: Patient, key: SortKey, order: SortOrder): (c: int) {
    if a.priority == Urgent && b.priority != Urgent then -1
    else if a.priority != Urgent && b.priority == Urgent then 1
    else if key != ByPriority && KeyLess(a, b, key) then (if order == Asc then -1 else 1)
    else if key != ByPriority && KeyLess(b, a, key) then (if order == Asc then 1 else -1)
    else a.arrivalTime.stamp - b.arrivalTime.stamp
  }

  /** The comparator is antisymmetric: swapping its arguments flips its
      sign. */
  lemma CompareAntisymmetric(a: Patient, b: Patient, key: SortKey, order: SortOrder)
    ensures Compare(a, b, key, order) < 0 <==> Compare(b, a, key, order) > 0
    ensures Compare(a, b, key, order) == 0 <==> Compare(b, a, key, order) == 0
  {
    StrLessAsymmetric(a.name, b.name);
    StrLessAsymmetric(b.name, a.name);
  }

  /** Columns whose values are neither less nor greater are equal. */
  lemma KeyTrichotomy(a: Patient, b: Patient, key: SortKey)
    ensures !KeyLess(a, b, key) && !KeyLess(b, a, key) ==> KeyEqual(a, b, key)
    ensures KeyLess(a, b, key) ==> !KeyLess(b, a, key) && !KeyEqual(a, b, key)
  {
    StrLessTotal(a.name, b.name);
    StrLessAsymmetric(a.name, b.name);
  }

  /** "May come first" is transitive, so the comparator is consistent. */
  lemma CompareTransitive(a: Patient, b: Patient, c: Patient, key: SortKey, order: SortOrder)
    requires Compare(a, b, key, order) <= 0 && Compare(b, c, key, order) <= 0
    ensures Compare(a, c, key, order) <= 0
  {
    KeyTrichotomy(a, b, key);
    KeyTrichotomy(b, c, key);
    KeyTrichotomy(a, c, key);
    StrLessTransitive(a.name, b.name, c.name);
    StrLessTransitive(c.name, b.name, a.name);
  }

  ghost predicate Sorted(s: seq<Patient>, key: SortKey, order: SortOrder) {
    forall i, j :: 0 <= i < j < |s| ==> Compare(s[i], s[j], key, order) <= 0
  }

  /** How two patients of the same priority class are ordered: by arrival
      time alone under the initial order; otherwise by the column in the
      chosen direction, equal column values by ascending arrival time. */
  predicate InClassOrder(x: Patient, y: Patient, key: SortKey, order: SortOrder) {
    if key == ByPriority then x.arrivalTime.stamp <= y.arrivalTime.stamp
    else
      && (order == Asc ==> !KeyLess(y, x, key))
      && (order == Desc ==> !KeyLess(x, y, key))
      && (KeyEqual(x, y, key) ==> x.arrivalTime.stamp <= y.arrivalTime.stamp)
  }

  ghost predicate UrgentFirst(s: seq<Patient>) {
    forall i, j :: 0 <= i < j < |s| && s[j].priority == Urgent ==> s[i].priority == Urgent
  }

  ghost predicate OrderedWithinClass(s: seq<Patient>, key: SortKey, order: SortOrder) {
    forall i, j :: 0 <= i < j < |s| && s[i].priority == s[j].priority ==> InClassOrder(s[i], s[j], key, order)
  }

  /** What the comparator means for one pair: `x` may precede `y` exactly
      when an Urgent `y` implies an Urgent `x` and, within one priority
      class, the pair is in column order. */
  lemma ComparePair(x: Patient, y: Patient, key: SortKey, order: SortOrder)
    ensures Compare(x, y, key, order) <= 0 <==>
      (y.priority == Urgent ==> x.priority == Urgent)
      && (x.priority == y.priority ==> InClassOrder(x, y, key, order))
  {
    KeyTrichotomy(x, y, key);
    KeyTrichotomy(y, x, key);
  }

  /** A sequence is in comparator order exactly when its Urgent block comes
      first and each class is in column order. */
  lemma SortedMeaning(s: seq<Patient>, key: SortKey, order: SortOrder)
    ensures Sorted(s, key, order) <==> UrgentFirst(s) && OrderedWithinClass(s, key, order)
  {
    forall i, j | 0 <= i < j < |s| {
      ComparePair(s[i], s[j], key, order);
    }
  }

  /** The table's comparator, as a function value for the sort. */
  function Comparator(key: SortKey, order: SortOrder): (Patient, Patient) -> int {
    (x: Patient, y: Patient) => Compare(x, y, key, order)
  }

  lemma ComparatorConsistent(key: SortKey, order: SortOrder)
    ensures Lists.Consistent(Comparator(key, order))
  {
    var cmp := Comparator(key, order);
    forall x, y ensures cmp(x, y) > 0 ==> cmp(y, x) < 0 {
      CompareAntisymmetric(x, y, key, order);
    }
    forall x, y, z | Lists.Chained(cmp, x, y, z) ensures cmp(x, z) <= 0 {
      CompareTransitive(x, y, z, key, order);
    }
  }

  lemma SortedByComparator(s: seq<Patient>, key: SortKey, order: SortOrder)
    requires Lists.SortedBy(s, Comparator(key, order))
    ensures Sorted(s, key, order)
  {
    var cmp := Comparator(key, order);
    forall i, j | 0 <= i < j < |s| ensures Compare(s[i], s[j], key, order) <= 0 {
      assert cmp(s[i], s[j]) <= 0;
    }
  }

  /** The rows the table shows: the patients passing the filters, ranked.
      The result is a permutation of exactly the matching patients, with
      the Urgent block first and each class in column order. */
  method Rank(patients: seq<Patient>, f: Filters, key: SortKey, order: SortOrder) returns (r: seq<Patient>)
    ensures forall p :: multiset(r)[p] == if Matches(p, f) then multiset(patients)[p] else 0
    ensures forall p :: p in r ==> Matches(p, f)
    ensures |r| <= |patients|
    ensures UrgentFirst(r)
    ensures OrderedWithinClass(r, key, order)
  {
    var filtered := Select(patients, f);
    var a := new Patient[|filtered|](i requires 0 <= i < |filtered| => filtered[i]);
    assert a[..] == filtered;
    ComparatorConsistent(key, order);
    Lists.SortInPlace(a, Comparator(key, order));
    r := a[..];
    SortedByComparator(r, key, order);
    SortedMeaning(r, key, order);
    forall p ensures multiset(r)[p] == if Matches(p, f) then multiset(patients)[p] else 0 {
      SelectMultiset(patients, f, p);
    }
    assert |r| == |multiset(r)| == |multiset(filtered)| == |filtered|;
  }

  /** The badge variant of each status. */
  function StatusVariant(status: Status): (v: string) {
    match status
    case Waiting => "secondary"
    case WithDoctor => "default"
    case Completed => "outline"
    case Cancelled => "destructive"
  }

  /** Distinct statuses get distinct badges. */
  lemma StatusVariantInjective(s: Status, t: Status)
    ensures StatusVariant(s) == StatusVariant(t) ==> s == t
  {
  }

  function Flip(order: SortOrder): SortOrder {
    if order == Asc then Desc else Asc
  }

  /** The table's filter and sort settings. */
  class Table {
    var nameFilter: string
    var statusFilter: StatusFilter
    var doctorFilter: string
    var sortBy: SortKey
    var sortOrder: SortOrder

    function CurrentFilters(): Filters
      reads this
    {
      Filters(nameFilter, statusFilter, doctorFilter)
    }

    /** No filters, the initial priority order, descending. */
    constructor ()
      ensures CurrentFilters() == NoFilters
      ensures sortBy == ByPriority && sortOrder == Desc
    {
      nameFilter, statusFilter, doctorFilter := "", AllStatuses, AllDoctors;
      sortBy, sortOrder := ByPriority, Desc;
    }

    /** A column header click: the current column flips its direction, a new
        column is selected ascending. The filters are untouched. Only the
        queue number, name and arrival columns have a header to click. */
    method HandleSort(key: SortKey)
      requires key != ByPriority
      modifies this
      ensures sortBy == key
      ensures sortOrder == if old(sortBy) == key then Flip(old(sortOrder)) else Asc
      ensures CurrentFilters() == old(CurrentFilters())
    {
      if sortBy == key {
        sortOrder := Flip(sortOrder);
      } else {
        sortBy := key;
        sortOrder := Asc;
      }
    }

    /** The reset button clears the three filters and keeps the sort. */
    method ResetFilters()
      modifies this
      ensures CurrentFilters() == NoFilters
      ensures sortBy == old(sortBy) && sortOrder == old(sortOrder)
    {
      nameFilter, statusFilter, doctorFilter := "", AllStatuses, AllDoctors;
    }
  }
}
