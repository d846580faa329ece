# Clinic queue dashboard — a Dafny model

This project models the logic of a single-page clinic dashboard:

- the patient-queue table, which filters the walk-ins by name, status and
  doctor, then ranks them with urgent patients first and a column sort
  inside each priority class;
- the dashboard store, which adds walk-ins, changes a patient's status or
  priority by id, and logs in and out;
- the aggregations on the overview cards, the analytics page, the
  doctor-performance widget, the peak-hours chart and the doctor
  rankings;
- appointment booking, from the slots a doctor offers on a weekday to
  the appointment appended to the schedule;
- the walk-in dialog, which refuses a blank name and passes the trimmed
  name on.

One Dafny module models each source file. Three shared modules sit
underneath them:

- `Types` holds the records.
- `Lists` holds the JavaScript array operations: `filter`, `map`, a stable
  sort by key, and an in-place insertion sort over an `array` with a
  comparator.
- `Text` holds the JavaScript string operations: `toLowerCase`,
  `includes`, `trim`, `<`, `split`, `Number` and decimal rendering.

Dates are given values. A `DateTime` carries:

- a millisecond timestamp;
- a local calendar day (year, month, day);
- the weekday name;
- the local hours, minutes, seconds and milliseconds.

"Now" and "today" are parameters. Two dates fall on the same day, as
`toDateString` and `format(…, "yyyy-MM-dd")` decide it, when their
calendar days are equal.

The state the components keep becomes classes:

- `QueueTable.Table` holds the filter and sort settings.
- `Dashboard.Store` holds the patient list, the login flag and the active
  view.
- `BookingDialog.Dialog` holds the open flag, the selected doctor and the
  form.
- `AppointmentScheduler.Scheduler` holds the appointment list.
- `AddPatientDialog.Dialog` holds the typed name and the open flag.

The pure derivations are functions on values.

`Fixtures` holds the sample doctors and walk-ins. Lemmas there show that:

- every offered slot parses;
- the rankings keep the sample doctors' order;
- the sample walk-ins satisfy the store's invariant;
- four sample walk-ins count as in the queue.

Sequences are values. So the promise that the input arrays are not
reordered by the rankings, the performance widget or the queue sort holds
by construction. Those sorts work on copies.

## Model

| member | source | states |
|---|---|---|
| QueueTable.Select | src/components/queue/queue-table.tsx:57-60 | a patient is in the filtered list exactly when it was in the input and its lower-cased name contains the lower-cased filter, its status matches or the filter is "all", and its doctor matches or the filter is "all" |
| QueueTable.SelectMultiset | src/components/queue/queue-table.tsx:57-60 | the filtered list holds each matching patient as often as the input does and no other patient |
| QueueTable.SelectIsOneFilter | src/components/queue/queue-table.tsx:57-60 | the three chained filters equal one filter on the conjunction of the three conditions |
| QueueTable.NoFiltersSelectsAll | src/components/queue/queue-table.tsx:58-60 | an empty name filter with status "all" and doctor "all" returns the whole input, in its order |
| QueueTable.CompareAntisymmetric | src/components/queue/queue-table.tsx:63-73 | swapping the comparator's arguments flips its sign and keeps zero at zero |
| QueueTable.KeyTrichotomy | src/components/queue/queue-table.tsx:68-69 | two column values are either equal or one is strictly smaller, never both |
| QueueTable.CompareTransitive | src/components/queue/queue-table.tsx:63-73 | "goes no later than" is transitive, for every sort key and direction |
| QueueTable.ComparePair | src/components/queue/queue-table.tsx:63-73 | the comparator puts a first (or ties) exactly when a is urgent and b is not, or both are in the same priority class and a is no later in column order, ties broken by earlier arrival |
| QueueTable.SortedMeaning | src/components/queue/queue-table.tsx:62-73 | a list is in comparator order exactly when every urgent patient precedes every other one and each class is in column order with the arrival-time fallback |
| QueueTable.ComparatorConsistent | src/components/queue/queue-table.tsx:63-73 | the comparator is antisymmetric and transitive, as an in-place sort needs |
| QueueTable.SortedByComparator | src/components/queue/queue-table.tsx:63-73 | a list the sort leaves in comparator order is in the table's order |
| QueueTable.Rank | src/components/queue/queue-table.tsx:56-76 | the result is a permutation of exactly the matching patients; every urgent patient precedes every normal one; within a class the key is non-decreasing for "asc" and non-increasing for "desc", and equal keys (and the initial priority sort) fall back to ascending arrival time |
| QueueTable.StatusVariantInjective | src/components/queue/queue-table.tsx:78-89 | the four statuses get four different badge variants |
| QueueTable.Table.constructor | src/components/queue/queue-table.tsx:41-45 | no filters; sort key priority; order "desc" |
| QueueTable.Table.HandleSort | src/components/queue/queue-table.tsx:47-54 | clicking the current column (queue number, name or arrival, the three headers) flips the order; another column becomes the key with order "asc"; the filters are unchanged |
| QueueTable.Table.ResetFilters | src/components/queue/queue-table.tsx:100-104 | name "", status "all", doctor "all"; key and order unchanged |
| Lists.SortInPlace | src/components/queue/queue-table.tsx:63 | sorting an array in place with a consistent comparator leaves it in comparator order and a permutation of what it held |
| Lists.Filter | src/components/queue/queue-table.tsx:57-60 | `filter` keeps no more elements than it is given, and an element is in the result exactly when it is in the input and passes the test |
| Lists.Map | src/components/analytics/doctor-performance.tsx:32 | `map` gives one result per element, the one at each position being the function applied to the input's element there |
| Lists.FilterMultiset | src/components/queue/queue-table.tsx:57-60 | a filter keeps every element that passes as often as it occurs, and nothing else |
| Text.ToLower | src/components/queue/queue-table.tsx:58 | lower-casing keeps the length, maps each character, and leaves no capital letter |
| Text.ToLowerIdempotent | src/components/queue/queue-table.tsx:58 | lower-casing twice is lower-casing once |
| Text.Contains | src/components/queue/queue-table.tsx:58 | `includes` holds exactly when the filter occurs at some position of the name |
| Text.ContainsEmpty | src/components/queue/queue-table.tsx:58 | an empty filter is contained in every name |
| Text.StrLessAsymmetric | src/components/queue/queue-table.tsx:68-69 | string `<` never holds both ways |
| Text.StrLessTransitive | src/components/queue/queue-table.tsx:68-69 | string `<` is transitive |
| Text.StrLessTotal | src/components/queue/queue-table.tsx:68-69 | two different strings are ordered one way or the other |
| Dashboard.MaxQueueNumber | src/components/dashboard/dashboard.tsx:73 | `Math.max(…, 0)` is non-negative, bounds every queue number, and is 0 or one of them |
| Dashboard.NewQueueNumberFresh | src/components/dashboard/dashboard.tsx:73 | the new queue number is 1 on an empty list and above every existing one |
| Dashboard.AddKeepsWellFormed | src/components/dashboard/dashboard.tsx:69-80 | appending the new record keeps ids 1, 2, 3, … and queue numbers strictly increasing; the new id is not used by any other record |
| Dashboard.SetStatus | src/components/dashboard/dashboard.tsx:82-84 | same length; records with the id get the new status; every other field and every other record stays the same |
| Dashboard.SetPriority | src/components/dashboard/dashboard.tsx:86-87 | same length; records with the id get the new priority; every other field and every other record stays the same |
| Dashboard.UpdateAbsentIdIsIdentity | src/components/dashboard/dashboard.tsx:82-87 | updating an id no record has leaves the list identical |
| Dashboard.UpdateTouchesOneRecord | src/components/dashboard/dashboard.tsx:82-87 | on a well-formed list, both updates keep the invariant and change no record other than the one at the id's position |
| Dashboard.Store.constructor | src/components/dashboard/dashboard.tsx:64-67 | the initial patients, logged in, on the overview |
| Dashboard.Store.AddPatient | src/components/dashboard/dashboard.tsx:69-80 | the list grows by exactly the new record (id = length + 1, next queue number, Waiting, the given name, doctor, priority and arrival); the invariant is kept |
| Dashboard.Store.UpdatePatientStatus | src/components/dashboard/dashboard.tsx:82-84 | the list becomes its status update; the invariant is kept; login and view unchanged |
| Dashboard.Store.UpdatePatientPriority | src/components/dashboard/dashboard.tsx:86-92 | the list becomes its priority update; the invariant is kept; login and view unchanged |
| Dashboard.Store.Navigate | src/components/dashboard/dashboard.tsx:167-242 | the sidebar sets the active view and nothing else |
| Dashboard.Store.Logout | src/components/dashboard/dashboard.tsx:128-135 | logged out; patients and view unchanged |
| Dashboard.Store.Login | src/components/dashboard/dashboard.tsx:137-140 | logged in and back on the overview; patients unchanged |
| DoctorPerformance.PerformanceData | src/components/analytics/doctor-performance.tsx:31-41 | one entry per doctor; each entry is a doctor of the input with the number of patients whose doctor is exactly that name; counts non-increasing |
| DoctorPerformance.OneEntryPerDoctor | src/components/analytics/doctor-performance.tsx:32-40 | the doctors of the entries are a permutation of the input doctors, fields intact |
| DoctorPerformance.TiesKeepDoctorOrder | src/components/analytics/doctor-performance.tsx:40 | doctors with equal counts keep their input order (the sort is stable) |
| Lists.MapPermutation | src/components/analytics/doctor-performance.tsx:32-40 | mapping two permutations of each other gives two permutations of each other |
| PeakHoursChart.Buckets | src/components/analytics/peak-hours-chart.tsx:21-28 | one bucket per hour in order, each labelled "h:00" with the number of patients arriving in that hour |
| PeakHoursChart.BucketsTotal | src/components/analytics/peak-hours-chart.tsx:21-23 | the bucket counts add up to the number of patients arriving within the hours covered |
| PeakHoursChart.PeakHoursTotal | src/components/analytics/peak-hours-chart.tsx:21-23 | the chart's counts add up to the patients arriving between 8 and 19 o'clock; patients outside those hours count nowhere |
| PeakHoursChart.PeakHoursShape | src/components/analytics/peak-hours-chart.tsx:21-28 | twelve buckets labelled "8:00", "9:00", "10:00" … "19:00"; all zero for no patients |
| Text.DecimalString | src/components/analytics/peak-hours-chart.tsx:25 | a number renders as a non-empty run of digits with no leading zero |
| Text.DecimalRoundTrip | src/components/analytics/peak-hours-chart.tsx:25 | reading a rendered number gives the number back |
| AnalyticsPage.TodaysPatients | src/components/analytics/analytics-page.tsx:20 | exactly the patients who arrived today |
| AnalyticsPage.TodaysAppointments | src/components/analytics/analytics-page.tsx:21 | exactly the appointments starting today |
| AnalyticsPage.AnalyticsBounds | src/components/analytics/analytics-page.tsx:20-68 | "Patients Today" is today's walk-ins plus today's appointments; "Completed" never exceeds it; the two widgets only count today's walk-ins |
| AnalyticsPage.TodayUnchanged | src/components/analytics/analytics-page.tsx:20 | a walk-in from another day does not join today's list |
| AnalyticsPage.OtherDaysIgnored | src/components/analytics/analytics-page.tsx:18-68 | adding a walk-in from another day changes nothing on the page |
| OverviewCards.PatientsInQueue | src/components/overview/cards.tsx:13-15 | the queue count is at most the number of patients |
| OverviewCards.QueuePartition | src/components/overview/cards.tsx:13-15 | the queue count plus the completed-or-cancelled count is the number of patients: finished patients are excluded |
| OverviewCards.PatientsInQueueStep | src/components/overview/cards.tsx:13-15 | one more patient adds one exactly when waiting or with a doctor |
| OverviewCards.AppointmentsToday | src/components/overview/cards.tsx:17-20 | the count is at most the number of appointments |
| OverviewCards.AppointmentsTodayStep | src/components/overview/cards.tsx:17-20 | one more appointment adds one exactly when it starts today and is booked |
| OverviewCards.AppointmentsTodayOnCalendar | src/components/overview/cards.tsx:17-20 | the count equals the booked entries of the calendar's list for today |
| DoctorRankings.SortedDoctors | src/components/rankings/doctor-rankings.tsx:17-19 | a permutation of the doctors, same length, in non-increasing rating |
| DoctorRankings.EqualRatingsKeepOrder | src/components/rankings/doctor-rankings.tsx:18 | doctors with equal ratings keep their input order |
| DoctorRankings.RankColor | src/components/rankings/doctor-rankings.tsx:21-26 | rank 0 exactly gets gold, 1 silver, 2 bronze, any other rank muted |
| Lists.SortDescending | src/components/rankings/doctor-rankings.tsx:18 | the stable sort by a key returns a permutation in non-increasing key order |
| Lists.SortDescendingStable | src/components/rankings/doctor-rankings.tsx:18 | elements with one key value keep their relative order |
| BookingDialog.FindDay | src/components/appointments/booking-dialog.tsx:80 | `find` returns the first entry for the weekday, or none when no entry is for it |
| BookingDialog.AvailableSlots | src/components/appointments/booking-dialog.tsx:77-81 | empty without a date or a doctor; otherwise the slots of the first entry for the date's weekday, or empty when there is none |
| BookingDialog.ParseSlot | src/components/appointments/booking-dialog.tsx:64 | a slot that reads as numbers gives an hour below 24 and a minute below 60 |
| BookingDialog.SlotRoundTrip | src/components/appointments/booking-dialog.tsx:64 | parsing the "HH:mm" form of a time gives that time back |
| BookingDialog.HHmmParses | src/components/appointments/booking-dialog.tsx:64 | any two-digit, colon, two-digit slot parses to its hours and minutes |
| BookingDialog.AtTime | src/components/appointments/booking-dialog.tsx:63-65 | the start keeps the chosen day and weekday, at the slot's hours and minutes, seconds and milliseconds 0 |
| BookingDialog.AtTimeMonotonic | src/components/appointments/booking-dialog.tsx:63-65 | on one day, an earlier slot starts earlier, and only then |
| BookingDialog.Submission | src/components/appointments/booking-dialog.tsx:56-75 | refused exactly when the trimmed name is empty or date, slot or doctor is missing; an accepted request carries the name as typed, the doctor's name and specialization, and the chosen day at the slot's time |
| BookingDialog.Dialog.constructor | src/components/appointments/booking-dialog.tsx:43-45 | closed, no doctor selected, an empty name, no date and no slot; the scheduler that owns the dialog also starts it closed with no doctor (appointment-scheduler.tsx lines 23-24) |
| BookingDialog.Dialog.OpenFor | src/components/appointments/appointment-scheduler.tsx:73-76 | the chosen doctor is selected and the dialog opens; the form is kept |
| BookingDialog.Dialog.SetOpen | src/components/appointments/booking-dialog.tsx:48-54 | closing clears the name, date and slot; the doctor stays selected |
| BookingDialog.Dialog.Fill | src/components/appointments/booking-dialog.tsx:101-136 | the name input, the date picker and the slot select set the name, date and slot to what was entered; the doctor and the open flag stay as they were |
| BookingDialog.Dialog.HandleSubmit | src/components/appointments/booking-dialog.tsx:56-75 | the outcome is the submission's; a refused form changes nothing; an accepted one closes and clears the dialog |
| Text.Split | src/components/appointments/booking-dialog.tsx:64 | `split` gives at least one piece, the pieces joined by the separator give the input back, and no piece holds the separator |
| Text.SplitPair | src/components/appointments/booking-dialog.tsx:64 | splitting a + ":" + b, neither holding a colon, gives [a, b] |
| Text.Number | src/components/appointments/booking-dialog.tsx:64 | `Number` is a whole number exactly when the trimmed text is all digits |
| AppointmentScheduler.NoAvailabilityNeverAvailable | src/components/appointments/appointment-scheduler.tsx:42 | a doctor with no availability entries is never available |
| AppointmentScheduler.AvailableIffDayFound | src/components/appointments/appointment-scheduler.tsx:40-43 | available today exactly when some entry's day is today's weekday, the one the booking dialog would find; an unavailable doctor offers no slots |
| AppointmentScheduler.BookingKeepsIds | src/components/appointments/appointment-scheduler.tsx:28-33 | with ids 1, 2, 3, …, the new appointment keeps that numbering and its id is used by no earlier one |
| AppointmentScheduler.Scheduler.constructor | src/components/appointments/appointment-scheduler.tsx:22 | the schedule starts with the given appointments |
| AppointmentScheduler.Scheduler.BookAppointment | src/components/appointments/appointment-scheduler.tsx:27-38 | exactly one appointment is appended and earlier ones are unchanged; it has id = previous length + 1, status Booked, and the request's patient, doctor, specialization and start |
| AppointmentScheduler.Scheduler.Submit | src/components/appointments/booking-dialog.tsx:67-74 | the outcome is the submission of the form as it stood; an accepted form books exactly one appointment, closes the dialog and clears its name, date and slot with the doctor kept; a refused form books nothing and leaves the dialog, its doctor and its form as they were |
| AppointmentCalendar.SelectedDayAppointments | src/components/appointments/appointment-calendar.tsx:23-28 | empty with no selected date; otherwise exactly the appointments starting on that day |
| AppointmentCalendar.SelectedDayKeepsOrder | src/components/appointments/appointment-calendar.tsx:25 | the day's list is a subsequence of all appointments: strictly increasing positions pick it out, so booking order is kept |
| AppointmentCalendar.SelectedDayMultiset | src/components/appointments/appointment-calendar.tsx:25-27 | each appointment of the day is listed as often as it occurs; none of another day is |
| AppointmentCalendar.AppointmentDates | src/components/appointments/appointment-calendar.tsx:30-32 | one start time per appointment, in the same order |
| AppointmentCalendar.ListedDaysAreMarked | src/components/appointments/appointment-calendar.tsx:23-32 | a day with listed appointments is a day the calendar marks |
| Lists.FilterEmbeds | src/components/appointments/appointment-calendar.tsx:25 | what a filter keeps is a subsequence of its input, at strictly increasing positions |
| AddPatientDialog.WalkInName | src/components/queue/add-patient-dialog.tsx:33-34 | refused exactly when the name is blank; otherwise the trimmed name: the typed text with only white space cut off before and after it, non-empty and with no white space at either end |
| AddPatientDialog.WalkInNameStable | src/components/queue/add-patient-dialog.tsx:33-34 | the accepted name, submitted again, is accepted unchanged |
| AddPatientDialog.Dialog.constructor | src/components/queue/add-patient-dialog.tsx:28 | the typed name starts empty |
| AddPatientDialog.Dialog.Type | src/components/queue/add-patient-dialog.tsx:68 | typing sets the name and leaves the dialog open or closed as it was |
| AddPatientDialog.Dialog.HandleSubmit | src/components/queue/add-patient-dialog.tsx:31-48 | a non-blank name is passed on trimmed and named in the confirmation, then the name is reset to "" and the dialog closes; a blank name raises the error and leaves the name and the dialog as they were |
| Text.Trim | src/components/queue/add-patient-dialog.tsx:33 | `trim` gives the part of the text left after cutting off only white space at the front and the back, with no white space at either end, empty exactly when the text is all white space |
| Text.TrimIdempotent | src/components/queue/add-patient-dialog.tsx:33-34 | trimming twice is trimming once |
| Fixtures.WellFormedSlotsParse | src/lib/data.ts:11-45 | every slot of a doctor list written "HH:mm" parses |
| Fixtures.MockSlotsWellFormed | src/lib/data.ts:11-45 | every slot the sample doctors offer is written "HH:mm" |
| Fixtures.MockRanking | src/lib/data.ts:11-45 | the rankings list the sample doctors in their given order |
| Fixtures.MockPatientsWellFormed | src/lib/data.ts:3-9 | the sample walk-ins satisfy the store's invariant |
| Fixtures.MockQueueCount | src/lib/data.ts:3-9 | four sample walk-ins are waiting or with a doctor |

## Left out

- The AI flows, the health feed, the wait-time predictor, the settings page, the header and the feedback dialog are not part of this model. They call an external language model, or log to the console, or show a toast.
- The toasts of the priority update and the logout (src/components/dashboard/dashboard.tsx:88-91, 130-133), of a refused booking (src/components/appointments/booking-dialog.tsx:59) and of a booked appointment (src/components/appointments/appointment-scheduler.tsx:34-37) are not modelled. The walk-in dialog's two toasts are.
- JSX rendering, icons, avatars and `getStatusDotColor` are not modelled. They are display only.
- `OverviewCards.AvailableDoctors` is the length of the doctor list; it has no contract of its own.
- The queue manager's wiring is not modelled. It passes only the name to `addPatient`, leaving doctor and priority undefined. `Dashboard.Store.AddPatient` takes all three, as the store's own signature does.
- The queue manager does not forward the priority update or the doctor list to the table. The store operation is modelled directly.
- `date-fns` `format`, `toDateString` and `new Date()` are inputs: the weekday name, the calendar day and "now" are fields or parameters.
- `Text.ToLower`: maps only the ASCII capitals A–Z. JavaScript's `toLowerCase` also maps other Unicode letters.
- `Text.StrLess`: orders strings by character code. JavaScript compares UTF-16 code units, which is the same order for characters of the Basic Multilingual Plane.
- `Text.Number`: reads only plain digit strings, surrounded by white space or not. A blank string reads as 0. Signs, decimals, exponents and hexadecimal forms read as not-a-number here.
- `BookingDialog.Submission`: a slot that does not read as two numbers, or names an hour of 24 or more or a minute of 60 or more, gives `MalformedSlot`, and nothing is booked. The source would book an Invalid Date or roll the time over into another hour or day. The slots come from the doctors' "HH:mm" lists, and `Fixtures.MockSlotsWellFormed` shows that the sample slots never reach that case.
- `BookingDialog.ParseSlot`: gives None for a slot with fewer than two pieces, a piece that is not a plain whole number, an hour of 24 or more or a minute of 60 or more. The source reads any such slot with `Number` and passes NaN or the out-of-range value to `setHours`, which gives an Invalid Date or rolls the time over (for "25:00", 1 o'clock the next day).
- `BookingDialog.AtTime`: moves the timestamp by the change of local clock time. Daylight-saving transitions are not modelled.
- `Lists.SortInPlace`: its stability is not stated. The queue comparator falls back to arrival time, so only patients arriving in the same millisecond could tie.
- The sample walk-ins carry no priority field. The model reads them as Normal, since the source only ever tests for `'Urgent'`.
- The table's sort key can also be null in its type, but nothing sets it to null. The model has no null key.
- Ratings are reals. Their `toFixed` display is not modelled.
- The initial sort order is "desc", as the code sets it. It never shows: the priority sort ignores the direction, and choosing a column resets it to "asc".
