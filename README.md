# Health companion pages — a Dafny model

This project models the page logic of a personal health web application:

- **Medications**: the adherence counters of the trailing seven days, the
  adherence rate and its "great consistency" note, logging a dose as taken or
  missed, and adding a medication from the form.
- **Dashboard**: one snapshot holding the number of health readings, the number
  of active medications, the adherence rate of the trailing seven days and the
  latest reading, with a fallback for each query whose answer is missing.
- **Health metrics**: the loaded list of readings, the trend series for the
  selected metric type, the recent-entries list, the row a submission stores and
  the form after it.
- **Doctor consultation**: the fixed doctor directory, the search and specialty
  filter over it, and the booking dialog.

Backend tables are sequences of rows passed in as parameters. Whether a backend
call succeeded is a boolean parameter (`insertOk`, `fetchOk`, `reloadOk`), and a
missing query answer is `None`. Times are integer milliseconds, and "now" is
always a parameter. `Math.round(part / whole * 100)` is computed exactly in
integers as the nearest whole percentage, with halves rounded up (`Rounding`).

Modules: `Wrappers` (`Option`), `Seqs` (filter, reverse and slice, with their facts), `Rounding`,
`Medications`, `HealthMetrics`, `Dashboard`, `DoctorConsultation`.

Two behaviours of the code differ from what one might expect. The model follows
the code in both:

- The dashboard divides the taken rows by **all** fetched rows. The medications
  page divides them by taken plus missed only. The two rates agree when every
  windowed row is taken or missed (`Dashboard.RatesAgree`). They differ
  otherwise: one taken row and one "skipped" row give 50 on the dashboard and
  100 on the medications page (`Dashboard.RatesCanDiffer`).
- The dashboard's queries report errors in their results instead of throwing.
  So each field falls back on its own (`count || 0`, a rate of 0, a null last
  reading) rather than the whole load failing (`Dashboard.BuildStats`).

## Model

| member | source | states |
|---|---|---|
| Seqs.Filter | src/pages/Medications.tsx:67-68 | the kept elements are exactly those that satisfy the predicate, in their original order (a subsequence), and no more than the input |
| Seqs.FilterIdempotent | src/pages/DoctorConsultation.tsx:115-121 | filtering twice by the same predicate is filtering once |
| Seqs.FilterMonotone | src/pages/DoctorConsultation.tsx:115-121 | a stronger predicate keeps a subsequence of what a weaker one keeps |
| Seqs.FilterAppend | src/pages/Medications.tsx:67-68 | filtering a list with one appended row is the old result plus that row when it qualifies |
| Seqs.FilterPartition | src/pages/Medications.tsx:67-71 | when every row has exactly one of two properties, the two filtered lists together are as long as the list |
| Seqs.FilterKeepsAll | src/pages/DoctorConsultation.tsx:115-121 | a filter whose predicate every element satisfies returns the list unchanged |
| Seqs.FilterKeepsLength | src/pages/Dashboard.tsx:35-39 | a filter that keeps the whole length kept every element |
| Seqs.FilterMultiplicity | src/pages/Medications.tsx:67-68 | a filter keeps every occurrence of a qualifying value and none of the others |
| Seqs.Reverse | src/pages/HealthMetrics.tsx:82 | `reverse()` puts element `i` at position `n - 1 - i` |
| Seqs.Take | src/pages/HealthMetrics.tsx:81 | `slice(0, n)` is the first `n` elements, or all when there are fewer |
| Seqs.SubsequenceDescending | src/pages/HealthMetrics.tsx:79-81 | a subsequence of a newest-first list is newest first |
| Seqs.ReverseDescending | src/pages/HealthMetrics.tsx:82 | reversing a newest-first list gives an oldest-first list |
| Rounding.RoundedPercent | src/pages/Medications.tsx:134-136 | the result is the whole percentage nearest to 100 * part / whole with halves rounded up; it is 0 for no part, 100 for the whole, and at most 100 |
| Rounding.AtLeast | src/pages/Medications.tsx:263 | the rounded percentage reaches `k` exactly when 100 * part / whole is at least k - 1/2 |
| Medications.Dose.Label | src/pages/Medications.tsx:113 | a logged dose has the status "taken" exactly when it was taken, and "missed" otherwise |
| Medications.Windowed | src/pages/Medications.tsx:56-63 | the fetched rows are exactly the user's rows scheduled at or after now minus seven days, each as many times as it is stored; the query sets no order, and the model keeps the stored order |
| Medications.InWindow | src/pages/Medications.tsx:56-63 | a row is in the window exactly when it is at most seven days old (future rows included) |
| Medications.CountStatus | src/pages/Medications.tsx:67-68 | the count is the number of rows whose status is the wanted one |
| Medications.CountIsOccurrences | src/pages/Medications.tsx:67-68 | the length of the status filter equals the number of occurrences of that status |
| Medications.ComputeStats | src/pages/Medications.tsx:54-78 | taken and missed are the counts of those statuses among the windowed rows; total is their sum and at most the number of windowed rows |
| Medications.FilterBothStatuses | src/pages/Medications.tsx:67-71 | taken plus missed never exceeds the number of fetched rows |
| Medications.FilterNarrow | src/pages/Medications.tsx:67-68 | filtering by a status inside the rows of known status is filtering by that status |
| Medications.AdherenceRate | src/pages/Medications.tsx:134-136 | 0 without counted doses; otherwise the nearest whole percentage of taken over total, at most 100 |
| Medications.ShowsGreatConsistency | src/pages/Medications.tsx:263 | the note never shows without counted doses, and otherwise shows exactly when at least 84.5 % of them were taken |
| Medications.StatsAfterAppend | src/pages/Medications.tsx:113-132 | one more row changes taken, missed and total only through that row, and only when it lies in the window |
| Medications.LoggingDose | src/pages/Medications.tsx:113-132 | logging a dose now adds one to its counter and to the total and leaves the other counter alone |
| Medications.TotalCountsEveryRow | src/pages/Medications.tsx:70-74 | when every windowed row is taken or missed, the total is the number of windowed rows |
| Medications.NewMedication | src/pages/Medications.tsx:85-91 | the inserted row copies the form, has no end date exactly when the end date field is empty, and is active |
| Medications.MedicationsPage.constructor | src/pages/Medications.tsx:17-28 | the page starts with zero counters, a closed dialog, no loading and an empty form dated today |
| Medications.MedicationsPage.LoadAdherenceStats | src/pages/Medications.tsx:54-78 | on success the counters become the statistics of the windowed rows; on failure they are unchanged |
| Medications.MedicationsPage.LogAdherence | src/pages/Medications.tsx:113-132 | a successful insert appends one row scheduled now with the dose's status, and a successful reload recomputes the counters; a failed insert changes nothing |
| Medications.MedicationsPage.HandleSubmit | src/pages/Medications.tsx:80-111 | a successful insert appends the form's medication, closes the dialog and resets the form; a failure keeps form and dialog; loading ends in both cases |
| Medications.MedicationsPage.Rate | src/pages/Medications.tsx:134-136 | the rate shown is the adherence rate of the page's counters: at most 100, and 0 without counted doses |
| Medications.MedicationsPage.Listed | src/pages/Medications.tsx:37-47 | the listed medications are exactly the active ones, each as many times as it is stored, in stored order |
| HealthMetrics.LoadMetrics | src/pages/HealthMetrics.tsx:29-36 | the loaded readings are the first thirty of the newest-first rows |
| HealthMetrics.LoadKeepsOrder | src/pages/HealthMetrics.tsx:35-36 | the loaded list stays newest first |
| HealthMetrics.ToPoints | src/pages/HealthMetrics.tsx:84-87 | each reading becomes the point of its time and number, in order |
| HealthMetrics.PointOf | src/pages/HealthMetrics.tsx:84-87 | a point carries its reading's time and number |
| HealthMetrics.ChartReadings | src/pages/HealthMetrics.tsx:79-82 | at most seven readings remain, all of the selected type and numeric |
| HealthMetrics.ChartData | src/pages/HealthMetrics.tsx:78-88 | the series has seven points, or as many as there are qualifying readings when fewer |
| HealthMetrics.ChartIsNewestQualifying | src/pages/HealthMetrics.tsx:78-88 | point `i` of the series is qualifying reading `k - 1 - i`: the newest `k` qualifying readings, oldest first |
| HealthMetrics.ChartPointsFromReadings | src/pages/HealthMetrics.tsx:78-88 | every point comes from a loaded reading of the selected type with that number and time |
| HealthMetrics.ChartChronological | src/pages/HealthMetrics.tsx:78-88 | for a newest-first list the series runs oldest first |
| HealthMetrics.PointsKeepOrder | src/pages/HealthMetrics.tsx:84-87 | mapping readings to points keeps their time order |
| HealthMetrics.ChartShown | src/pages/HealthMetrics.tsx:204 | the trend card shows exactly when the type is not mood and some loaded reading of that type carries a number |
| HealthMetrics.SeriesNonEmpty | src/pages/HealthMetrics.tsx:78-88 | the series is non-empty exactly when some loaded reading of the type carries a number |
| HealthMetrics.RecentEntries | src/pages/HealthMetrics.tsx:187 | the recent list is the first ten loaded readings, of any type |
| HealthMetrics.SubmittedReading | src/pages/HealthMetrics.tsx:51-62 | the stored value is the mood for mood and the typed text otherwise; the number is absent exactly for mood or unparsable text |
| HealthMetrics.MoodNeverCharted | src/pages/HealthMetrics.tsx:52 | a submitted mood reading enters no trend series |
| HealthMetrics.FormAfterSubmit | src/pages/HealthMetrics.tsx:64-68 | success clears the value and the mood and keeps the type; failure keeps the form |
| HealthMetrics.SubmitDisabled | src/pages/HealthMetrics.tsx:167 | the button is disabled while loading and, for mood, until a mood is chosen; when idle it is enabled for a chosen mood and for every other type |
| HealthMetrics.EnabledMoodHasValue | src/pages/HealthMetrics.tsx:167 | when the submit button is enabled for mood, the stored mood is not empty |
| HealthMetrics.ChartOfFewQualifying | src/pages/HealthMetrics.tsx:78-88 | with at most seven readings, all qualifying, the series is every reading, oldest first |
| HealthMetrics.ScenarioFiveWeights | src/pages/HealthMetrics.tsx:78-88 | five weight readings loaded newest first chart as their five values in time order |
| HealthMetrics.ScenarioMoodMixedIn | src/pages/HealthMetrics.tsx:80 | a mood reading among weight readings is left out of the weight series but listed among the recent entries |
| Dashboard.DashboardRate | src/pages/Dashboard.tsx:60-64 | 0 for missing or empty rows; otherwise the nearest whole percentage of taken rows over all fetched rows, at most 100 |
| Dashboard.CountOrZero | src/pages/Dashboard.tsx:67-68 | a present count passes through and a missing one becomes 0 |
| Dashboard.BuildStats | src/pages/Dashboard.tsx:66-71 | each present answer passes through (counts as they are, rows as their rate) and each missing one falls back to 0, independently of the other fields; the last reading is kept as answered |
| Dashboard.ActiveMedicationCount | src/pages/Dashboard.tsx:35-39 | the count is the number of rows whose `is_active` is true; it is at most the number of medications, equals it exactly when all are active and is 0 exactly when none is |
| Dashboard.ActiveCountIsOccurrences | src/pages/Dashboard.tsx:35-39 | the length of the active filter equals the number of true `is_active` flags |
| Dashboard.LatestReading | src/pages/Dashboard.tsx:42-48 | none exactly for no readings; otherwise a reading of the user with the greatest timestamp |
| Dashboard.LoadDashboardStats | src/pages/Dashboard.tsx:26-76 | the snapshot holds the reading count, the active medication count, the latest reading and the rate of the windowed rows |
| Dashboard.RatesAgree | src/pages/Dashboard.tsx:60-64 | when every windowed row is taken or missed, the dashboard rate equals the medications page's rate |
| Dashboard.RatesCanDiffer | src/pages/Dashboard.tsx:60-64 | one taken and one "skipped" row give 50 on the dashboard and 100 on the medications page |
| Dashboard.ShowsCongratulation | src/pages/Dashboard.tsx:173 | the card shows exactly when the rate is at least 1, and never before anything is loaded |
| Dashboard.CongratulationIff | src/pages/Dashboard.tsx:173 | the congratulation card shows exactly when some row is in the window and at least 0.5 % of the windowed rows were taken |
| Dashboard.LastCheckIn | src/pages/Dashboard.tsx:126-129 | "N/A" and "No data yet" exactly without a latest reading; otherwise its date and type |
| DoctorConsultation.SpecialtiesMatchDirectory | src/pages/DoctorConsultation.tsx:113 | the selector offers "all" and exactly the specialties of the directory |
| DoctorConsultation.LowerChar | src/pages/DoctorConsultation.tsx:116-118 | an upper-case letter becomes the same letter in lower case; every other character is kept |
| DoctorConsultation.Lower | src/pages/DoctorConsultation.tsx:116-118 | `toLowerCase()` keeps the length, turns each upper-case letter into its lower-case letter and keeps every other character in place |
| DoctorConsultation.LowerIdempotent | src/pages/DoctorConsultation.tsx:116-118 | lower-casing twice is lower-casing once |
| DoctorConsultation.LowerIgnoresCase | src/pages/DoctorConsultation.tsx:116-118 | two strings that differ only in letter case lower-case to the same string |
| DoctorConsultation.Includes | src/pages/DoctorConsultation.tsx:116-118 | the empty term is always included, and a term longer than the text never is |
| DoctorConsultation.IncludesIffOccurs | src/pages/DoctorConsultation.tsx:116-118 | `includes` holds exactly when the needle occurs at some position of the text |
| DoctorConsultation.MatchesSearch | src/pages/DoctorConsultation.tsx:116-118 | the page's search test holds exactly when the lower-cased term occurs in the lower-cased name, specialty or location, and always for an empty term |
| DoctorConsultation.FilterDoctors | src/pages/DoctorConsultation.tsx:115-121 | a doctor is kept exactly when the search term occurs in a field and the specialty is "all" or the doctor's; order is kept |
| DoctorConsultation.FilteredDoctors | src/pages/DoctorConsultation.tsx:115-121 | the listed doctors are exactly the directory's doctors the search hits and the specialty admits, in directory order |
| DoctorConsultation.EmptySearchListsAll | src/pages/DoctorConsultation.tsx:115-121 | an empty search with "all" lists every doctor in order |
| DoctorConsultation.SpecialtyNarrows | src/pages/DoctorConsultation.tsx:119 | choosing a specialty keeps a subsequence of what "all" keeps for the same term |
| DoctorConsultation.FilterDoctorsIdempotent | src/pages/DoctorConsultation.tsx:115-121 | filtering the filtered list again changes nothing |
| DoctorConsultation.SearchIgnoresCase | src/pages/DoctorConsultation.tsx:116-118 | a term and its lower-cased form list the same doctors |
| DoctorConsultation.SearchCaseBlind | src/pages/DoctorConsultation.tsx:115-121 | two search terms that differ only in letter case list the same doctors |
| DoctorConsultation.ScenarioUpperCaseSearch | src/pages/DoctorConsultation.tsx:116-118 | searching "CARDIO" in capitals matches the cardiologist |
| DoctorConsultation.CanBook | src/pages/DoctorConsultation.tsx:124 | booking is allowed exactly when both a date and a time are chosen, so never from the reset form |
| DoctorConsultation.BookingDialog.constructor | src/pages/DoctorConsultation.tsx:105-111 | no doctor selected, the dialog closed, and the form empty with mode "video" |
| DoctorConsultation.BookingDialog.SelectDoctor | src/pages/DoctorConsultation.tsx:231 | the clicked doctor becomes the selected one |
| DoctorConsultation.BookingDialog.SetOpen | src/pages/DoctorConsultation.tsx:273 | the dialog's open flag follows the dialog |
| DoctorConsultation.BookingDialog.SetDate | src/pages/DoctorConsultation.tsx:293 | only the date of the form changes |
| DoctorConsultation.BookingDialog.SetTime | src/pages/DoctorConsultation.tsx:299 | only the time of the form changes |
| DoctorConsultation.BookingDialog.SetMode | src/pages/DoctorConsultation.tsx:314 | only the mode of the form changes |
| DoctorConsultation.BookingDialog.HandleBooking | src/pages/DoctorConsultation.tsx:123-136 | a booking happens exactly when both date and time are set; it closes the dialog and resets the form; otherwise nothing changes |
| DoctorConsultation.BookingScenario | src/pages/DoctorConsultation.tsx:123-136 | choosing a doctor, a date, a time and a mode and confirming always books |

## Left out

- Authentication, routing, the layout, and the profile and symptom-checker pages are not part of this model.
- Toasts, console logging, animations, icons, chart drawing and the rest of the rendering are left out. Only the conditions that decide what is shown are modelled.
- Backend queries are not modelled as I/O. Their answers are parameters, and their success is a boolean.
- Sorting by `created_at` when loading medications is left out: the page shows the rows in the order it receives them.
- Medications.WindowMillis: "seven days ago" is taken as exactly 7 × 24 hours. `setDate(getDate() - 7)` works on local calendar days, which differ across a daylight-saving change.
- Medications.NewMedication: `is_active` is not sent on insert. The model takes the column default to be true, which the listing's `is_active = true` filter relies on.
- Medications.MedicationsPage.HandleSubmit: the list reload after an insert is modelled as the new row joining the stored rows. Its ordering and its failure are not modelled.
- HealthMetrics.SubmittedReading: `parseFloat` is a parameter (`None` when the text is not a number). Its parsing rules and the floating-point value are not modelled. A NaN is taken to be stored as null, which the chart filter relies on.
- HealthMetrics.SubmitDisabled: models only the button's `disabled` condition. The browser's `required` check on the value input, which blocks a non-mood submit with an empty value, is not modelled.
- HealthMetrics.FormAfterSubmit: the `isLoading` flag and the reload after a submission are not modelled.
- HealthMetrics.ChartData: the point's label is the reading's timestamp, not its `toLocaleDateString()` text.
- Dashboard.LastCheckIn: dates are shown as timestamps, not formatted text.
- Rounding.RoundedPercent: the percentage is computed exactly. Floating-point error in `taken / total * 100` just below a half is not modelled.
- DoctorConsultation.Lower: lower-casing covers ASCII letters only; Unicode case mapping is not modelled.
- Ratings, fees, experience and biographies of the doctors are display data and are left out of `Doctor`.
- The dialogs of all doctor cards share one open flag on the page. The model has that one flag too, but not the per-card rendering.
