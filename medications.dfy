/** The medications page: adherence statistics over the trailing week, the
    adherence rate, logging a dose and adding a medication.
    Times are milliseconds since the epoch and "now" is always a parameter. */
module Medications {
  import opened Wrappers
  import opened Seqs
  import opened Rounding

  const DayMillis: int := 24 * 60 * 60 * 1000
  /** Length of the trailing adherence window: seven days of 24 hours. */
  const WindowMillis: int := 7 * DayMillis

  const TakenLabel: string := "taken"
  const MissedLabel: string := "missed"

  /** The two outcomes the page lets a user record for a dose. */
  datatype Dose = Taken | Missed {
    function Label(): (s: string)
      ensures s == TakenLabel || s == MissedLabel
      ensures this == Taken <==> s == TakenLabel
    {
      match this
      case Taken => TakenLabel
      case Missed => MissedLabel
    }
  }

  /** An adherence_logs row of the current user. The status column is free text
      as far as the page is concerned; only "taken" and "missed" are counted. */
  datatype AdherenceLog = AdherenceLog(medicationId: string, status: string, scheduledTime: int)

  /** A medications row of the current user. */
  datatype Medication = Medication(
    name: string, dosage: string, frequency: string,
    startDate: string, endDate: Option<string>, isActive: bool)

  /** The add-medication form; every field is the text typed into its input. */
  datatype MedicationForm = MedicationForm(
    name: string, dosage: string, frequency: string, startDate: string, endDate: string)

  /** The counters shown on the adherence card. */
  datatype AdherenceStats = AdherenceStats(total: nat, taken: nat, missed: nat)

  /** The window test of the adherence query: the row is at most seven days
      old (rows scheduled in the future count as well). */
  predicate InWindow(log: AdherenceLog, now: int): (inside: bool)
    ensures inside <==> now - log.scheduledTime <= WindowMillis
  {
    log.scheduledTime >= now - WindowMillis
  }

  function WindowPredicate(now: int): AdherenceLog -> bool
  {
    log => InWindow(log, now)
  }

  /** The rows the page fetches: those scheduled at or after now minus seven days. */
  function Windowed(logs: seq<AdherenceLog>, now: int): (w: seq<AdherenceLog>)
    ensures forall log :: log in w <==> log in logs && log.scheduledTime >= now - WindowMillis
    ensures forall log :: multiset(w)[log] == if InWindow(log, now) then multiset(logs)[log] else 0
    ensures IsSubsequence(w, logs)
  {
    FilterMultiplicity(WindowPredicate(now), logs);
    Filter(WindowPredicate(now), logs)
  }

  function HasStatus(wanted: string): AdherenceLog -> bool
  {
    (log: AdherenceLog) => log.status == wanted
  }

  /** The status column of each row, in order. */
  function Statuses(logs: seq<AdherenceLog>): seq<string>
  {
    seq(|logs|, i requires 0 <= i < |logs| => logs[i].status)
  }

  /** `logs.filter(log => log.status === wanted).length`: the number of rows
      whose status is `wanted`. */
  function CountStatus(logs: seq<AdherenceLog>, wanted: string): (n: nat)
    ensures n == multiset(Statuses(logs))[wanted]
  {
    CountIsOccurrences(logs, wanted);
    |Filter(HasStatus(wanted), logs)|
  }

  lemma {:induction false} CountIsOccurrences(logs: seq<AdherenceLog>, wanted: string)
    ensures |Filter(HasStatus(wanted), logs)| == multiset(Statuses(logs))[wanted]
  {
    if logs != [] {
      CountIsOccurrences(logs[1..], wanted);
      var rest := Statuses(logs[1..]);
      assert Statuses(logs) == [logs[0].status] + rest;
      assert multiset(Statuses(logs)) == multiset{logs[0].status} + multiset(rest);
      if logs[0].status == wanted {
        assert Filter(HasStatus(wanted), logs) == [logs[0]] + Filter(HasStatus(wanted), logs[1..]);
      } else {
        assert Filter(HasStatus(wanted), logs) == Filter(HasStatus(wanted), logs[1..]);
      }
    }
  }

  /** The statistics `loadAdherenceStats` stores: the taken and missed counts of
      the windowed rows, and their sum as the total. */
  function ComputeStats(logs: seq<AdherenceLog>, now: int): (s: AdherenceStats)
    ensures s.taken == multiset(Statuses(Windowed(logs, now)))[TakenLabel]
    ensures s.missed == multiset(Statuses(Windowed(logs, now)))[MissedLabel]
    ensures s.total == s.taken + s.missed
    ensures s.total <= |Windowed(logs, now)|
  {
    var w := Windowed(logs, now);
    var taken := CountStatus(w, TakenLabel);
    var missed := CountStatus(w, MissedLabel);
    FilterBothStatuses(w);
    AdherenceStats(taken + missed, taken, missed)
  }

  lemma FilterBothStatuses(w: seq<AdherenceLog>)
    ensures |Filter(HasStatus(TakenLabel), w)| + |Filter(HasStatus(MissedLabel), w)| <= |w|
  {
    var taken, missed := Filter(HasStatus(TakenLabel), w), Filter(HasStatus(MissedLabel), w);
    var known := Filter(HasKnownStatus(), w);
    FilterPartition(HasStatus(TakenLabel), HasStatus(MissedLabel), known);
    FilterNarrow(HasStatus(TakenLabel), HasKnownStatus(), w);
    FilterNarrow(HasStatus(MissedLabel), HasKnownStatus(), w);
  }

  function HasKnownStatus(): AdherenceLog -> bool
  {
    (log: AdherenceLog) => log.status == TakenLabel || log.status == MissedLabel
  }

  /** Filtering by `p` inside what `q` keeps is filtering by `p`, when `p` implies `q`. */
  lemma {:induction false} FilterNarrow(p: AdherenceLog -> bool, q: AdherenceLog -> bool, s: seq<AdherenceLog>)
    requires forall x :: p(x) ==> q(x)
    ensures Filter(p, Filter(q, s)) == Filter(p, s)
  {
    if s != [] {
      FilterNarrow(p, q, s[1..]);
      if q(s[0]) {
        assert ([s[0]] + Filter(q, s[1..]))[1..] == Filter(q, s[1..]);
      }
    }
  }

  /** `adherenceRate`: 0 with no counted doses, otherwise taken / total as a
      whole percentage rounded half up. */
  function AdherenceRate(s: AdherenceStats): (r: nat)
    ensures s.total == 0 ==> r == 0
    ensures s.total > 0 ==> 2 * s.total * r <= 200 * s.taken + s.total < 2 * s.total * r + 2 * s.total
    ensures s.taken <= s.total ==> r <= 100
  {
    if s.total > 0 then RoundedPercent(s.taken, s.total) else 0
  }

  /** The "great consistency" note under the adherence card, shown for a rate
      of 85 or more: exactly when doses were counted and at least 84.5 % of
      them were taken. */
  predicate ShowsGreatConsistency(s: AdherenceStats): (shown: bool)
    ensures s.total == 0 ==> !shown
    ensures s.total > 0 ==> (shown <==> 200 * s.taken >= 169 * s.total)
  {
    ConsistencyThreshold(s);
    AdherenceRate(s) >= 85
  }

  lemma ConsistencyThreshold(s: AdherenceStats)
    ensures s.total > 0 ==> (AdherenceRate(s) >= 85 <==> 200 * s.taken >= 169 * s.total)
  {
    if s.total > 0 {
      AtLeast(s.taken, s.total, 85);
    }
  }

  /** Appending one row changes the counters only through that row: it adds one
      to `taken` or `missed` (and `total`) when it lies in the window and has
      that status, and leaves all three alone otherwise. */
  lemma StatsAfterAppend(logs: seq<AdherenceLog>, log: AdherenceLog, now: int)
    ensures var before, after := ComputeStats(logs, now), ComputeStats(logs + [log], now);
      var counted := InWindow(log, now);
      && after.taken == before.taken + (if counted && log.status == TakenLabel then 1 else 0)
      && after.missed == before.missed + (if counted && log.status == MissedLabel then 1 else 0)
      && after.total == before.total + (if counted && log.status in {TakenLabel, MissedLabel} then 1 else 0)
  {
    var w := Windowed(logs, now);
    FilterAppend(WindowPredicate(now), logs, log);
    if InWindow(log, now) {
      assert Windowed(logs + [log], now) == w + [log];
      FilterAppend(HasStatus(TakenLabel), w, log);
      FilterAppend(HasStatus(MissedLabel), w, log);
    } else {
      assert Windowed(logs + [log], now) == w;
    }
  }

  /** Logging a dose now adds one to its counter and to the total and leaves
      the other counter as it was. */
  lemma LoggingDose(logs: seq<AdherenceLog>, medicationId: string, dose: Dose, now: int)
    ensures var before := ComputeStats(logs, now);
      var after := ComputeStats(logs + [AdherenceLog(medicationId, dose.Label(), now)], now);
      && after.total == before.total + 1
      && after.taken == before.taken + (if dose == Taken then 1 else 0)
      && after.missed == before.missed + (if dose == Missed then 1 else 0)
  {
    StatsAfterAppend(logs, AdherenceLog(medicationId, dose.Label(), now), now);
  }

  /** When every windowed row is either taken or missed, the total is the number
      of windowed rows. */
  lemma TotalCountsEveryRow(logs: seq<AdherenceLog>, now: int)
    requires forall log :: log in Windowed(logs, now) ==> log.status in {TakenLabel, MissedLabel}
    ensures ComputeStats(logs, now).total == |Windowed(logs, now)|
  {
    FilterPartition(HasStatus(TakenLabel), HasStatus(MissedLabel), Windowed(logs, now));
  }

  /** `formData.end_date || null`, with the rest of the form: the row the page inserts. */
  function NewMedication(form: MedicationForm): (m: Medication)
    ensures m.endDate.None? <==> form.endDate == ""
    ensures m.endDate.Some? ==> m.endDate.value == form.endDate
    ensures m.name == form.name && m.dosage == form.dosage && m.frequency == form.frequency
    ensures m.startDate == form.startDate && m.isActive
  {
    Medication(form.name, form.dosage, form.frequency, form.startDate,
               if form.endDate == "" then None else Some(form.endDate), true)
  }

  /** The empty form, with today's date as start date. */
  function BlankForm(today: string): MedicationForm
  {
    MedicationForm("", "", "", today, "")
  }

  function IsActive(m: Medication): bool
  {
    m.isActive
  }

  /** The state of the medications page. The two sequences stand for the user's
      rows in the backend; `insertOk`, `fetchOk` and `reloadOk` say whether a
      backend call succeeded. */
  class MedicationsPage {
    var logs: seq<AdherenceLog>
    var medications: seq<Medication>
    var stats: AdherenceStats
    var form: MedicationForm
    var isOpen: bool
    var isLoading: bool

    ghost predicate Valid()
      reads this
    {
      stats.total == stats.taken + stats.missed
    }

    constructor (storedLogs: seq<AdherenceLog>, storedMedications: seq<Medication>, today: string)
      ensures Valid()
      ensures logs == storedLogs && medications == storedMedications
      ensures stats == AdherenceStats(0, 0, 0) && form == BlankForm(today)
      ensures !isOpen && !isLoading
    {
      logs, medications := storedLogs, storedMedications;
      stats := AdherenceStats(0, 0, 0);
      form := BlankForm(today);
      isOpen, isLoading := false, false;
    }

    /** `loadAdherenceStats`: on success the counters are recomputed from the
        windowed rows; on a failed fetch they keep their previous values. */
    method LoadAdherenceStats(now: int, fetchOk: bool)
      requires Valid()
      modifies this`stats
      ensures Valid()
      ensures stats == if fetchOk then ComputeStats(logs, now) else old(stats)
    {
      if fetchOk {
        stats := ComputeStats(logs, now);
      }
    }

    /** `logAdherence`: insert one row scheduled now, then reload the counters. */
    method LogAdherence(medicationId: string, dose: Dose, now: int, insertOk: bool, reloadOk: bool)
      requires Valid()
      modifies this`logs, this`stats
      ensures Valid()
      ensures logs == if insertOk then old(logs) + [AdherenceLog(medicationId, dose.Label(), now)] else old(logs)
      ensures stats == if insertOk && reloadOk then ComputeStats(logs, now) else old(stats)
    {
      if insertOk {
        logs := logs + [AdherenceLog(medicationId, dose.Label(), now)];
        LoadAdherenceStats(now, reloadOk);
      }
    }

    /** `handleSubmit`: insert the form as a new medication; on success close the
        dialog and reset the form; in every case stop loading. */
    method HandleSubmit(today: string, insertOk: bool)
      modifies this`medications, this`form, this`isOpen, this`isLoading
      ensures medications == if insertOk then old(medications) + [NewMedication(old(form))] else old(medications)
      ensures form == if insertOk then BlankForm(today) else old(form)
      ensures isOpen == if insertOk then false else old(isOpen)
      ensures !isLoading
      ensures logs == old(logs) && stats == old(stats)
    {
      isLoading := true;
      if insertOk {
        medications := medications + [NewMedication(form)];
        isOpen := false;
        form := BlankForm(today);
      }
      isLoading := false;
    }

    /** The rate shown on the adherence card. */
    function Rate(): (r: nat)
      reads this
      requires Valid()
      ensures r == AdherenceRate(stats)
      ensures r <= 100
      ensures stats.total == 0 ==> r == 0
    {
      AdherenceRate(stats)
    }

    /** The medications `loadMedications` lists: the active ones. */
    function Listed(): (ms: seq<Medication>)
      reads this
      ensures forall m :: m in ms <==> m in medications && m.isActive
      ensures forall m :: multiset(ms)[m] == if m.isActive then multiset(medications)[m] else 0
      ensures IsSubsequence(ms, medications)
    {
      FilterMultiplicity(IsActive, medications);
      Filter(IsActive, medications)
    }
  }
}
