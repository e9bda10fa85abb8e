/** The dashboard: one snapshot of the number of readings, the number of
    active medications, the adherence rate of the trailing week and the latest
    reading. Each backend query is an input; a query whose result is missing
    (null) is `None`. */
module Dashboard {
  import opened Wrappers
  import opened Seqs
  import opened Rounding
  import M = Medications
  import H = HealthMetrics

  datatype DashboardStats = DashboardStats(
    metricsCount: nat, medicationsCount: nat, adherenceRate: nat, lastMetric: Option<H.HealthReading>)

  /** The snapshot before anything is loaded. */
  const InitialStats: DashboardStats := DashboardStats(0, 0, 0, None)

  /** The adherence block of `loadDashboardStats`: 0 when the fetched rows are
      missing or empty, otherwise the taken rows over ALL fetched rows, whatever
      their status, as a whole percentage rounded half up. */
  function DashboardRate(adherenceLogs: Option<seq<M.AdherenceLog>>): (rate: nat)
    ensures adherenceLogs.None? || adherenceLogs.value == [] ==> rate == 0
    ensures rate <= 100
    ensures adherenceLogs.Some? && adherenceLogs.value != [] ==>
      var n, taken := |adherenceLogs.value|, multiset(M.Statuses(adherenceLogs.value))[M.TakenLabel];
      2 * n * rate <= 200 * taken + n < 2 * n * rate + 2 * n
  {
    if adherenceLogs.Some? && |adherenceLogs.value| > 0 then
      RoundedPercent(M.CountStatus(adherenceLogs.value, M.TakenLabel), |adherenceLogs.value|)
    else 0
  }

  /** `count || 0`: a present count passes through, a missing one is 0. */
  function CountOrZero(count: Option<nat>): (n: nat)
    ensures count.None? ==> n == 0
    ensures count.Some? ==> n == count.value
  {
    if count.Some? then count.value else 0
  }

  /** The object `setStats` receives, from the four query results. */
  function BuildStats(
    metricsCount: Option<nat>, medicationsCount: Option<nat>,
    lastMetric: Option<H.HealthReading>, adherenceLogs: Option<seq<M.AdherenceLog>>): (s: DashboardStats)
    ensures metricsCount.None? ==> s.metricsCount == 0
    ensures metricsCount.Some? ==> s.metricsCount == metricsCount.value
    ensures medicationsCount.None? ==> s.medicationsCount == 0
    ensures medicationsCount.Some? ==> s.medicationsCount == medicationsCount.value
    ensures adherenceLogs.None? ==> s.adherenceRate == 0
    ensures adherenceLogs.Some? ==> s.adherenceRate == DashboardRate(adherenceLogs)
    ensures s.adherenceRate <= 100
    ensures s.lastMetric == lastMetric
  {
    DashboardStats(CountOrZero(metricsCount), CountOrZero(medicationsCount),
                   DashboardRate(adherenceLogs), lastMetric)
  }

  /** The `is_active` column of each row, in order. */
  function ActiveFlags(medications: seq<M.Medication>): seq<bool>
  {
    seq(|medications|, i requires 0 <= i < |medications| => medications[i].isActive)
  }

  /** The number of active medications (the second count query). */
  function ActiveMedicationCount(medications: seq<M.Medication>): (n: nat)
    ensures n == multiset(ActiveFlags(medications))[true]
    ensures n <= |medications|
    ensures n == |medications| <==> forall m :: m in medications ==> m.isActive
    ensures n == 0 <==> forall m :: m in medications ==> !m.isActive
  {
    ActiveCountFacts(medications);
    ActiveCountIsOccurrences(medications);
    |Filter(M.IsActive, medications)|
  }

  lemma {:induction false} ActiveCountIsOccurrences(medications: seq<M.Medication>)
    ensures |Filter(M.IsActive, medications)| == multiset(ActiveFlags(medications))[true]
  {
    if medications != [] {
      ActiveCountIsOccurrences(medications[1..]);
      var rest := ActiveFlags(medications[1..]);
      assert ActiveFlags(medications) == [medications[0].isActive] + rest;
      assert multiset(ActiveFlags(medications)) == multiset{medications[0].isActive} + multiset(rest);
      if medications[0].isActive {
        assert Filter(M.IsActive, medications) == [medications[0]] + Filter(M.IsActive, medications[1..]);
      } else {
        assert Filter(M.IsActive, medications) == Filter(M.IsActive, medications[1..]);
      }
    }
  }

  lemma ActiveCountFacts(medications: seq<M.Medication>)
    ensures var n := |Filter(M.IsActive, medications)|;
      && (n == |medications| <==> forall m :: m in medications ==> m.isActive)
      && (n == 0 <==> forall m :: m in medications ==> !m.isActive)
  {
    var active := Filter(M.IsActive, medications);
    if |active| == |medications| {
      FilterKeepsLength(M.IsActive, medications);
    }
    if forall m :: m in medications ==> m.isActive {
      FilterKeepsAll(M.IsActive, medications);
    }
    if |active| > 0 {
      assert active[0] in active;
    }
  }

  /** The reading the third query returns: one with the greatest timestamp (the
      earliest such in `readings` when several share it), or none. */
  function LatestReading(readings: seq<H.HealthReading>): (latest: Option<H.HealthReading>)
    ensures latest.None? <==> readings == []
    ensures latest.Some? ==> latest.value in readings
    ensures latest.Some? ==> forall r :: r in readings ==> r.timestamp <= latest.value.timestamp
  {
    if readings == [] then None
    else
      var rest := LatestReading(readings[1..]);
      assert forall r :: r in readings ==> r == readings[0] || r in readings[1..];
      if rest.None? || readings[0].timestamp >= rest.value.timestamp then Some(readings[0])
      else rest
  }

  /** `loadDashboardStats` when every query answers: `readings`, `medications`
      and `logs` are the user's rows. */
  function LoadDashboardStats(
    readings: seq<H.HealthReading>, medications: seq<M.Medication>,
    logs: seq<M.AdherenceLog>, now: int): (s: DashboardStats)
    ensures s.metricsCount == |readings|
    ensures s.medicationsCount == ActiveMedicationCount(medications)
    ensures s.lastMetric == LatestReading(readings)
    ensures s.adherenceRate == DashboardRate(Some(M.Windowed(logs, now)))
  {
    BuildStats(Some(|readings|), Some(ActiveMedicationCount(medications)),
               LatestReading(readings), Some(M.Windowed(logs, now)))
  }

  /** When every windowed row is taken or missed, the dashboard's rate and the
      medications page's rate are the same number. */
  lemma RatesAgree(logs: seq<M.AdherenceLog>, now: int)
    requires forall log :: log in M.Windowed(logs, now) ==> log.status in {M.TakenLabel, M.MissedLabel}
    ensures DashboardRate(Some(M.Windowed(logs, now))) == M.AdherenceRate(M.ComputeStats(logs, now))
  {
    M.TotalCountsEveryRow(logs, now);
  }

  /** With a row of another status in the window the two rates can differ: one
      taken row and one "skipped" row give 50 on the dashboard and 100 on the
      medications page. */
  lemma RatesCanDiffer(logs: seq<M.AdherenceLog>, now: int)
    requires logs == [M.AdherenceLog("m", M.TakenLabel, now), M.AdherenceLog("m", "skipped", now)]
    ensures DashboardRate(Some(M.Windowed(logs, now))) == 50
    ensures M.AdherenceRate(M.ComputeStats(logs, now)) == 100
  {
    FilterKeepsAll(M.WindowPredicate(now), logs);
    assert M.Windowed(logs, now) == logs;
    assert M.Statuses(logs) == [M.TakenLabel, "skipped"];
    assert multiset(M.Statuses(logs))[M.TakenLabel] == 1;
    assert multiset(M.Statuses(logs))[M.MissedLabel] == 0;
  }

  /** The congratulation card is shown when the rate is positive; it is hidden
      before anything is loaded. */
  predicate ShowsCongratulation(s: DashboardStats): (shown: bool)
    ensures s == InitialStats ==> !shown
    ensures shown <==> s.adherenceRate >= 1
  {
    s.adherenceRate > 0
  }

  /** The card appears exactly when some row is in the window and at least one
      in two hundred windowed rows (0.5 %) was taken. */
  lemma CongratulationIff(readings: seq<H.HealthReading>, medications: seq<M.Medication>,
                          logs: seq<M.AdherenceLog>, now: int)
    ensures var w := M.Windowed(logs, now);
      ShowsCongratulation(LoadDashboardStats(readings, medications, logs, now)) <==>
      |w| > 0 && 200 * multiset(M.Statuses(w))[M.TakenLabel] >= |w|
  {
    var w := M.Windowed(logs, now);
    if |w| > 0 {
      AtLeast(M.CountStatus(w, M.TakenLabel), |w|, 1);
    }
  }

  /** What the last check-in card displays. */
  datatype CardText = Text(text: string) | DateOf(timestamp: int) | TypeOf(metricType: H.MetricType)

  /** The card's headline and caption: the latest reading's date and type, or
      "N/A" and "No data yet" without one. */
  function LastCheckIn(s: DashboardStats): (card: (CardText, CardText))
    ensures s.lastMetric.None? <==> card == (Text("N/A"), Text("No data yet"))
    ensures s.lastMetric.Some? ==>
      card == (DateOf(s.lastMetric.value.timestamp), TypeOf(s.lastMetric.value.metricType))
  {
    match s.lastMetric
    case None => (Text("N/A"), Text("No data yet"))
    case Some(r) => (DateOf(r.timestamp), TypeOf(r.metricType))
  }
}
