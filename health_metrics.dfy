/** The health-metrics page: the trend series for the selected metric type,
    the recent-entries list and the reading a submission stores. */
module HealthMetrics {
  import opened Wrappers
  import opened Seqs

  datatype MetricType = Weight | BloodPressure | HeartRate | SleepDuration | Steps | Mood

  /** A health_metrics row. `valueNumeric` is the numeric projection of `value`
      (null for mood, and whenever the typed text did not parse as a number). */
  datatype HealthReading = HealthReading(
    metricType: MetricType, value: string, valueNumeric: Option<real>, timestamp: int)

  /** One point of the trend chart; the chart labels it with the reading's date. */
  datatype ChartPoint = ChartPoint(timestamp: int, value: real)

  /** The page loads at most this many readings, newest first. */
  const LoadLimit: nat := 30
  /** The chart shows at most this many points. */
  const ChartSize: nat := 7
  /** The recent-entries card lists at most this many readings. */
  const RecentSize: nat := 10

  /** `loadMetrics`: given the user's rows ordered newest first, the page keeps
      the first thirty. */
  function LoadMetrics(rows: seq<HealthReading>): (metrics: seq<HealthReading>)
    ensures |metrics| == Min(LoadLimit, |rows|)
    ensures forall i :: 0 <= i < |metrics| ==> metrics[i] == rows[i]
  {
    Take(rows, LoadLimit)
  }

  /** The loaded list keeps the newest-first order of the rows. */
  lemma LoadKeepsOrder(rows: seq<HealthReading>)
    requires Descending(rows, Timestamp)
    ensures Descending(LoadMetrics(rows), Timestamp)
  {
    var metrics := LoadMetrics(rows);
    forall i, j | 0 <= i < j < |metrics| ensures Timestamp(metrics[i]) >= Timestamp(metrics[j]) {
      assert metrics[i] == rows[i] && metrics[j] == rows[j];
    }
  }

  /** The chart's filter: readings of type `t` that carry a number. */
  function Qualifies(t: MetricType): HealthReading -> bool
  {
    (r: HealthReading) => r.metricType == t && r.valueNumeric.Some?
  }

  /** The point of one reading: its time and its number. */
  function PointOf(r: HealthReading): (p: ChartPoint)
    requires r.valueNumeric.Some?
    ensures r.valueNumeric == Some(p.value) && p.timestamp == r.timestamp
  {
    ChartPoint(r.timestamp, r.valueNumeric.value)
  }

  function Timestamp(r: HealthReading): int { r.timestamp }

  function PointTime(p: ChartPoint): int { p.timestamp }

  /** Each reading as a chart point, in order. */
  function ToPoints(rs: seq<HealthReading>): (points: seq<ChartPoint>)
    requires forall i :: 0 <= i < |rs| ==> rs[i].valueNumeric.Some?
    ensures |points| == |rs|
    ensures forall i :: 0 <= i < |rs| ==> points[i] == PointOf(rs[i])
  {
    seq(|rs|, i requires 0 <= i < |rs| => PointOf(rs[i]))
  }

  /** The newest seven qualifying readings, oldest first. */
  function ChartReadings(metrics: seq<HealthReading>, t: MetricType): (rs: seq<HealthReading>)
    ensures |rs| == Min(ChartSize, |Filter(Qualifies(t), metrics)|)
    ensures forall i :: 0 <= i < |rs| ==> rs[i].metricType == t && rs[i].valueNumeric.Some?
  {
    var q := Filter(Qualifies(t), metrics);
    var newest := Take(q, ChartSize);
    var oldestFirst := Reverse(newest);
    assert forall i :: 0 <= i < |oldestFirst| ==> oldestFirst[i] == q[|newest| - 1 - i];
    oldestFirst
  }

  /** `getChartData`: keep the qualifying readings, take the first seven, reverse
      them and turn each into a point. */
  function ChartData(metrics: seq<HealthReading>, t: MetricType): (points: seq<ChartPoint>)
    ensures |points| == Min(ChartSize, |Filter(Qualifies(t), metrics)|)
  {
    ToPoints(ChartReadings(metrics, t))
  }

  /** The chart holds the newest `k` qualifying readings, oldest first, where
      `k` is at most seven: point `i` is qualifying reading `k - 1 - i`. */
  lemma ChartIsNewestQualifying(metrics: seq<HealthReading>, t: MetricType)
    ensures var q, points := Filter(Qualifies(t), metrics), ChartData(metrics, t);
      forall i :: 0 <= i < |points| ==>
        |points| - 1 - i < |q| && q[|points| - 1 - i].valueNumeric.Some? &&
        points[i] == PointOf(q[|points| - 1 - i])
  {
    var q, points := Filter(Qualifies(t), metrics), ChartData(metrics, t);
    var newest := Take(q, ChartSize);
    assert ChartReadings(metrics, t) == Reverse(newest);
    forall i | 0 <= i < |points|
      ensures |points| - 1 - i < |q| && q[|points| - 1 - i].valueNumeric.Some?
      ensures points[i] == PointOf(q[|points| - 1 - i])
    {
      assert Reverse(newest)[i] == newest[|newest| - 1 - i];
      assert q[|points| - 1 - i] in q;
    }
  }

  /** Every point comes from a loaded reading of the selected type and carries
      that reading's number and time. */
  lemma ChartPointsFromReadings(metrics: seq<HealthReading>, t: MetricType)
    ensures forall p :: p in ChartData(metrics, t) ==>
      exists r :: r in metrics && r.metricType == t && r.valueNumeric == Some(p.value) && r.timestamp == p.timestamp
  {
    var q, points := Filter(Qualifies(t), metrics), ChartData(metrics, t);
    ChartIsNewestQualifying(metrics, t);
    forall p | p in points
      ensures exists r :: r in metrics && r.metricType == t && r.valueNumeric == Some(p.value) && r.timestamp == p.timestamp
    {
      var i :| 0 <= i < |points| && points[i] == p;
      var r := q[|points| - 1 - i];
      assert r in q;
    }
  }

  /** Given the loaded list newest first, the chart runs oldest first. */
  lemma ChartChronological(metrics: seq<HealthReading>, t: MetricType)
    requires Descending(metrics, Timestamp)
    ensures Ascending(ChartData(metrics, t), PointTime)
  {
    var q := Filter(Qualifies(t), metrics);
    SubsequenceDescending(q, metrics, Timestamp);
    var newest := Take(q, ChartSize);
    assert Descending(newest, Timestamp);
    ReverseDescending(newest, Timestamp);
    var rs := ChartReadings(metrics, t);
    assert rs == Reverse(newest);
    PointsKeepOrder(rs);
  }

  lemma PointsKeepOrder(rs: seq<HealthReading>)
    requires forall i :: 0 <= i < |rs| ==> rs[i].valueNumeric.Some?
    requires Ascending(rs, Timestamp)
    ensures Ascending(ToPoints(rs), PointTime)
  {
    var points := ToPoints(rs);
    forall i, j | 0 <= i < j < |points| ensures PointTime(points[i]) <= PointTime(points[j]) {
      assert Timestamp(rs[i]) <= Timestamp(rs[j]);
    }
  }

  /** The trend card is rendered for a non-mood type with a non-empty series:
      exactly when the selected type is not mood and some loaded reading of that
      type carries a number. */
  predicate ChartShown(metrics: seq<HealthReading>, t: MetricType): (shown: bool)
    ensures shown <==> t != Mood && exists r :: r in metrics && r.metricType == t && r.valueNumeric.Some?
  {
    SeriesNonEmpty(metrics, t);
    t != Mood && |ChartData(metrics, t)| > 0
  }

  /** The series is non-empty exactly when some loaded reading of the type
      carries a number. */
  lemma SeriesNonEmpty(metrics: seq<HealthReading>, t: MetricType)
    ensures |ChartData(metrics, t)| > 0 <==> exists r :: r in metrics && r.metricType == t && r.valueNumeric.Some?
  {
    var q := Filter(Qualifies(t), metrics);
    if exists r :: r in metrics && r.metricType == t && r.valueNumeric.Some? {
      var r :| r in metrics && r.metricType == t && r.valueNumeric.Some?;
      assert r in q;
    }
  }

  /** `metrics.slice(0, 10)`: the newest ten loaded readings, of any type. */
  function RecentEntries(metrics: seq<HealthReading>): (recent: seq<HealthReading>)
    ensures |recent| == Min(RecentSize, |metrics|)
    ensures forall i :: 0 <= i < |recent| ==> recent[i] == metrics[i]
  {
    Take(metrics, RecentSize)
  }

  /** The add-reading form. */
  datatype MetricForm = MetricForm(metricType: MetricType, value: string, selectedMood: string)

  /** The row `handleSubmit` inserts. `parsed` is what parseFloat made of the
      typed text (None when it is not a number). */
  function SubmittedReading(form: MetricForm, parsed: Option<real>, now: int): (r: HealthReading)
    ensures r.metricType == form.metricType && r.timestamp == now
    ensures r.value == if form.metricType == Mood then form.selectedMood else form.value
    ensures r.valueNumeric.None? <==> form.metricType == Mood || parsed.None?
    ensures form.metricType != Mood ==> r.valueNumeric == parsed
  {
    HealthReading(form.metricType,
                  if form.metricType == Mood then form.selectedMood else form.value,
                  if form.metricType != Mood then parsed else None,
                  now)
  }

  /** A submitted mood reading never enters any trend series. */
  lemma MoodNeverCharted(form: MetricForm, parsed: Option<real>, now: int, t: MetricType)
    requires form.metricType == Mood
    ensures !Qualifies(t)(SubmittedReading(form, parsed, now))
  {
  }

  /** What the form holds after a submission: the typed value and the chosen
      mood are cleared on success, kept on failure; the type stays selected. */
  function FormAfterSubmit(form: MetricForm, insertOk: bool): (next: MetricForm)
    ensures next.metricType == form.metricType
    ensures insertOk ==> next.value == "" && next.selectedMood == ""
    ensures !insertOk ==> next == form
  {
    if insertOk then form.(value := "", selectedMood := "") else form
  }

  /** The submit button's `disabled` condition: it blocks every submission
      while one is in flight, and a mood submission until a mood is chosen. */
  predicate SubmitDisabled(isLoading: bool, form: MetricForm): (disabled: bool)
    ensures isLoading ==> disabled
    ensures !disabled && form.metricType == Mood ==> form.selectedMood != ""
    ensures !isLoading && form.metricType != Mood ==> !disabled
    ensures !isLoading && form.metricType == Mood && form.selectedMood != "" ==> !disabled
  {
    isLoading || (form.metricType == Mood && form.selectedMood == "")
  }

  /** An enabled submit of a mood stores a non-empty mood value. */
  lemma EnabledMoodHasValue(isLoading: bool, form: MetricForm, parsed: Option<real>, now: int)
    requires !SubmitDisabled(isLoading, form) && form.metricType == Mood
    ensures SubmittedReading(form, parsed, now).value != ""
  {
  }

  /** With at most seven readings, all of type `t` and numeric, the chart is
      every reading, oldest first. */
  lemma ChartOfFewQualifying(metrics: seq<HealthReading>, t: MetricType)
    requires |metrics| <= ChartSize
    requires forall i :: 0 <= i < |metrics| ==> metrics[i].metricType == t && metrics[i].valueNumeric.Some?
    ensures ChartData(metrics, t) == ToPoints(Reverse(metrics))
  {
    FilterKeepsAll(Qualifies(t), metrics);
    assert Take(metrics, ChartSize) == metrics;
  }

  /** Five weight readings whose values were 70, 71, 69, 72, 70 from oldest to
      newest, loaded newest first, chart as those five values in time order. */
  lemma ScenarioFiveWeights(metrics: seq<HealthReading>)
    requires |metrics| == 5
    requires metrics[0] == HealthReading(Weight, "70", Some(70.0), 5)
    requires metrics[1] == HealthReading(Weight, "72", Some(72.0), 4)
    requires metrics[2] == HealthReading(Weight, "69", Some(69.0), 3)
    requires metrics[3] == HealthReading(Weight, "71", Some(71.0), 2)
    requires metrics[4] == HealthReading(Weight, "70", Some(70.0), 1)
    ensures ChartData(metrics, Weight) == [
        ChartPoint(1, 70.0), ChartPoint(2, 71.0), ChartPoint(3, 69.0),
        ChartPoint(4, 72.0), ChartPoint(5, 70.0)]
  {
    ChartOfFewQualifying(metrics, Weight);
    ReverseOfFive(metrics);
    var points := ToPoints([metrics[4], metrics[3], metrics[2], metrics[1], metrics[0]]);
    assert points == [
        ChartPoint(1, 70.0), ChartPoint(2, 71.0), ChartPoint(3, 69.0),
        ChartPoint(4, 72.0), ChartPoint(5, 70.0)];
  }

  lemma ReverseOfFive<T>(s: seq<T>)
    requires |s| == 5
    ensures Reverse(s) == [s[4], s[3], s[2], s[1], s[0]]
  {
  }

  /** A mood reading among weight readings is left out of the weight series but
      listed among the recent entries. */
  lemma ScenarioMoodMixedIn()
    ensures var mood := HealthReading(Mood, "happy", None, 3);
      var metrics := [HealthReading(Weight, "71", Some(71.0), 4), mood, HealthReading(Weight, "70", Some(70.0), 2)];
      && ChartData(metrics, Weight) == [ChartPoint(2, 70.0), ChartPoint(4, 71.0)]
      && mood in RecentEntries(metrics)
  {
  }
}
