/** The insight helpers of the React client (HeartWavesUIReact/src/utils/healthInsights.ts):
    0-100 scores per metric, daily composites, the early-versus-late trend of a week, the four
    metric insights and the one cross-metric sentence. JavaScript numbers are modelled as
    exact reals. */
module HealthInsights {
  import Numbers

  // ---------------------------------------------------------------- scores

  datatype Metric = RestingHeartRate | HeartRateVariability | StandMinutes | ActiveMinutes

  function Min2(a: int, b: int): int {
    if a <= b then a else b
  }

  /** A score that is 100 at and above `full`, otherwise the rounded share of `full`, capped
      at 100: the stand- and active-minute scale. */
  function MinutesScore(value: real): (s: int)
    ensures value >= 0.0 ==> 0 <= s <= 100
    ensures value >= 30.0 ==> s == 100
  {
    if value >= 30.0 then 100
    else
      var share := value / 30.0 * 100.0;
      assert value >= 0.0 ==> share >= 0.0;
      Min2(100, Numbers.JsRound(share))
  }

  /** `normalizeScore`: resting HR scores 100 at or below 50 bpm and 0 at or above 90, HRV 0 at
      or below 15 ms and 100 at or above 60, minutes 100 from 30 on; in between the value is
      mapped linearly and rounded. Every score of a non-negative value lies in [0, 100]. */
  function NormalizeScore(metric: Metric, value: real): (s: int)
    ensures value >= 0.0 ==> 0 <= s <= 100
    ensures metric == RestingHeartRate ==> 0 <= s <= 100
    ensures metric == HeartRateVariability ==> 0 <= s <= 100
  {
    match metric
    case RestingHeartRate =>
      if value <= 50.0 then 100
      else if value >= 90.0 then 0
      else
        var x := 100.0 - (value - 50.0) / 40.0 * 100.0;
        assert 0.0 <= x <= 100.0;
        Numbers.JsRoundMonotone(0.0, x);
        Numbers.JsRoundMonotone(x, 100.0);
        Numbers.JsRound(x)
    case HeartRateVariability =>
      if value >= 60.0 then 100
      else if value <= 15.0 then 0
      else
        var x := (value - 15.0) / 45.0 * 100.0;
        assert 0.0 <= x <= 100.0;
        Numbers.JsRoundMonotone(0.0, x);
        Numbers.JsRoundMonotone(x, 100.0);
        Numbers.JsRound(x)
    case StandMinutes => MinutesScore(value)
    case ActiveMinutes => MinutesScore(value)
  }

  /** A higher resting heart rate never scores better. */
  lemma RestingScoreNonIncreasing(x: real, y: real)
    requires x <= y
    ensures NormalizeScore(RestingHeartRate, y) <= NormalizeScore(RestingHeartRate, x)
  {
    if 50.0 < x && y < 90.0 {
      Numbers.JsRoundMonotone(100.0 - (y - 50.0) / 40.0 * 100.0, 100.0 - (x - 50.0) / 40.0 * 100.0);
    }
  }

  /** A higher HRV never scores worse. */
  lemma VariabilityScoreNonDecreasing(x: real, y: real)
    requires x <= y
    ensures NormalizeScore(HeartRateVariability, x) <= NormalizeScore(HeartRateVariability, y)
  {
    if 15.0 < x && y < 60.0 {
      Numbers.JsRoundMonotone((x - 15.0) / 45.0 * 100.0, (y - 15.0) / 45.0 * 100.0);
    }
  }

  /** More minutes never score worse. */
  lemma MinutesScoreNonDecreasing(x: real, y: real)
    requires x <= y
    ensures MinutesScore(x) <= MinutesScore(y)
  {
    if y < 30.0 {
      Numbers.JsRoundMonotone(x / 30.0 * 100.0, y / 30.0 * 100.0);
    }
  }

  // ---------------------------------------------------------------- daily composites

  datatype DailyMetric = DailyMetric(date: string, value: real)

  /** The four series of a health summary (`last7Days` of each metric). */
  datatype Summary = Summary(restingHr: seq<DailyMetric>, hrv: seq<DailyMetric>, stand: seq<DailyMetric>, active: seq<DailyMetric>)

  /** `series.find((d) => d.date === date)?.value ?? 0`: the first entry of that date, else 0. */
  function ValueOn(series: seq<DailyMetric>, date: string): (v: real)
    ensures (forall i :: 0 <= i < |series| ==> series[i].date != date) ==> v == 0.0
    ensures (exists i :: 0 <= i < |series| && series[i].date == date) ==>
      exists i :: 0 <= i < |series| && series[i].date == date && v == series[i].value
        && forall j :: 0 <= j < i ==> series[j].date != date
  {
    if |series| == 0 then 0.0
    else if series[0].date == date then series[0].value
    else
      var v := ValueOn(series[1..], date);
      assert forall i :: 1 <= i < |series| ==> series[1..][i - 1] == series[i];
      v
  }

  datatype Scores = Scores(restingHr: int, hrv: int, stand: int, active: int)

  datatype DailyComposite = DailyComposite(
    date: string, restingHr: real, hrv: real, stand: real, active: real, compositeScore: int, scores: Scores)

  function MaxScore(s: Scores): int {
    var a := if s.restingHr >= s.hrv then s.restingHr else s.hrv;
    var b := if s.stand >= s.active then s.stand else s.active;
    if a >= b then a else b
  }

  function MinScore(s: Scores): int {
    var a := if s.restingHr <= s.hrv then s.restingHr else s.hrv;
    var b := if s.stand <= s.active then s.stand else s.active;
    if a <= b then a else b
  }

  /** `Math.round` of the mean of the four scores, which stays between the lowest and the
      highest of them. */
  function CompositeScore(s: Scores): (c: int)
    ensures MinScore(s) <= c <= MaxScore(s)
    ensures -0.5 < c as real - (s.restingHr + s.hrv + s.stand + s.active) as real / 4.0 <= 0.5
  {
    var mean := (s.restingHr + s.hrv + s.stand + s.active) as real / 4.0;
    assert MinScore(s) as real <= mean <= MaxScore(s) as real;
    Numbers.JsRoundMonotone(MinScore(s) as real, mean);
    Numbers.JsRoundMonotone(mean, MaxScore(s) as real);
    Numbers.JsRound(mean)
  }

  /** One day of `computeDailyComposites`. */
  function CompositeFor(data: Summary, date: string): (c: DailyComposite)
    ensures c.date == date
    ensures c.restingHr == ValueOn(data.restingHr, date) && c.hrv == ValueOn(data.hrv, date)
      && c.stand == ValueOn(data.stand, date) && c.active == ValueOn(data.active, date)
    ensures c.scores == Scores(NormalizeScore(RestingHeartRate, c.restingHr), NormalizeScore(HeartRateVariability, c.hrv),
      NormalizeScore(StandMinutes, c.stand), NormalizeScore(ActiveMinutes, c.active))
    ensures MinScore(c.scores) <= c.compositeScore <= MaxScore(c.scores)
    ensures -0.5 < c.compositeScore as real
      - (c.scores.restingHr + c.scores.hrv + c.scores.stand + c.scores.active) as real / 4.0 <= 0.5
    ensures c.stand >= 0.0 && c.active >= 0.0 ==> 0 <= c.compositeScore <= 100
  {
    var hr, hrv := ValueOn(data.restingHr, date), ValueOn(data.hrv, date);
    var stand, active := ValueOn(data.stand, date), ValueOn(data.active, date);
    var scores := Scores(NormalizeScore(RestingHeartRate, hr), NormalizeScore(HeartRateVariability, hrv),
      NormalizeScore(StandMinutes, stand), NormalizeScore(ActiveMinutes, active));
    DailyComposite(date, hr, hrv, stand, active, CompositeScore(scores), scores)
  }

  /** `computeDailyComposites`: one composite per resting-HR entry, in its order and with its
      date; a metric without an entry for that date counts as 0. */
  function DailyComposites(data: Summary): (cs: seq<DailyComposite>)
    ensures |cs| == |data.restingHr|
    ensures forall i :: 0 <= i < |cs| ==> cs[i] == CompositeFor(data, data.restingHr[i].date)
  {
    seq(|data.restingHr|, i requires 0 <= i < |data.restingHr| => CompositeFor(data, data.restingHr[i].date))
  }

  // ---------------------------------------------------------------- trend

  datatype Direction = Up | Down | Stable

  function Average(values: seq<real>): real
    requires |values| > 0
  {
    Numbers.Sum(values) / |values| as real
  }

  /** The first half of the week (without the middle day of an odd count). */
  function EarlyHalf(values: seq<real>): seq<real> {
    values[..|values| / 2]
  }

  /** The second half of the week (without the middle day of an odd count). */
  function LateHalf(values: seq<real>): seq<real> {
    values[(|values| + 1) / 2..]
  }

  /** The percentage change from the early to the late mean; 0 when the early mean is 0. */
  function PercentChange(values: seq<real>): (pct: real)
    requires |values| >= 2
  {
    var early := Average(EarlyHalf(values));
    var late := Average(LateHalf(values));
    if early == 0.0 then 0.0 else (late - early) / early * 100.0
  }

  /** `trendDirection`: stable with no change for fewer than two values; otherwise the change
      of the late half's mean against the early half's (0 when the early mean is 0), stable
      under 3% either way, else up exactly when it is positive. */
  function Trend(values: seq<real>): (r: (Direction, real))
    ensures |values| < 2 ==> r == (Stable, 0.0)
    ensures |values| >= 2 ==> r.1 == PercentChange(values)
    ensures |values| >= 2 && Average(EarlyHalf(values)) == 0.0 ==> r == (Stable, 0.0)
    ensures r.0 == Stable <==> -3.0 < r.1 < 3.0
    ensures r.0 == Up <==> r.1 >= 3.0
    ensures r.0 == Down <==> r.1 <= -3.0
  {
    if |values| < 2 then (Stable, 0.0)
    else
      var pct := PercentChange(values);
      if -3.0 < pct < 3.0 then (Stable, pct)
      else if pct > 0.0 then (Up, pct)
      else (Down, pct)
  }

  /** The middle day of an odd-length week does not move the trend. */
  lemma TrendIgnoresMiddle(values: seq<real>, v: real)
    requires |values| % 2 == 1
    ensures Trend(values[|values| / 2 := v]) == Trend(values)
  {
    var w := values[|values| / 2 := v];
    assert EarlyHalf(w) == EarlyHalf(values);
    assert LateHalf(w) == LateHalf(values);
  }

  // ---------------------------------------------------------------- metric insights

  function Values(series: seq<DailyMetric>): (vs: seq<real>)
    ensures |vs| == |series| && forall i :: 0 <= i < |series| ==> vs[i] == series[i].value
  {
    seq(|series|, i requires 0 <= i < |series| => series[i].value)
  }

  /** The mean of the first five days, else the first value, else 0. */
  function BaselineOf(values: seq<real>): real {
    if |values| >= 5 then Numbers.Sum(values[..5]) / 5.0
    else if |values| > 0 then values[0]
    else 0.0
  }

  /** The mean of the last three days, else the last value, else 0. */
  function RecentMean(values: seq<real>): real {
    if |values| >= 3 then Numbers.Sum(values[|values| - 3..]) / 3.0
    else if |values| > 0 then values[|values| - 1]
    else 0.0
  }

  /** `values.indexOf(Math.min(...values))` or the same with `max`: the first index holding the
      extreme value. */
  function ExtremeIndex(values: seq<real>, lowest: bool): (i: nat)
    requires |values| > 0
    ensures i < |values|
    ensures forall j :: 0 <= j < |values| ==> (if lowest then values[i] <= values[j] else values[j] <= values[i])
    ensures forall j :: 0 <= j < i ==> values[j] != values[i]
  {
    if |values| == 1 then 0
    else
      var n := |values| - 1;
      var prev := ExtremeIndex(values[..n], lowest);
      assert forall j :: 0 <= j < n ==> values[..n][j] == values[j];
      if (lowest && values[n] < values[prev]) || (!lowest && values[n] > values[prev]) then n else prev
  }

  datatype Day = Day(date: string, value: real)

  /** The best or worst day: the first day holding the extreme value; for an empty series the
      empty date with value 0. */
  function ExtremeDay(series: seq<DailyMetric>, lowest: bool): (d: Day)
    ensures |series| == 0 ==> d == Day("", 0.0)
    ensures |series| > 0 ==> exists i :: (0 <= i < |series| && d == Day(series[i].date, series[i].value)
      && forall j :: 0 <= j < i ==> series[j].value != d.value)
    ensures |series| > 0 ==> forall j :: 0 <= j < |series| ==>
      (if lowest then d.value <= series[j].value else series[j].value <= d.value)
  {
    if |series| == 0 then Day("", 0.0)
    else
      var i := ExtremeIndex(Values(series), lowest);
      Day(series[i].date, series[i].value)
  }

  /** Which tip an insight shows; the number its reason sentence quotes is kept beside it. */
  datatype Tip =
    | RestingRising | RestingHigh | RestingGood
    | VariabilityDipped | VariabilityLow | VariabilityHealthy
    | StandLow | StandDropped | StandGood
    | ActiveLow | ActiveDropped | ActiveGood

  datatype Insight = Insight(
    metric: Metric, trend: Direction, percentChange: real, baseline: real, recentMean: real,
    bestDay: Day, worstDay: Day, tip: Tip, figure: real)

  predicate LowerIsBetter(metric: Metric) {
    metric == RestingHeartRate
  }

  /** The tip of one metric and the figure its reason quotes. */
  function TipFor(metric: Metric, direction: Direction, pct: real, recent: real, best: Day): (r: (Tip, real))
    ensures metric == RestingHeartRate ==>
      (r.0 == RestingRising <==> direction == Up && pct > 5.0)
      && (r.0 == RestingHigh <==> !(direction == Up && pct > 5.0) && recent > 65.0)
      && r.0 in {RestingRising, RestingHigh, RestingGood}
    ensures metric == HeartRateVariability ==>
      (r.0 == VariabilityDipped <==> direction == Down && pct < -8.0)
      && (r.0 == VariabilityLow <==> !(direction == Down && pct < -8.0) && recent < 35.0)
      && r.0 in {VariabilityDipped, VariabilityLow, VariabilityHealthy}
    ensures metric == StandMinutes ==>
      (r.0 == StandLow <==> recent < 15.0)
      && (r.0 == StandDropped <==> recent >= 15.0 && direction == Down && pct < -10.0)
      && r.0 in {StandLow, StandDropped, StandGood}
    ensures metric == ActiveMinutes ==>
      (r.0 == ActiveLow <==> recent < 15.0)
      && (r.0 == ActiveDropped <==> recent >= 15.0 && direction == Down && pct < -10.0)
      && r.0 in {ActiveLow, ActiveDropped, ActiveGood}
    ensures r.0 in {RestingGood, VariabilityHealthy, StandGood, ActiveGood} ==> r.1 == best.value
  {
    var magnitude := if pct < 0.0 then -pct else pct;
    match metric
    case RestingHeartRate =>
      if direction == Up && pct > 5.0 then (RestingRising, magnitude)
      else if recent > 65.0 then (RestingHigh, recent)
      else (RestingGood, best.value)
    case HeartRateVariability =>
      if direction == Down && pct < -8.0 then (VariabilityDipped, magnitude)
      else if recent < 35.0 then (VariabilityLow, recent)
      else (VariabilityHealthy, best.value)
    case StandMinutes =>
      if recent < 15.0 then (StandLow, recent)
      else if direction == Down && pct < -10.0 then (StandDropped, magnitude)
      else (StandGood, best.value)
    case ActiveMinutes =>
      if recent < 15.0 then (ActiveLow, Numbers.JsRound(recent) as real)
      else if direction == Down && pct < -10.0 then (ActiveDropped, magnitude)
      else (ActiveGood, best.value)
  }

  /** The insight for one metric's series. The best day holds the series' lowest value when
      lower is better (resting HR) and its highest otherwise; the worst day the opposite. */
  function InsightFor(metric: Metric, series: seq<DailyMetric>): (r: Insight)
    ensures r.metric == metric
    ensures (r.trend, r.percentChange) == Trend(Values(series))
    ensures r.baseline == BaselineOf(Values(series)) && r.recentMean == RecentMean(Values(series))
    ensures r.bestDay == ExtremeDay(series, LowerIsBetter(metric))
    ensures r.worstDay == ExtremeDay(series, !LowerIsBetter(metric))
    ensures (r.tip, r.figure) == TipFor(metric, r.trend, r.percentChange, r.recentMean, r.bestDay)
  {
    var values := Values(series);
    var (direction, pct) := Trend(values);
    var recent := RecentMean(values);
    var best := ExtremeDay(series, LowerIsBetter(metric));
    var (tip, figure) := TipFor(metric, direction, pct, recent, best);
    Insight(metric, direction, pct, BaselineOf(values), recent, best, ExtremeDay(series, !LowerIsBetter(metric)), tip, figure)
  }

  /** The order of the insight cards. */
  const MetricOrder: seq<Metric> := [RestingHeartRate, HeartRateVariability, StandMinutes, ActiveMinutes]

  /** The summary's series for one metric. */
  function SeriesOf(data: Summary, metric: Metric): seq<DailyMetric> {
    match metric
    case RestingHeartRate => data.restingHr
    case HeartRateVariability => data.hrv
    case StandMinutes => data.stand
    case ActiveMinutes => data.active
  }

  /** `computeMetricInsights`: exactly four insights, for resting HR, HRV, stand and active
      minutes in that order, each from its own series. */
  function MetricInsights(data: Summary): (r: seq<Insight>)
    ensures |r| == |MetricOrder|
    ensures forall k :: 0 <= k < |r| ==> r[k].metric == MetricOrder[k] && r[k] == InsightFor(MetricOrder[k], SeriesOf(data, MetricOrder[k]))
  {
    seq(|MetricOrder|, k requires 0 <= k < |MetricOrder| => InsightFor(MetricOrder[k], SeriesOf(data, MetricOrder[k])))
  }

  /** The best resting-HR day is never above any day, and the worst never below. */
  lemma RestingBestIsLowest(data: Summary)
    requires |data.restingHr| > 0
    ensures forall j :: 0 <= j < |data.restingHr| ==>
      MetricInsights(data)[0].bestDay.value <= data.restingHr[j].value <= MetricInsights(data)[0].worstDay.value
  {
  }

  // ---------------------------------------------------------------- cross-metric sentence

  /** Which sentence `getCrossMetricInsight` returns; `NoInsight` is its empty string. */
  datatype Cross = NoInsight | ActivityAndHeartRate | Improved | Dipped | Mixed

  function RestingValues(cs: seq<DailyComposite>): (vs: seq<real>)
    ensures |vs| == |cs| && forall i :: 0 <= i < |cs| ==> vs[i] == cs[i].restingHr
  {
    seq(|cs|, i requires 0 <= i < |cs| => cs[i].restingHr)
  }

  /** Some low-activity day (under 15 active minutes) shares its date with a day whose resting
      HR is above the week's mean. */
  predicate LowActivityHighHr(cs: seq<DailyComposite>)
    requires |cs| > 0
  {
    var mean := Average(RestingValues(cs));
    exists i, j :: 0 <= i < |cs| && 0 <= j < |cs| && cs[i].active < 15.0 && cs[j].restingHr > mean && cs[j].date == cs[i].date
  }

  /** `getCrossMetricInsight`: nothing for fewer than three days; else the activity-and-HR
      sentence when a low-activity day is also a high-HR day; else the change of the
      composite score from the first day to the last decides improved (more than 10), dipped
      (less than -10) or mixed. */
  function CrossMetric(cs: seq<DailyComposite>): (r: Cross)
    ensures r == NoInsight <==> |cs| < 3
    ensures |cs| >= 3 ==> (r == ActivityAndHeartRate <==> LowActivityHighHr(cs))
    ensures |cs| >= 3 && !LowActivityHighHr(cs) ==>
      var trend := cs[|cs| - 1].compositeScore - cs[0].compositeScore;
      (r == Improved <==> trend > 10) && (r == Dipped <==> trend < -10)
  {
    if |cs| < 3 then NoInsight
    else if LowActivityHighHr(cs) then ActivityAndHeartRate
    else
      var trend := cs[|cs| - 1].compositeScore - cs[0].compositeScore;
      if trend > 10 then Improved
      else if trend < -10 then Dipped
      else Mixed
  }
}
