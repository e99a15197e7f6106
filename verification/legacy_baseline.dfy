/** The earlier screener kept under HeartWaves/lib/screening/baseline.rb: the same robust
    statistics and the same two strict-threshold trend rules, but no phenotype cascade, no
    blood-pressure check, a questionnaire chosen by status alone, and only two summaries. */
module LegacyBaseline {
  import opened Wrappers
  import opened Domain
  import RobustStats
  import Baseline

  /** A day as the earlier importer produced it: resting HR and HRV, either possibly nil. */
  datatype LegacyDay = LegacyDay(restingHrMean: Option<real>, hrvSdnnMean: Option<real>)

  datatype LegacyScreening = LegacyScreening(
    status: Status,
    signals: seq<Signal>,
    questionnaire: seq<Question>,
    safetyNotes: seq<string>,
    dataNotes: seq<Note>,
    restingHr: Option<RobustStats.Stats>,
    hrvSdnn: Option<RobustStats.Stats>)

  /** `map { ... }.compact`: the non-nil values of one column, in order. A single day gives
      its value or nothing, and the column of two stretches of days is the first stretch's
      column followed by the second's. */
  function Column(rows: seq<LegacyDay>, hr: bool): (r: seq<real>)
    ensures |rows| == 1 ==> r == var cell := if hr then rows[0].restingHrMean else rows[0].hrvSdnnMean;
                                 if cell.Some? then [cell.value] else []
    ensures |r| <= |rows|
    ensures (forall i :: 0 <= i < |rows| ==> (if hr then rows[i].restingHrMean else rows[i].hrvSdnnMean).Some?) ==> |r| == |rows|
  {
    if |rows| == 0 then []
    else
      var init := Column(rows[..|rows| - 1], hr);
      assert forall i :: 0 <= i < |rows| - 1 ==> rows[..|rows| - 1][i] == rows[i];
      var cell := if hr then rows[|rows| - 1].restingHrMean else rows[|rows| - 1].hrvSdnnMean;
      if cell.Some? then init + [cell.value] else init
  }

  /** The questionnaire of the earlier screener: the normal set for a normal status and the
      generic follow-up set otherwise; these are the current screener's normal and fallback
      sets. */
  function LegacyQuestionnaire(status: Status): (r: seq<Question>)
    ensures status == Normal ==> r == Baseline.QuestionnaireFor(Normal, NoHint, false)
    ensures status != Normal ==> r == Baseline.QuestionnaireFor(status, UnspecifiedAutonomic, false)
    ensures status != Normal ==> Baseline.FollowupShaped(r)
  {
    if status == Normal then Baseline.NormalQuestionnaire() else Baseline.FallbackQuestionnaire()
  }

  /** `run` of the earlier screener: an error for nil or empty input; otherwise a follow-up
      status exactly when one of the two trend rules fires on the last seven days. */
  function LegacyRun(daily: Option<seq<LegacyDay>>): (r: Result<LegacyScreening, string>)
    ensures r.Failure? <==> daily.None? || |daily.value| == 0
    ensures r.Success? ==> var s := r.value; var rows := daily.value;
      var recent := Baseline.Last(rows, Baseline.RecentDays);
      && (s.status == NeedsFollowup <==>
           Baseline.HrElevated(RobustStats.Summarize(Column(rows, true)), Column(recent, true)) ||
           Baseline.HrvSuppressed(RobustStats.Summarize(Column(rows, false)), Column(recent, false)))
      && s.status != UnknownStatus
      && (s.status == Normal <==> |s.signals| == 0)
      && (NotEnoughRestingHr in s.dataNotes <==> !Baseline.Assessable(RobustStats.Summarize(Column(rows, true)), Column(recent, true)))
      && (NotEnoughHrv in s.dataNotes <==> !Baseline.Assessable(RobustStats.Summarize(Column(rows, false)), Column(recent, false)))
      && s.questionnaire == LegacyQuestionnaire(s.status)
  {
    if daily.None? || |daily.value| == 0 then Failure("No daily series computed")
    else
      var rows := daily.value;
      var recent := Baseline.Last(rows, Baseline.RecentDays);
      var rhrStats := RobustStats.Summarize(Column(rows, true));
      var hrvStats := RobustStats.Summarize(Column(rows, false));
      var signals := Baseline.Signals(rhrStats, Column(recent, true), hrvStats, Column(recent, false));
      var w := Baseline.Window(rhrStats, hrvStats, None, None, Column(recent, true), Column(recent, false), [], []);
      var notes := Baseline.TrendNotes(w);
      var status := if |signals| == 0 then Normal else NeedsFollowup;
      Success(LegacyScreening(status, signals, LegacyQuestionnaire(status), SafetyNotes, notes, rhrStats, hrvStats))
  }

  /** The current screener's reading of a legacy day: nil stays absent, a number is finite. */
  function ReadingOf(o: Option<real>): Baseline.Reading {
    if o.Some? then Baseline.Finite(o.value) else Baseline.Absent
  }

  function AsDaily(d: LegacyDay): Baseline.DailyMetric {
    Baseline.DailyMetric("", ReadingOf(d.restingHrMean), ReadingOf(d.hrvSdnnMean),
      Baseline.Absent, Baseline.Absent, Baseline.Absent, Baseline.Absent, Baseline.Absent, Baseline.Absent)
  }

  function AsDailySeq(rows: seq<LegacyDay>): (r: seq<Baseline.DailyMetric>)
    ensures |r| == |rows| && forall i :: 0 <= i < |rows| ==> r[i] == AsDaily(rows[i])
  {
    seq(|rows|, i requires 0 <= i < |rows| => AsDaily(rows[i]))
  }

  /** The columns the earlier screener reads are exactly the series the current one reads. */
  lemma {:induction false} ColumnIsSeries(rows: seq<LegacyDay>, hr: bool)
    ensures Column(rows, hr) == Baseline.SeriesFor(AsDailySeq(rows), if hr then Baseline.RestingHrMean else Baseline.HrvSdnnMean)
  {
    if |rows| > 0 {
      var init := rows[..|rows| - 1];
      ColumnIsSeries(init, hr);
      var daily := AsDailySeq(rows);
      assert daily[..|daily| - 1] == AsDailySeq(init);
      assert daily[|daily| - 1] == AsDaily(rows[|rows| - 1]);
    }
  }

  /** The column of two consecutive stretches of days is the first stretch's column followed by
      the second's. */
  lemma {:induction false} ColumnAppend(a: seq<LegacyDay>, b: seq<LegacyDay>, hr: bool)
    ensures Column(a + b, hr) == Column(a, hr) + Column(b, hr)
  {
    if |b| > 0 {
      var b' := b[..|b| - 1];
      ColumnAppend(a, b', hr);
      assert (a + b)[..|a + b| - 1] == a + b';
      assert (a + b)[|a + b| - 1] == b[|b| - 1];
      assert Column(b, hr) == Column(b', hr) + Column([b[|b| - 1]], hr) by {
        assert [b[|b| - 1]][..0] == [];
      }
    } else {
      assert a + b == a;
    }
  }

  /** The current screener's window over the converted rows holds the statistics and the
      recent columns the earlier screener computes. */
  lemma WindowMatches(rows: seq<LegacyDay>)
    ensures var w := Baseline.WindowOf(AsDailySeq(rows)); var recent := Baseline.Last(rows, Baseline.RecentDays);
      && w.rhrStats == RobustStats.Summarize(Column(rows, true))
      && w.hrvStats == RobustStats.Summarize(Column(rows, false))
      && w.recentRhr == Column(recent, true)
      && w.recentHrv == Column(recent, false)
  {
    var recent := Baseline.Last(rows, Baseline.RecentDays);
    LastConverted(rows, Baseline.RecentDays);
    ColumnIsSeries(rows, true);
    ColumnIsSeries(rows, false);
    ColumnIsSeries(recent, true);
    ColumnIsSeries(recent, false);
  }

  /** Converting rows commutes with taking the most recent days. */
  lemma LastConverted(rows: seq<LegacyDay>, n: nat)
    ensures Baseline.Last(AsDailySeq(rows), n) == AsDailySeq(Baseline.Last(rows, n))
  {
  }

  /** The current screener preserves the earlier one's verdict: on the same finite readings
      both reach the same status and the same "not enough data" notes. */
  lemma LegacyAgreesWithCurrent(rows: seq<LegacyDay>)
    requires |rows| > 0
    ensures LegacyRun(Some(rows)).value.status == Baseline.Run(Some(AsDailySeq(rows))).value.status
    ensures (NotEnoughRestingHr in LegacyRun(Some(rows)).value.dataNotes) ==
            (NotEnoughRestingHr in Baseline.Run(Some(AsDailySeq(rows))).value.dataNotes)
  {
    WindowMatches(rows);
  }
}
