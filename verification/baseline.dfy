/** The rule-based baseline screener (lib/screening/baseline.rb): robust statistics over the
    whole window, strict-threshold signals comparing the last seven days with the window
    median, a priority cascade choosing the phenotype hint, and a fixed questionnaire per hint. */
module Baseline {
  import opened Wrappers
  import opened Domain
  import Numbers
  import Text
  import RobustStats

  /** A raw metric cell of a daily row: absent (nil), a finite number, or a non-finite float
      (NaN or an infinity) that the screener must ignore. */
  datatype Reading = Absent | Finite(v: real) | NonFinite

  datatype DailyMetric = DailyMetric(
    date: string,
    restingHrMean: Reading,
    hrvSdnnMean: Reading,
    standMinutes: Reading,
    activeMinutes: Reading,
    systolicBpMean: Reading,
    diastolicBpMean: Reading,
    bpSystolicMean: Reading,
    bpDiastolicMean: Reading)

  datatype Metric =
    | RestingHrMean | HrvSdnnMean | StandMinutes | ActiveMinutes
    | SystolicBpMean | DiastolicBpMean | BpSystolicMean | BpDiastolicMean

  /** `BP_KEYS`: the four field names under which blood pressure may appear. */
  const BpKeys: seq<Metric> := [SystolicBpMean, DiastolicBpMean, BpSystolicMean, BpDiastolicMean]

  const RecentDays: nat := 7

  /** Fewest recent values for which a trend is assessed. */
  const MinRecentValues: nat := 3

  const HrMinRise: real := 5.0
  const HrvMinDrop: real := 10.0
  const IqrFactor: real := 1.5
  const StandShiftLimit: real := 5.0
  const ActiveMinutesConfounder: real := 45.0

  function Field(row: DailyMetric, m: Metric): Reading {
    match m
    case RestingHrMean => row.restingHrMean
    case HrvSdnnMean => row.hrvSdnnMean
    case StandMinutes => row.standMinutes
    case ActiveMinutes => row.activeMinutes
    case SystolicBpMean => row.systolicBpMean
    case DiastolicBpMean => row.diastolicBpMean
    case BpSystolicMean => row.bpSystolicMean
    case BpDiastolicMean => row.bpDiastolicMean
  }

  /** `value_for`: nil and non-finite values read as missing; only finite numbers survive. */
  function ValueFor(row: DailyMetric, m: Metric): (r: Option<real>)
    ensures r.Some? <==> Field(row, m).Finite?
    ensures r.Some? ==> r.value == Field(row, m).v
  {
    match Field(row, m)
    case Finite(v) => Some(v)
    case _ => None
  }

  /** `series_for`: the finite values of one metric, in row order. A single row gives its
      value when that is finite and nothing otherwise; with `SeriesForAppend` this fixes the
      series of any window, order and repeats included. */
  function SeriesFor(rows: seq<DailyMetric>, m: Metric): (r: seq<real>)
    ensures |rows| == 1 ==> r == if Field(rows[0], m).Finite? then [Field(rows[0], m).v] else []
    ensures |r| <= |rows|
    ensures forall x :: x in r ==> exists i :: 0 <= i < |rows| && Field(rows[i], m) == Finite(x)
    ensures (forall i :: 0 <= i < |rows| ==> Field(rows[i], m).Finite?) ==> |r| == |rows|
    ensures (forall i :: 0 <= i < |rows| ==> !Field(rows[i], m).Finite?) ==> r == []
  {
    if |rows| == 0 then []
    else
      var init := SeriesFor(rows[..|rows| - 1], m);
      var last := rows[|rows| - 1];
      assert forall i :: 0 <= i < |rows| - 1 ==> rows[..|rows| - 1][i] == rows[i];
      match ValueFor(last, m)
      case Some(v) => init + [v]
      case None => init
  }

  /** The series of two consecutive stretches of days is the first stretch's series followed by
      the second's. */
  lemma {:induction false} SeriesForAppend(a: seq<DailyMetric>, b: seq<DailyMetric>, m: Metric)
    ensures SeriesFor(a + b, m) == SeriesFor(a, m) + SeriesFor(b, m)
  {
    if |b| > 0 {
      var b' := b[..|b| - 1];
      SeriesForAppend(a, b', m);
      assert (a + b)[..|a + b| - 1] == a + b';
      assert (a + b)[|a + b| - 1] == b[|b| - 1];
      assert SeriesFor(b, m) == SeriesFor(b', m) + SeriesFor([b[|b| - 1]], m) by {
        assert [b[|b| - 1]][..0] == [];
      }
    } else {
      assert a + b == a;
    }
  }

  /** `bp_data_present?`: some row holds a finite value under one of the four BP keys. */
  function BpDataPresent(daily: seq<DailyMetric>): (b: bool)
    ensures b <==> exists i, k :: 0 <= i < |daily| && 0 <= k < |BpKeys| && Field(daily[i], BpKeys[k]).Finite?
  {
    exists i, k :: 0 <= i < |daily| && 0 <= k < |BpKeys| && ValueFor(daily[i], BpKeys[k]).Some?
  }

  /** Ruby's `daily.last(n)`. */
  function Last<T>(s: seq<T>, n: nat): (r: seq<T>)
    ensures |r| == if |s| < n then |s| else n
    ensures r == s[|s| - |r|..]
  {
    if |s| <= n then s else s[|s| - n..]
  }

  function MaxReal(a: real, b: real): real {
    if a >= b then a else b
  }

  /** How far above the median the recent resting-HR mean must rise: at least 5 bpm, or 1.5
      interquartile ranges when that is larger. */
  function HrMargin(st: RobustStats.Stats): real {
    MaxReal(HrMinRise, IqrFactor * st.iqr)
  }

  /** How far below the median the recent HRV mean must drop: at least 10 ms, or 1.5
      interquartile ranges when that is larger. */
  function HrvMargin(st: RobustStats.Stats): real {
    MaxReal(HrvMinDrop, IqrFactor * st.iqr)
  }

  /** Whether the trend of a metric can be assessed: a baseline summary exists and at least
      three recent values are present. */
  predicate Assessable(st: Option<RobustStats.Stats>, recent: seq<real>) {
    st.Some? && |recent| >= MinRecentValues
  }

  /** The `elevated_resting_hr` rule; the comparison is strict. */
  predicate HrElevated(st: Option<RobustStats.Stats>, recent: seq<real>) {
    Assessable(st, recent) && Numbers.Mean(recent).value > st.value.median + HrMargin(st.value)
  }

  /** The `suppressed_hrv` rule; the comparison is strict. */
  predicate HrvSuppressed(st: Option<RobustStats.Stats>, recent: seq<real>) {
    Assessable(st, recent) && Numbers.Mean(recent).value < st.value.median - HrvMargin(st.value)
  }

  /** A recent mean exactly at the elevated-HR threshold does not fire, and neither does any
      rise of at most 5 bpm above the median, whatever the spread. */
  lemma HrThresholdIsStrict(st: RobustStats.Stats, recent: seq<real>)
    requires |recent| >= MinRecentValues
    requires Numbers.Mean(recent).value == st.median + HrMargin(st) || Numbers.Mean(recent).value <= st.median + HrMinRise
    ensures !HrElevated(Some(st), recent)
  {
  }

  /** The mirror statement for HRV: a drop of at most 10 ms, or one landing exactly on the
      threshold, does not fire. */
  lemma HrvThresholdIsStrict(st: RobustStats.Stats, recent: seq<real>)
    requires |recent| >= MinRecentValues
    requires Numbers.Mean(recent).value == st.median - HrvMargin(st) || Numbers.Mean(recent).value >= st.median - HrvMinDrop
    ensures !HrvSuppressed(Some(st), recent)
  {
  }

  /** The rule signals, resting HR first. */
  function Signals(rhrStats: Option<RobustStats.Stats>, recentRhr: seq<real>,
                   hrvStats: Option<RobustStats.Stats>, recentHrv: seq<real>): (r: seq<Signal>)
    ensures |r| <= 2
    ensures HasSignal(r, ElevatedRestingHr) <==> HrElevated(rhrStats, recentRhr)
    ensures HasSignal(r, SuppressedHrv) <==> HrvSuppressed(hrvStats, recentHrv)
    ensures !HasSignal(r, ClusterModelFollowup)
    ensures |r| == 0 <==> !HrElevated(rhrStats, recentRhr) && !HrvSuppressed(hrvStats, recentHrv)
    ensures forall i :: 0 <= i < |r| ==> r[i].severity == Moderate
    ensures NoDuplicateKeys(r)
  {
    var hr := if HrElevated(rhrStats, recentRhr) then [Signal(ElevatedRestingHr, Moderate)] else [];
    var hrv := if HrvSuppressed(hrvStats, recentHrv) then [Signal(SuppressedHrv, Moderate)] else [];
    var r := hr + hrv;
    assert HrElevated(rhrStats, recentRhr) ==> r[0].key == ElevatedRestingHr;
    assert HrvSuppressed(hrvStats, recentHrv) ==> r[|r| - 1].key == SuppressedHrv;
    r
  }

  predicate NoDuplicateKeys(signals: seq<Signal>) {
    forall i, j :: 0 <= i < j < |signals| ==> signals[i].key != signals[j].key
  }

  predicate HasSignal(signals: seq<Signal>, key: SignalKey) {
    exists i :: 0 <= i < |signals| && signals[i].key == key
  }

  datatype Phenotype = Phenotype(hint: Hint, confidence: Confidence, reason: Reason, notes: seq<Note>)

  /** Recent stand-minute mean minus the baseline stand-minute median, when both exist. */
  function StandShift(standStats: Option<RobustStats.Stats>, recentStand: seq<real>): Option<real> {
    match (Numbers.Mean(recentStand), standStats)
    case (Some(m), Some(st)) => Some(m - st.median)
    case _ => None
  }

  /** `classify_phenotype`: a normal status gives (normal, high); an elevated-HR signal gives an
      IST-like hint when standing dropped by at least 5 minutes and a POTS-like hint otherwise,
      both with high confidence; suppressed HRV alone gives VVS-like when standing rose by at
      least 5 minutes and OH-like otherwise, with low confidence; anything else is an
      unspecified autonomic pattern with low confidence. */
  function ClassifyPhenotype(status: Status, signals: seq<Signal>, standStats: Option<RobustStats.Stats>,
                             recentStand: seq<real>, recentActive: seq<real>, bpDataPresent: bool): (r: Phenotype)
    ensures status == Normal ==> r.hint == NormalHint && r.confidence == High && r.notes == []
    ensures status != Normal && HasSignal(signals, ElevatedRestingHr) ==>
      r.confidence == High &&
      (r.hint == IstLike <==> StandShift(standStats, recentStand).Some? && StandShift(standStats, recentStand).value <= -StandShiftLimit) &&
      (r.hint != IstLike <==> r.hint == PotsLike)
    ensures status != Normal && !HasSignal(signals, ElevatedRestingHr) && HasSignal(signals, SuppressedHrv) ==>
      r.confidence == Low &&
      (r.hint == VvsLike <==> StandShift(standStats, recentStand).Some? && StandShift(standStats, recentStand).value >= StandShiftLimit) &&
      (r.hint != VvsLike <==> r.hint == OhLike) &&
      (BpMissingForOhVvs in r.notes <==> !bpDataPresent)
    ensures status != Normal && !HasSignal(signals, ElevatedRestingHr) && !HasSignal(signals, SuppressedHrv) ==>
      r.hint == UnspecifiedAutonomic && r.confidence == Low &&
      (BpMissingForSubtype in r.notes <==> !bpDataPresent) &&
      (HighRecentActivity in r.notes <==> Numbers.Mean(recentActive).Some? && Numbers.Mean(recentActive).value >= ActiveMinutesConfounder)
    ensures r.hint != NoHint && r.confidence != NoConfidence && r.confidence != Medium
    ensures Text.NoDuplicates(r.notes)
    ensures NotEnoughRestingHr !in r.notes && NotEnoughHrv !in r.notes
  {
    if status == Normal then Phenotype(NormalHint, High, NoRiskPattern, [])
    else
      var shift := StandShift(standStats, recentStand);
      if HasSignal(signals, ElevatedRestingHr) then
        if shift.Some? && shift.value <= -StandShiftLimit then Phenotype(IstLike, High, IstPattern, [])
        else Phenotype(PotsLike, High, PotsPattern, [])
      else if HasSignal(signals, SuppressedHrv) then
        var vvs := shift.Some? && shift.value >= StandShiftLimit;
        Phenotype(if vvs then VvsLike else OhLike, Low, if vvs then VvsPattern else OhPattern,
                  if bpDataPresent then [] else [BpMissingForOhVvs])
      else
        var active := Numbers.Mean(recentActive);
        Phenotype(UnspecifiedAutonomic, Low, NoSpecificSubtype,
                  (if bpDataPresent then [] else [BpMissingForSubtype])
                  + (if active.Some? && active.value >= ActiveMinutesConfounder then [HighRecentActivity] else []))
  }

  function Q(qset: QuestionSet, id: string, options: seq<string>): Question {
    Question(id, Prompt(qset, id), options)
  }

  /** The English wording of every prompt, as the screener shows it. */
  function PromptWording(p: Prompt): string {
    match (p.questionSet, p.id)
    case (NormalSet, "fatigue") => "In the last 30 days, have you had unusual fatigue?"
    case (NormalSet, "dizziness") => "In the last 30 days, have you had dizziness when standing?"
    case (NormalSet, "palpitations") => "In the last 30 days, have you had palpitations/rapid heartbeat episodes?"
    case (PotsSet, "orthostatic") => "Do symptoms worsen when standing and improve when lying down?"
    case (PotsSet, "tachy_upright") => "Do you notice rapid heartbeat shortly after standing?"
    case (PotsSet, "brain_fog") => "Any brain fog, fatigue, or reduced concentration on upright days?"
    case (PotsSet, "heat_trigger") => "Do heat, hot showers, or long standing make symptoms worse?"
    case (PotsSet, "hydration") => "Do fluids/salt intake noticeably change your symptoms?"
    case (IstSet, "fast_resting_hr") => "Do you notice persistent fast heart rate even while resting?"
    case (IstSet, "palpitations_rest") => "Do palpitations happen while seated or lying down?"
    case (IstSet, "standing_relation") => "Are symptoms mainly triggered by standing (vs present regardless of posture)?"
    case (IstSet, "stimulants") => "Any caffeine/energy drink or stimulant use on high-HR days?"
    case (IstSet, "med_changes") => "Any medication changes in the last 30 days?"
    case (OhSet, "dizzy_standing") => "Do you feel lightheaded within a few minutes of standing?"
    case (OhSet, "vision_dim") => "Do you notice dim vision or weakness when upright?"
    case (OhSet, "presyncope") => "Any near-fainting/fainting episodes in the last 30 days?"
    case (OhSet, "recovery_lying") => "Do symptoms improve quickly after sitting or lying down?"
    case (OhSet, "bp_drop") => "If measured, does your blood pressure drop after standing?"
    case (OhSet, "bp_not_measured") => "Have you measured blood pressure lying and then standing during symptoms?"
    case (VvsSet, "trigger_pattern") => "Do episodes follow triggers like prolonged standing, heat, pain, or stress?"
    case (VvsSet, "warning_signs") => "Before symptoms, do you get nausea, sweating, or tunnel vision?"
    case (VvsSet, "fainting") => "Any brief loss of consciousness in the last 30 days?"
    case (VvsSet, "position_relief") => "Do symptoms improve after lying down?"
    case (VvsSet, "bp_during_event") => "If measured during events, does blood pressure drop?"
    case (VvsSet, "bp_not_measured") => "Would you be able to record seated/standing BP during a future episode?"
    case (FallbackSet, "orthostatic") => "Do symptoms worsen when standing and improve when lying down?"
    case (FallbackSet, "presyncope") => "Any near-fainting or fainting episodes in the last 30 days?"
    case (FallbackSet, "tachy") => "Do you notice a rapid heart rate upon standing?"
    case (FallbackSet, "hydration") => "Have you increased fluids/salt recently or been dehydrated?"
    case (FallbackSet, "illness") => "Any recent illness, fever, or new medication changes?"
    case _ => ""
  }

  /** Five questions with distinct ids, each offering at least three options. */
  predicate FollowupShaped(qs: seq<Question>) {
    |qs| == 5 && Text.NoDuplicates(QuestionIds(qs)) && forall i :: 0 <= i < |qs| ==> |qs[i].options| >= 3
  }

  /** `normal_questionnaire`. */
  function NormalQuestionnaire(): (r: seq<Question>)
    ensures |r| == 3 && Text.NoDuplicates(QuestionIds(r))
    ensures forall i :: 0 <= i < |r| ==> |r[i].options| >= 3
  {
    [
      Q(NormalSet, "fatigue", ["no", "mild", "moderate", "severe"]),
      Q(NormalSet, "dizziness", ["no", "sometimes", "often"]),
      Q(NormalSet, "palpitations", ["no", "sometimes", "often"])
    ]
  }

  function PotsQuestionnaire(): (r: seq<Question>)
    ensures FollowupShaped(r)
  {
    [
      Q(PotsSet, "orthostatic", ["no", "unsure", "yes"]),
      Q(PotsSet, "tachy_upright", ["no", "unsure", "yes"]),
      Q(PotsSet, "brain_fog", ["no", "mild", "moderate", "severe"]),
      Q(PotsSet, "heat_trigger", ["no", "sometimes", "often"]),
      Q(PotsSet, "hydration", ["no", "unsure", "yes"])
    ]
  }

  function IstQuestionnaire(): (r: seq<Question>)
    ensures FollowupShaped(r)
  {
    [
      Q(IstSet, "fast_resting_hr", ["no", "sometimes", "often"]),
      Q(IstSet, "palpitations_rest", ["no", "sometimes", "often"]),
      Q(IstSet, "standing_relation", ["mostly_posture", "mixed", "regardless_posture"]),
      Q(IstSet, "stimulants", ["no", "low", "high"]),
      Q(IstSet, "med_changes", ["no", "unsure", "yes"])
    ]
  }

  /** `low_confidence_oh_questionnaire`: four fixed items and a fifth that depends on whether
      blood-pressure data is present. */
  function OhQuestionnaire(bpDataPresent: bool): (r: seq<Question>)
    ensures FollowupShaped(r)
  {
    [
      Q(OhSet, "dizzy_standing", ["no", "sometimes", "often"]),
      Q(OhSet, "vision_dim", ["no", "sometimes", "often"]),
      Q(OhSet, "presyncope", ["no", "near_faint", "faint"]),
      Q(OhSet, "recovery_lying", ["no", "unsure", "yes"])
    ]
    + if bpDataPresent then
        [Q(OhSet, "bp_drop", ["no", "unsure", "yes"])]
      else
        [Q(OhSet, "bp_not_measured", ["not_measured", "once", "multiple_times"])]
  }

  /** `low_confidence_vvs_questionnaire`, with the same shape as the OH one. */
  function VvsQuestionnaire(bpDataPresent: bool): (r: seq<Question>)
    ensures FollowupShaped(r)
  {
    [
      Q(VvsSet, "trigger_pattern", ["no", "sometimes", "often"]),
      Q(VvsSet, "warning_signs", ["no", "sometimes", "often"]),
      Q(VvsSet, "fainting", ["no", "once", "multiple"]),
      Q(VvsSet, "position_relief", ["no", "unsure", "yes"])
    ]
    + if bpDataPresent then
        [Q(VvsSet, "bp_during_event", ["no", "unsure", "yes"])]
      else
        [Q(VvsSet, "bp_not_measured", ["no", "maybe", "yes"])]
  }

  /** The fallback set for the unspecified hint and any hint without a set of its own. */
  function FallbackQuestionnaire(): (r: seq<Question>)
    ensures FollowupShaped(r)
  {
    [
      Q(FallbackSet, "orthostatic", ["no", "unsure", "yes"]),
      Q(FallbackSet, "presyncope", ["no", "near_faint", "faint"]),
      Q(FallbackSet, "tachy", ["no", "unsure", "yes"]),
      Q(FallbackSet, "hydration", ["no", "unsure", "yes"]),
      Q(FallbackSet, "illness", ["no", "unsure", "yes"])
    ]
  }

  /** `questionnaire_for`: the three-item normal set whenever the status is normal, whatever the
      hint; otherwise one of five five-item follow-up sets chosen by hint, each with distinct
      question ids and at least three options per question. */
  function QuestionnaireFor(status: Status, hint: Hint, bpDataPresent: bool): (r: seq<Question>)
    ensures status == Normal ==> r == NormalQuestionnaire()
    ensures status != Normal ==> FollowupShaped(r)
    ensures status != Normal && hint == PotsLike ==> r == PotsQuestionnaire()
    ensures status != Normal && hint == IstLike ==> r == IstQuestionnaire()
    ensures status != Normal && hint == OhLike ==> r == OhQuestionnaire(bpDataPresent)
    ensures status != Normal && hint == VvsLike ==> r == VvsQuestionnaire(bpDataPresent)
    ensures status != Normal && hint !in {PotsLike, IstLike, OhLike, VvsLike} ==> r == FallbackQuestionnaire()
  {
    if status == Normal then NormalQuestionnaire()
    else
      match hint
      case PotsLike => PotsQuestionnaire()
      case IstLike => IstQuestionnaire()
      case OhLike => OhQuestionnaire(bpDataPresent)
      case VvsLike => VvsQuestionnaire(bpDataPresent)
      case _ => FallbackQuestionnaire()
  }

  /** Blood-pressure availability only ever changes the last follow-up question, and only for
      the OH-like and VVS-like sets. */
  lemma BpOnlyChangesLastQuestion(status: Status, hint: Hint)
    requires status != Normal
    ensures QuestionnaireFor(status, hint, true)[..4] == QuestionnaireFor(status, hint, false)[..4]
    ensures hint !in {OhLike, VvsLike} ==> QuestionnaireFor(status, hint, true) == QuestionnaireFor(status, hint, false)
    ensures hint in {OhLike, VvsLike} ==> QuestionnaireFor(status, hint, true)[4] != QuestionnaireFor(status, hint, false)[4]
  {
  }

  /** `t` is the last part of `s`. */
  predicate IsTail(t: seq<real>, s: seq<real>) {
    |t| <= |s| && s[|s| - |t|..] == t
  }

  /** The robust summaries of the whole window and the finite values of its last seven days,
      for the four metrics the screener reads. */
  datatype Window = Window(
    rhrStats: Option<RobustStats.Stats>, hrvStats: Option<RobustStats.Stats>,
    standStats: Option<RobustStats.Stats>, activeStats: Option<RobustStats.Stats>,
    recentRhr: seq<real>, recentHrv: seq<real>, recentStand: seq<real>, recentActive: seq<real>)

  /** The window the screener reads: each summary is `robust_stats` of the whole series of its
      metric, and each recent series is the tail of that whole series holding the values of the
      last seven days. */
  function WindowOf(rows: seq<DailyMetric>): (w: Window)
    ensures w.rhrStats == RobustStats.Summarize(SeriesFor(rows, RestingHrMean))
    ensures w.hrvStats == RobustStats.Summarize(SeriesFor(rows, HrvSdnnMean))
    ensures w.standStats == RobustStats.Summarize(SeriesFor(rows, StandMinutes))
    ensures w.activeStats == RobustStats.Summarize(SeriesFor(rows, ActiveMinutes))
    ensures w.recentRhr == SeriesFor(Last(rows, RecentDays), RestingHrMean)
    ensures w.recentHrv == SeriesFor(Last(rows, RecentDays), HrvSdnnMean)
    ensures w.recentStand == SeriesFor(Last(rows, RecentDays), StandMinutes)
    ensures w.recentActive == SeriesFor(Last(rows, RecentDays), ActiveMinutes)
    ensures IsTail(w.recentRhr, SeriesFor(rows, RestingHrMean)) && IsTail(w.recentHrv, SeriesFor(rows, HrvSdnnMean))
    ensures IsTail(w.recentStand, SeriesFor(rows, StandMinutes)) && IsTail(w.recentActive, SeriesFor(rows, ActiveMinutes))
    ensures |w.recentRhr| <= RecentDays && |w.recentHrv| <= RecentDays
  {
    var recent := Last(rows, RecentDays);
    assert rows == rows[..|rows| - |recent|] + recent;
    SeriesForAppend(rows[..|rows| - |recent|], recent, RestingHrMean);
    SeriesForAppend(rows[..|rows| - |recent|], recent, HrvSdnnMean);
    SeriesForAppend(rows[..|rows| - |recent|], recent, StandMinutes);
    SeriesForAppend(rows[..|rows| - |recent|], recent, ActiveMinutes);
    Window(
      RobustStats.Summarize(SeriesFor(rows, RestingHrMean)), RobustStats.Summarize(SeriesFor(rows, HrvSdnnMean)),
      RobustStats.Summarize(SeriesFor(rows, StandMinutes)), RobustStats.Summarize(SeriesFor(rows, ActiveMinutes)),
      SeriesFor(recent, RestingHrMean), SeriesFor(recent, HrvSdnnMean),
      SeriesFor(recent, StandMinutes), SeriesFor(recent, ActiveMinutes))
  }

  /** The "not enough data" notes: one per trend that cannot be assessed. */
  function TrendNotes(w: Window): (notes: seq<Note>)
    ensures NotEnoughRestingHr in notes <==> !Assessable(w.rhrStats, w.recentRhr)
    ensures NotEnoughHrv in notes <==> !Assessable(w.hrvStats, w.recentHrv)
    ensures forall i :: 0 <= i < |notes| ==> notes[i] in {NotEnoughRestingHr, NotEnoughHrv}
  {
    (if Assessable(w.rhrStats, w.recentRhr) then [] else [NotEnoughRestingHr])
    + (if Assessable(w.hrvStats, w.recentHrv) then [] else [NotEnoughHrv])
  }

  /** The trend notes followed by the phenotype's notes, without repeats. */
  function ScreeningNotes(w: Window, phenotypeNotes: seq<Note>): (notes: seq<Note>)
    requires NotEnoughRestingHr !in phenotypeNotes && NotEnoughHrv !in phenotypeNotes
    ensures NotEnoughRestingHr in notes <==> !Assessable(w.rhrStats, w.recentRhr)
    ensures NotEnoughHrv in notes <==> !Assessable(w.hrvStats, w.recentHrv)
    ensures forall i :: 0 <= i < |phenotypeNotes| ==> phenotypeNotes[i] in notes
    ensures Text.NoDuplicates(notes)
  {
    var trend := TrendNotes(w);
    var all := trend + phenotypeNotes;
    assert forall i :: 0 <= i < |phenotypeNotes| ==> all[|trend| + i] == phenotypeNotes[i];
    assert NotEnoughRestingHr in all <==> NotEnoughRestingHr in trend;
    assert NotEnoughHrv in all <==> NotEnoughHrv in trend;
    Text.Dedup(all)
  }

  /** The screening carries the phenotype's hint, confidence and reason, and all its notes. */
  predicate FollowsPhenotype(s: Screening, p: Phenotype) {
    s.hint == p.hint && s.confidence == p.confidence && s.reason == p.reason
    && forall i :: 0 <= i < |p.notes| ==> p.notes[i] in s.dataNotes
  }

  /** The screening of one window: a follow-up status exactly when a rule signal fired, a
      signal exactly when its rule holds, a "not enough data" note exactly when a trend could
      not be assessed, and the phenotype and questionnaire that belong to the status. */
  function Screen(w: Window, bp: bool): (s: Screening)
    ensures s.status == NeedsFollowup <==> HrElevated(w.rhrStats, w.recentRhr) || HrvSuppressed(w.hrvStats, w.recentHrv)
    ensures s.status == Normal <==> |s.signals| == 0
    ensures s.status != UnknownStatus
    ensures HasSignal(s.signals, ElevatedRestingHr) <==> HrElevated(w.rhrStats, w.recentRhr)
    ensures HasSignal(s.signals, SuppressedHrv) <==> HrvSuppressed(w.hrvStats, w.recentHrv)
    ensures !HasSignal(s.signals, ClusterModelFollowup)
    ensures s.bpDataPresent == bp
    ensures s.status == Normal ==> s.hint == NormalHint && s.confidence == High
    ensures s.status == NeedsFollowup ==> s.hint in {PotsLike, IstLike, OhLike, VvsLike, UnspecifiedAutonomic}
    ensures s.signals == Signals(w.rhrStats, w.recentRhr, w.hrvStats, w.recentHrv)
    ensures FollowsPhenotype(s, ClassifyPhenotype(s.status, s.signals, w.standStats, w.recentStand, w.recentActive, bp))
    ensures s.safetyNotes == SafetyNotes
    ensures s.questionnaire == QuestionnaireFor(s.status, s.hint, bp)
    ensures NotEnoughRestingHr in s.dataNotes <==> !Assessable(w.rhrStats, w.recentRhr)
    ensures NotEnoughHrv in s.dataNotes <==> !Assessable(w.hrvStats, w.recentHrv)
    ensures Text.NoDuplicates(s.dataNotes)
    ensures s.stats == MetricStats(w.rhrStats, w.hrvStats, w.standStats, w.activeStats)
    ensures s.clusteringModel.None? && s.surveyAssessment.None?
  {
    var signals := Signals(w.rhrStats, w.recentRhr, w.hrvStats, w.recentHrv);
    var status := if |signals| == 0 then Normal else NeedsFollowup;
    var phenotype := ClassifyPhenotype(status, signals, w.standStats, w.recentStand, w.recentActive, bp);
    var s := Screening(
      status, phenotype.hint, phenotype.confidence, phenotype.reason, bp, signals,
      QuestionnaireFor(status, phenotype.hint, bp), SafetyNotes, ScreeningNotes(w, phenotype.notes),
      MetricStats(w.rhrStats, w.hrvStats, w.standStats, w.activeStats), None, None);
    assert FollowsPhenotype(s, phenotype);
    s
  }

  /** `run`: nil or empty input is a caller error; otherwise the screening of the window, with
      the blood-pressure flag read from every row. */
  function Run(daily: Option<seq<DailyMetric>>): (r: Result<Screening, string>)
    ensures r.Failure? <==> daily.None? || |daily.value| == 0
    ensures r.Success? ==> r.value.bpDataPresent == BpDataPresent(daily.value)
    ensures r.Success? ==> r.value.status != UnknownStatus
    ensures r.Success? ==> (r.value.status == NeedsFollowup <==>
      HrElevated(WindowOf(daily.value).rhrStats, WindowOf(daily.value).recentRhr) ||
      HrvSuppressed(WindowOf(daily.value).hrvStats, WindowOf(daily.value).recentHrv))
    ensures r.Success? ==> (NotEnoughRestingHr in r.value.dataNotes <==>
      !Assessable(WindowOf(daily.value).rhrStats, WindowOf(daily.value).recentRhr))
    ensures r.Success? ==> (NotEnoughHrv in r.value.dataNotes <==>
      !Assessable(WindowOf(daily.value).hrvStats, WindowOf(daily.value).recentHrv))
    ensures r.Success? ==> r.value == Screen(WindowOf(daily.value), BpDataPresent(daily.value))
  {
    if daily.None? || |daily.value| == 0 then Failure("No daily series computed")
    else Success(Screen(WindowOf(daily.value), BpDataPresent(daily.value)))
  }

  /** A risen resting HR with no stand-minute baseline to compare against is read as POTS-like,
      with high confidence, whatever else the window holds. */
  lemma ElevatedHrWithoutStandBaselineIsPotsLike(daily: seq<DailyMetric>)
    requires |daily| > 0
    requires HrElevated(WindowOf(daily).rhrStats, WindowOf(daily).recentRhr)
    requires WindowOf(daily).standStats.None?
    ensures Run(Some(daily)).Success?
    ensures Run(Some(daily)).value.status == NeedsFollowup
    ensures Run(Some(daily)).value.hint == PotsLike && Run(Some(daily)).value.confidence == High
    ensures Run(Some(daily)).value.reason == PotsPattern
  {
  }

  /** A window in which no day has a resting-HR or HRV value screens as normal, with both
      "not enough data" notes. */
  lemma NoHeartDataScreensNormal(rows: seq<DailyMetric>, bp: bool)
    requires forall i :: 0 <= i < |rows| ==> !Field(rows[i], RestingHrMean).Finite? && !Field(rows[i], HrvSdnnMean).Finite?
    ensures Screen(WindowOf(rows), bp).status == Normal
    ensures NotEnoughRestingHr in Screen(WindowOf(rows), bp).dataNotes
    ensures NotEnoughHrv in Screen(WindowOf(rows), bp).dataNotes
  {
    assert SeriesFor(rows, RestingHrMean) == [] && SeriesFor(rows, HrvSdnnMean) == [];
  }
}
