/** The screening vocabulary shared by the rule screener, the cluster scorer, the server's
    reconciliation and the survey state machine. The source keeps these as strings inside
    hashes; here every closed set of strings is an enumeration, and the empty string the source
    tests for (`to_s.empty?`) is a constructor of its own. */
module Domain {
  import opened Wrappers
  import RobustStats

  /** `status`: "normal", "needs_followup", or any other string a stored session may hold. */
  datatype Status = Normal | NeedsFollowup | UnknownStatus

  /** `phenotype_hint`; `NoHint` is the empty string. */
  datatype Hint = NormalHint | PotsLike | IstLike | OhLike | VvsLike | UnspecifiedAutonomic | NoHint

  function HintName(h: Hint): string {
    match h
    case NormalHint => "normal"
    case PotsLike => "pots_like"
    case IstLike => "ist_like"
    case OhLike => "oh_like"
    case VvsLike => "vvs_like"
    case UnspecifiedAutonomic => "unspecified_autonomic"
    case NoHint => ""
  }

  /** `phenotype_confidence` / model `confidence`; `NoConfidence` is the empty string. */
  datatype Confidence = High | Medium | Low | NoConfidence

  /** `confidence_rank` (server.rb and survey_labeling.rb define it identically):
      high 3, medium 2, low 1, anything else 0. */
  function ConfidenceRank(c: Confidence): (r: nat)
    ensures r <= 3
    ensures r == 0 <==> c == NoConfidence
  {
    match c
    case High => 3
    case Medium => 2
    case Low => 1
    case NoConfidence => 0
  }

  datatype Severity = LowSeverity | Moderate

  datatype SignalKey = ElevatedRestingHr | SuppressedHrv | ClusterModelFollowup

  datatype Signal = Signal(key: SignalKey, severity: Severity)

  /** The six fixed question sets of the baseline screener. */
  datatype QuestionSet = NormalSet | PotsSet | IstSet | OhSet | VvsSet | FallbackSet

  /** A question's prompt, identified by the set it belongs to and its id; the English wording
      of every prompt is tabulated in `Baseline.PromptWording`. */
  datatype Prompt = Prompt(questionSet: QuestionSet, id: string)

  datatype Question = Question(id: string, prompt: Prompt, options: seq<string>)

  /** A stored survey answer: the question id, the question's prompt, and the chosen option. */
  datatype Answer = Answer(id: string, prompt: Prompt, answer: string)

  function QuestionIds(qs: seq<Question>): (ids: seq<string>)
    ensures |ids| == |qs| && forall i :: 0 <= i < |qs| ==> ids[i] == qs[i].id
  {
    seq(|qs|, i requires 0 <= i < |qs| => qs[i].id)
  }

  /** `alignment` of a survey assessment. */
  datatype Alignment = Supports | Mixed | DoesNotSupport | Inconclusive

  /** The free-text explanations the source stores in `phenotype_reason` / `reason`. Their
      wording is not part of the model; the constructor says which message was chosen and
      carries the values the message interpolates. `NoReason` is the empty string. */
  datatype Reason =
    | NoReason
    | NoRiskPattern
    | IstPattern
    | PotsPattern
    | VvsPattern
    | OhPattern
    | NoSpecificSubtype
    | NoStrongFollowup
    | FollowupWithoutSubtype
    | ClusterPattern(status: Status, hint: Hint, confidence: Confidence, purity: real, followupRate: real, coverage: real)
    | QuickCheckHrRise(deltaHr: real)
    | QuickCheckSbpDrop(deltaSbp: real)
    | QuickCheckHighRestingHr
    | SurveyAligns(hint: Hint)
    | SurveyRevertedToNormal
    | SurveyDidNotMatch
    | SurveyMixed(hint: Hint)
    | SurveyTooFewAnswers

  /** The entries of `data_notes`, by message. */
  datatype Note =
    | NotEnoughRestingHr
    | NotEnoughHrv
    | BpMissingForOhVvs
    | BpMissingForSubtype
    | HighRecentActivity
    | ClusterUnavailable(error: string)
    | ClusterSaid(reason: Reason)
    | ModelUpgradedStatus
    | ModelLowConfidence(confidence: Confidence, coverage: real)
    | ModelAlignedNormal
    | SurveySummary(hint: Hint, alignment: Alignment, score: real, informative: nat)
    | SurveyDowngradedStatus

  /** The continuous raw features of one scoring call, in the model's feature order, with nil
      (None) for an unobserved value; Ruby keeps them in an insertion-ordered hash. */
  type FeatureValues = seq<(string, Option<real>)>

  /** The result of `ClusteringModel.score`: a scored assessment, or `{source, error}`. */
  datatype ModelResult =
    | Scored(status: Status, hint: Hint, confidence: Confidence, reason: Reason,
             clusterId: nat, distance: Option<real>, purity: real, followupRate: real,
             coverage: real, featuresUsed: FeatureValues)
    | ModelError(message: string)

  datatype SurveyAssessment = SurveyAssessment(
    statusContext: Status, hintContext: Hint, answeredCount: nat,
    informative: nat, supportVotes: nat, againstVotes: nat,
    supportScore: real, alignment: Alignment, severeRedFlag: bool, summary: Note)

  datatype MetricStats = MetricStats(
    restingHr: Option<RobustStats.Stats>, hrvSdnn: Option<RobustStats.Stats>,
    standMinutes: Option<RobustStats.Stats>, activeMinutes: Option<RobustStats.Stats>)

  /** The screening result a session stores, mutated in turn by the cluster merge, the
      normalisation and the survey. */
  datatype Screening = Screening(
    status: Status,
    hint: Hint,
    confidence: Confidence,
    reason: Reason,
    bpDataPresent: bool,
    signals: seq<Signal>,
    questionnaire: seq<Question>,
    safetyNotes: seq<string>,
    dataNotes: seq<Note>,
    stats: MetricStats,
    clusteringModel: Option<ModelResult>,
    surveyAssessment: Option<SurveyAssessment>)

  const SafetyNotes: seq<string> := [
    "This tool is not a diagnosis.",
    "If you have chest pain, severe shortness of breath, fainting, or severe symptoms, seek urgent medical care."
  ]
}
