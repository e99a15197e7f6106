/** The server's reconciliation of the three screening sources (server.rb): the orthostatic
    quick-check form, the calibration of the cluster verdict, the merge of that verdict into
    the rule screening, the profile normalisation, the answer sanitisation, and the two
    request pipelines that chain them. */
module Reconcile {
  import opened Wrappers
  import opened Domain
  import Text
  import Numbers
  import Baseline
  import ClusteringModel
  import SurveyLabeling

  /** `parse_optional_float` on a form field that may be absent. */
  function ParseFormFloat(value: Option<string>): (r: Option<real>)
    ensures value.None? ==> r.None?
    ensures value.Some? ==> r == Numbers.ParseOptionalFloat(value.value)
  {
    if value.None? then None else Numbers.ParseOptionalFloat(value.value)
  }

  /** The four quick-check form fields. */
  datatype OrthoForm = OrthoForm(restHr: Option<string>, standHr: Option<string>, restSbp: Option<string>, standSbp: Option<string>)

  /** Stand minus sit, when both halves are known. */
  function Difference(sit: Option<real>, stand: Option<real>): Option<real> {
    if sit.Some? && stand.Some? then Some(stand.value - sit.value) else None
  }

  /** Every value the form could supply, under its feature name: the four parsed fields and the
      two deltas. */
  function Candidates(sitHr: Option<real>, standHr: Option<real>, sitSbp: Option<real>, standSbp: Option<real>)
    : seq<(string, Option<real>)>
  {
    [("sit_hr_mean", sitHr), ("stand_hr_mean", standHr), ("sit_sbp_mean", sitSbp), ("stand_sbp_mean", standSbp),
     ("delta_hr_stand_minus_sit", Difference(sitHr, standHr)), ("delta_sbp_stand_minus_sit", Difference(sitSbp, standSbp))]
  }

  function FormCandidates(form: OrthoForm): seq<(string, Option<real>)> {
    Candidates(ParseFormFloat(form.restHr), ParseFormFloat(form.standHr), ParseFormFloat(form.restSbp), ParseFormFloat(form.standSbp))
  }

  /** The hash entries for the known candidates, in order: exactly the candidates with a value,
      each under its name as a string key. */
  function Kept(c: seq<(string, Option<real>)>): (entries: seq<(ClusteringModel.Key, ClusteringModel.Raw)>)
    ensures |entries| <= |c|
    ensures forall i :: 0 <= i < |entries| ==>
      entries[i].0.Str? && entries[i].1.Num? && (entries[i].0.name, Some(entries[i].1.v)) in c
    ensures forall i :: 0 <= i < |c| && c[i].1.Some? ==>
      (ClusteringModel.Str(c[i].0), ClusteringModel.Num(c[i].1.value)) in entries
    ensures |entries| == 0 <==> forall i :: 0 <= i < |c| ==> c[i].1.None?
  {
    if |c| == 0 then []
    else
      var rest := Kept(c[1..]);
      assert forall i :: 1 <= i < |c| ==> c[i] == c[1..][i - 1];
      if c[0].1.Some? then [(ClusteringModel.Str(c[0].0), ClusteringModel.Num(c[0].1.value))] + rest else rest
  }

  /** The quick-check hash the import endpoint builds from the form. */
  function OrthoInput(form: OrthoForm): seq<(ClusteringModel.Key, ClusteringModel.Raw)> {
    Kept(FormCandidates(form))
  }

  /** The override handed to the scorer: the hash, or nothing when it is empty. */
  function OrthoOverride(form: OrthoForm): (r: Option<ClusteringModel.Ortho>)
    ensures r.None? <==> forall i :: 0 <= i < |FormCandidates(form)| ==> FormCandidates(form)[i].1.None?
    ensures r.Some? ==> r.value == ClusteringModel.Hash(OrthoInput(form))
  {
    var entries := OrthoInput(form);
    if |entries| == 0 then None else Some(ClusteringModel.Hash(entries))
  }

  /** The keys a feature is looked up under: its own name as a string, a symbol, or an older
      sitting-value name. */
  lemma OrthoKeyNames(name: string, j: nat)
    requires j < |ClusteringModel.OrthoKeys(name)|
    ensures var k := ClusteringModel.OrthoKeys(name)[j];
      k == ClusteringModel.Str(name) || k.Sym? || k == ClusteringModel.Str("rest_hr") || k == ClusteringModel.Str("rest_sbp")
  {
    var keys := ClusteringModel.OrthoKeys(name);
    if name == "sit_hr_mean" {
      assert keys == [ClusteringModel.Str(name), ClusteringModel.Sym(name), ClusteringModel.Str("rest_hr"), ClusteringModel.Sym("rest_hr")];
    } else if name == "sit_sbp_mean" {
      assert keys == [ClusteringModel.Str(name), ClusteringModel.Sym(name), ClusteringModel.Str("rest_sbp"), ClusteringModel.Sym("rest_sbp")];
    } else {
      assert keys == [ClusteringModel.Str(name), ClusteringModel.Sym(name)];
    }
  }

  /** A candidate with a name of its own reads back from the kept hash as its own value. */
  lemma ReadBack(c: seq<(string, Option<real>)>, i: nat)
    requires i < |c|
    requires forall j :: 0 <= j < |c| && j != i ==> |c[j].0| != |c[i].0|
    requires forall j :: 0 <= j < |c| ==> |c[j].0| > |"rest_sbp"|
    ensures ClusteringModel.OrthoFeature(ClusteringModel.Hash(Kept(c)), c[i].0) == c[i].1
  {
    var entries := Kept(c);
    var name := c[i].0;
    var keys := ClusteringModel.OrthoKeys(name);
    assert keys[0] == ClusteringModel.Str(name);
    if c[i].1.Some? {
      assert (ClusteringModel.Str(name), ClusteringModel.Num(c[i].1.value)) in entries;
      var idx := ClusteringModel.FindKey(entries, keys[0]);
      assert idx.Some?;
      var e := entries[idx.value];
      assert (name, Some(e.1.v)) in c;
      assert e.1 == ClusteringModel.Num(c[i].1.value);
    } else {
      forall j | 0 <= j < |keys|
        ensures ClusteringModel.FindKey(entries, keys[j]).None?
      {
        OrthoKeyNames(name, j);
        forall k | 0 <= k < |entries|
          ensures entries[k].0 != keys[j]
        {
          assert (entries[k].0.name, Some(entries[k].1.v)) in c;
        }
      }
    }
  }

  /** Every value the form supplies reads back from the hash under its feature name, the deltas
      included, and an unparseable or missing field reads back as nil. */
  lemma FormReadsBack(sitHr: Option<real>, standHr: Option<real>, sitSbp: Option<real>, standSbp: Option<real>, i: nat)
    requires i < 6
    ensures var c := Candidates(sitHr, standHr, sitSbp, standSbp);
      ClusteringModel.OrthoFeature(ClusteringModel.Hash(Kept(c)), c[i].0) == c[i].1
  {
    var c := Candidates(sitHr, standHr, sitSbp, standSbp);
    assert |c| == 6 && |c[0].0| == 11 && |c[1].0| == 13 && |c[2].0| == 12 && |c[3].0| == 14
           && |c[4].0| == 24 && |c[5].0| == 25;
    ReadBack(c, i);
  }

  /** The scorer derives a missing heart-rate delta from the sitting and standing values, so a
      hash holding all three consistently yields the same delta either way. */
  lemma ScorerDelta(ortho: ClusteringModel.Ortho, continuous: seq<string>, imported: ClusteringModel.Imported,
                    sitHr: Option<real>, standHr: Option<real>)
    requires ClusteringModel.OrthoFeature(ortho, "sit_hr_mean") == sitHr
    requires ClusteringModel.OrthoFeature(ortho, "stand_hr_mean") == standHr
    requires ClusteringModel.OrthoFeature(ortho, "delta_hr_stand_minus_sit") == Difference(sitHr, standHr)
    ensures ClusteringModel.FeatureValue("delta_hr_stand_minus_sit", continuous, imported, ortho) == Difference(sitHr, standHr)
  {
    var f := "delta_hr_stand_minus_sit";
    assert f != "resting_hr_mean" && f != "hrv_sdnn_mean" && f != "age";
    assert f !in {"sit_hr_mean", "stand_hr_mean", "sit_sbp_mean", "stand_sbp_mean"};
  }

  /** The scorer, handed the form's hash, derives the heart-rate delta the form implies:
      standing minus sitting when both parsed, nil otherwise. */
  lemma FormDeltaReachesScorer(sitHr: Option<real>, standHr: Option<real>, sitSbp: Option<real>, standSbp: Option<real>,
                               continuous: seq<string>, imported: ClusteringModel.Imported)
    ensures var ortho := ClusteringModel.Hash(Kept(Candidates(sitHr, standHr, sitSbp, standSbp)));
      ClusteringModel.FeatureValue("delta_hr_stand_minus_sit", continuous, imported, ortho) == Difference(sitHr, standHr)
  {
    var ortho := ClusteringModel.Hash(Kept(Candidates(sitHr, standHr, sitSbp, standSbp)));
    FormReadsBack(sitHr, standHr, sitSbp, standSbp, 0);
    FormReadsBack(sitHr, standHr, sitSbp, standSbp, 1);
    FormReadsBack(sitHr, standHr, sitSbp, standSbp, 4);
    ScorerDelta(ortho, continuous, imported, sitHr, standHr);
  }

  // ---------------------------------------------------------------- calibration

  const CalibrationCoverage: real := 0.8
  const PotsHrRise: real := 30.0
  const OhSbpDrop: real := -20.0
  const IstRestingHr: real := 90.0

  /** The quick-check rule that calibration applies, if any. */
  datatype QuickCheck = PotsCheck(deltaHr: real) | OhCheck(deltaSbp: real) | IstCheck | NoCheck

  /** The calibration cascade on the three features: a heart-rate rise of at least 30 without
      an SBP drop of 20 or more is POTS-like; otherwise an SBP drop of at least 20 is OH-like;
      otherwise a resting HR of at least 90 without a 30-beat rise is IST-like. */
  function QuickCheckOf(deltaHr: Option<real>, deltaSbp: Option<real>, restingHr: Option<real>): (q: QuickCheck)
    ensures q.PotsCheck? <==> deltaHr.Some? && deltaHr.value >= PotsHrRise && (deltaSbp.None? || deltaSbp.value > OhSbpDrop)
    ensures q.OhCheck? <==> deltaSbp.Some? && deltaSbp.value <= OhSbpDrop
    ensures q.IstCheck? <==> (restingHr.Some? && restingHr.value >= IstRestingHr && (deltaHr.None? || deltaHr.value < PotsHrRise)
                              && (deltaSbp.None? || deltaSbp.value > OhSbpDrop))
  {
    if deltaHr.Some? && deltaHr.value >= PotsHrRise && (deltaSbp.None? || deltaSbp.value > OhSbpDrop) then PotsCheck(deltaHr.value)
    else if deltaSbp.Some? && deltaSbp.value <= OhSbpDrop then OhCheck(deltaSbp.value)
    else if restingHr.Some? && restingHr.value >= IstRestingHr && (deltaHr.None? || deltaHr.value < PotsHrRise) then IstCheck
    else NoCheck
  }

  function QuickCheckFor(m: ModelResult): QuickCheck
    requires m.Scored?
  {
    QuickCheckOf(ClusteringModel.Get(m.featuresUsed, "delta_hr_stand_minus_sit"),
                 ClusteringModel.Get(m.featuresUsed, "delta_sbp_stand_minus_sit"),
                 ClusteringModel.Get(m.featuresUsed, "resting_hr_mean"))
  }

  /** `calibrate_model_result`: an error, or a verdict with coverage below 0.8, is left alone;
      otherwise a matching quick-check rule overrides the verdict with a follow-up of the
      rule's hint at medium confidence. Nothing but the verdict fields ever changes. */
  function Calibrate(m: ModelResult): (r: ModelResult)
    ensures m.ModelError? ==> r == m
    ensures m.Scored? && m.coverage < CalibrationCoverage ==> r == m
    ensures m.Scored? ==> (r.Scored? && r.clusterId == m.clusterId && r.distance == m.distance && r.purity == m.purity
      && r.followupRate == m.followupRate && r.coverage == m.coverage && r.featuresUsed == m.featuresUsed)
    ensures r != m ==> r.status == NeedsFollowup && r.confidence == Medium && r.hint in {PotsLike, OhLike, IstLike}
    ensures m.Scored? && m.coverage >= CalibrationCoverage ==>
      (QuickCheckFor(m).PotsCheck? ==> r.hint == PotsLike && r.status == NeedsFollowup) &&
      (QuickCheckFor(m).OhCheck? ==> r.hint == OhLike && r.status == NeedsFollowup) &&
      (QuickCheckFor(m).IstCheck? ==> r.hint == IstLike && r.status == NeedsFollowup) &&
      (QuickCheckFor(m).NoCheck? ==> r == m)
  {
    if m.ModelError? || m.coverage < CalibrationCoverage then m
    else
      match QuickCheckFor(m)
      case PotsCheck(d) => m.(status := NeedsFollowup, hint := PotsLike, confidence := Medium, reason := QuickCheckHrRise(d))
      case OhCheck(d) => m.(status := NeedsFollowup, hint := OhLike, confidence := Medium, reason := QuickCheckSbpDrop(d))
      case IstCheck => m.(status := NeedsFollowup, hint := IstLike, confidence := Medium, reason := QuickCheckHighRestingHr)
      case NoCheck => m
  }

  /** Calibrating twice is calibrating once: the rule reads only the features, which
      calibration never touches. */
  lemma CalibrateIdempotent(m: ModelResult)
    ensures Calibrate(Calibrate(m)) == Calibrate(m)
  {
    if m.Scored? && m.coverage >= CalibrationCoverage {
      assert QuickCheckFor(Calibrate(m)) == QuickCheckFor(m);
    }
  }

  /** Calibration sets medium even over a high-confidence cluster verdict. */
  lemma CalibrationCanLowerConfidence(m: ModelResult)
    requires m.Scored? && m.confidence == High && m.coverage >= CalibrationCoverage
    requires ClusteringModel.Get(m.featuresUsed, "delta_sbp_stand_minus_sit") == Some(-25.0)
    ensures Calibrate(m).confidence == Medium
  {
  }

  // ---------------------------------------------------------------- normalisation

  /** `normalize_screening_profile!`: a normal screening always has the normal hint at high
      confidence; a follow-up without a subtype becomes unspecified, with low confidence and a
      default reason only where those were empty; any other status is left alone. */
  function Normalize(s: Screening): (r: Screening)
    ensures s.status == Normal ==> (r.hint == NormalHint && r.confidence == High
      && r.reason == (if s.reason == NoReason then NoStrongFollowup else s.reason))
    ensures s.status == NeedsFollowup && s.hint in {NoHint, NormalHint} ==> (r.hint == UnspecifiedAutonomic
      && r.confidence == (if s.confidence == NoConfidence then Low else s.confidence)
      && r.reason == (if s.reason == NoReason then FollowupWithoutSubtype else s.reason))
    ensures s.status == NeedsFollowup && s.hint !in {NoHint, NormalHint} ==> r == s
    ensures s.status == UnknownStatus ==> r == s
    ensures r == s.(hint := r.hint, confidence := r.confidence, reason := r.reason)
    ensures r.status == NeedsFollowup ==> r.hint != NoHint && r.hint != NormalHint
    ensures r.status == Normal ==> r.hint == NormalHint && r.confidence == High && r.reason != NoReason
  {
    if s.status == Normal then
      s.(hint := NormalHint, confidence := High, reason := if s.reason == NoReason then NoStrongFollowup else s.reason)
    else if s.status == NeedsFollowup && (s.hint == NoHint || s.hint == NormalHint) then
      s.(hint := UnspecifiedAutonomic,
         confidence := if s.confidence == NoConfidence then Low else s.confidence,
         reason := if s.reason == NoReason then FollowupWithoutSubtype else s.reason)
    else s
  }

  /** Normalising a normalised profile changes nothing. */
  lemma NormalizeIdempotent(s: Screening)
    ensures Normalize(Normalize(s)) == Normalize(s)
  {
  }

  // ---------------------------------------------------------------- merge

  /** The verdict fields of a model result; an error result has none (empty strings). */
  function ModelStatus(m: ModelResult): Status {
    if m.Scored? then m.status else UnknownStatus
  }

  function ModelHint(m: ModelResult): Hint {
    if m.Scored? then m.hint else NoHint
  }

  function ModelConfidence(m: ModelResult): Confidence {
    if m.Scored? then m.confidence else NoConfidence
  }

  function ModelReason(m: ModelResult): Reason {
    if m.Scored? then m.reason else NoReason
  }

  function ModelCoverage(m: ModelResult): real {
    if m.Scored? then m.coverage else 0.0
  }

  predicate IsModelError(m: ModelResult) {
    m.ModelError? && m.message != ""
  }

  /** Whether a (calibrated) verdict asks for follow-up with at least medium confidence. */
  predicate Upgrades(m: ModelResult) {
    ModelStatus(m) == NeedsFollowup && ConfidenceRank(ModelConfidence(m)) >= 2
  }

  predicate SubtypeOpen(h: Hint) {
    h == NoHint || h == UnspecifiedAutonomic || h == NormalHint
  }

  /** The signal the merge adds when it upgrades a normal screening, unless one is there. */
  function WithClusterSignal(signals: seq<Signal>, confidence: Confidence): (r: seq<Signal>)
    ensures Baseline.HasSignal(r, ClusterModelFollowup)
    ensures Baseline.HasSignal(signals, ClusterModelFollowup) ==> r == signals
    ensures !Baseline.HasSignal(signals, ClusterModelFollowup) ==>
      r == signals + [Signal(ClusterModelFollowup, if confidence == High then Moderate else LowSeverity)]
  {
    if Baseline.HasSignal(signals, ClusterModelFollowup) then signals
    else
      var r := signals + [Signal(ClusterModelFollowup, if confidence == High then Moderate else LowSeverity)];
      assert r[|r| - 1].key == ClusterModelFollowup;
      r
  }

  /** The verdict part of the merge for a model that asks for follow-up at medium or higher. */
  function Upgrade(s: Screening, m: ModelResult): (r: Screening)
    requires Upgrades(m)
    ensures s.status == Normal ==> (r.status == NeedsFollowup
      && r.hint == (if ModelHint(m) == NoHint then UnspecifiedAutonomic else ModelHint(m))
      && r.confidence == ModelConfidence(m)
      && r.questionnaire == Baseline.QuestionnaireFor(NeedsFollowup, r.hint, s.bpDataPresent)
      && Baseline.HasSignal(r.signals, ClusterModelFollowup)
      && |r.signals| == |s.signals| + (if Baseline.HasSignal(s.signals, ClusterModelFollowup) then 0 else 1))
    ensures s.status != Normal ==> (r.status == s.status && r.signals == s.signals
      && ConfidenceRank(r.confidence) == (if ConfidenceRank(ModelConfidence(m)) > ConfidenceRank(s.confidence)
                                         then ConfidenceRank(ModelConfidence(m)) else ConfidenceRank(s.confidence))
      && (SubtypeOpen(s.hint) && ModelHint(m) != NoHint ==> (r.hint == ModelHint(m)
            && r.questionnaire == Baseline.QuestionnaireFor(NeedsFollowup, ModelHint(m), s.bpDataPresent)))
      && (!(SubtypeOpen(s.hint) && ModelHint(m) != NoHint) ==> r.hint == s.hint && r.questionnaire == s.questionnaire))
    ensures r.dataNotes == s.dataNotes && r.bpDataPresent == s.bpDataPresent && r.stats == s.stats
    ensures r.safetyNotes == s.safetyNotes && r.clusteringModel == s.clusteringModel && r.surveyAssessment == s.surveyAssessment
  {
    var mc := ModelConfidence(m);
    var mh := ModelHint(m);
    if s.status == Normal then
      var hint := if mh == NoHint then UnspecifiedAutonomic else mh;
      s.(status := NeedsFollowup, hint := hint, confidence := mc, reason := ModelReason(m),
         questionnaire := Baseline.QuestionnaireFor(NeedsFollowup, hint, s.bpDataPresent),
         signals := WithClusterSignal(s.signals, mc))
    else
      var confidence := if ConfidenceRank(mc) > ConfidenceRank(s.confidence) then mc else s.confidence;
      if SubtypeOpen(s.hint) && mh != NoHint then
        s.(confidence := confidence, hint := mh, questionnaire := Baseline.QuestionnaireFor(NeedsFollowup, mh, s.bpDataPresent))
      else s.(confidence := confidence)
  }

  /** The note the merge adds after the model's reason. */
  function VerdictNote(m: ModelResult): (n: Option<Note>)
    ensures Upgrades(m) ==> n.None?
    ensures ModelStatus(m) == NeedsFollowup && !Upgrades(m) ==> n == Some(ModelLowConfidence(ModelConfidence(m), ModelCoverage(m)))
    ensures ModelStatus(m) != NeedsFollowup ==> n == Some(ModelAlignedNormal)
  {
    if Upgrades(m) then None
    else if ModelStatus(m) == NeedsFollowup then Some(ModelLowConfidence(ModelConfidence(m), ModelCoverage(m)))
    else Some(ModelAlignedNormal)
  }

  /** `merge_clustering_model!`: nothing without a model result; otherwise the calibrated result
      is stored; an error only adds a note; a confident follow-up verdict upgrades a normal
      screening or, on a follow-up screening, raises the confidence and fills an open subtype;
      every outcome leaves de-duplicated notes that include the model's reason. */
  function Merge(s: Screening, result: Option<ModelResult>): (r: Screening)
    ensures result.None? ==> r == s
    ensures result.Some? ==> r.clusteringModel == Some(Calibrate(result.value))
    ensures result.Some? && IsModelError(Calibrate(result.value)) ==>
      r == s.(clusteringModel := r.clusteringModel, dataNotes := SurveyLabeling.AppendNote(s.dataNotes, ClusterUnavailable(result.value.message)))
    ensures result.Some? && !IsModelError(Calibrate(result.value)) ==>
      ClusterSaid(ModelReason(Calibrate(result.value))) in r.dataNotes && Text.NoDuplicates(r.dataNotes)
    ensures result.Some? && !Upgrades(Calibrate(result.value)) ==>
      r.status == s.status && r.hint == s.hint && r.confidence == s.confidence && r.signals == s.signals
    ensures result.Some? && Upgrades(Calibrate(result.value)) ==> r.status == NeedsFollowup || r.status == s.status
    ensures result.Some? && !IsModelError(Calibrate(result.value)) && Upgrades(Calibrate(result.value)) ==>
      var m := Calibrate(result.value);
      r == Upgrade(s.(clusteringModel := Some(m)), m).(dataNotes := MergeNotes(s.dataNotes, m, s.status == Normal))
    ensures result.Some? && !IsModelError(Calibrate(result.value)) && !Upgrades(Calibrate(result.value)) ==>
      var m := Calibrate(result.value);
      r == s.(clusteringModel := Some(m), dataNotes := MergeNotes(s.dataNotes, m, false))
    ensures s.status != Normal ==> r.status == s.status && ConfidenceRank(r.confidence) >= ConfidenceRank(s.confidence)
    ensures r.bpDataPresent == s.bpDataPresent && r.stats == s.stats && r.safetyNotes == s.safetyNotes
    ensures r.surveyAssessment == s.surveyAssessment
    ensures forall i :: 0 <= i < |s.dataNotes| ==> s.dataNotes[i] in r.dataNotes
  {
    if result.None? then s
    else
      var m := Calibrate(result.value);
      var stored := s.(clusteringModel := Some(m));
      if IsModelError(m) then
        stored.(dataNotes := SurveyLabeling.AppendNote(s.dataNotes, ClusterUnavailable(m.message)))
      else
        var verdict := if Upgrades(m) then Upgrade(stored, m) else stored;
        verdict.(dataNotes := MergeNotes(s.dataNotes, m, Upgrades(m) && s.status == Normal))
  }

  /** The notes after a scored merge: the old notes, what the model said, then the note about
      the verdict, without repeats. */
  function MergeNotes(notes: seq<Note>, m: ModelResult, upgradedNormal: bool): (r: seq<Note>)
    ensures ClusterSaid(ModelReason(m)) in r && Text.NoDuplicates(r)
    ensures forall i :: 0 <= i < |notes| ==> notes[i] in r
  {
    var said := notes + [ClusterSaid(ModelReason(m))];
    var all :=
      if upgradedNormal then said + [ModelUpgradedStatus]
      else if VerdictNote(m).Some? then said + [VerdictNote(m).value]
      else said;
    assert all[|notes|] == ClusterSaid(ModelReason(m));
    assert forall i :: 0 <= i < |notes| ==> all[i] == notes[i];
    Text.Dedup(all)
  }

  /** A confident cluster verdict upgrades a normal screening at the model's confidence, which
      may be lower than the normal screening's high. */
  lemma MergeUpgradeMayLowerConfidence(s: Screening, m: ModelResult)
    requires s.status == Normal && s.confidence == High
    requires m.Scored? && m.status == NeedsFollowup && m.confidence == Medium && m.coverage < CalibrationCoverage
    ensures Merge(s, Some(m)).status == NeedsFollowup
    ensures Merge(s, Some(m)).confidence == Medium
  {
    assert Calibrate(m) == m;
  }

  // ---------------------------------------------------------------- answers

  /** `question_map`: the last question stored under a non-empty id. */
  function QuestionById(questionnaire: seq<Question>, id: string): (q: Option<Question>)
    ensures q.Some? ==> id != "" && exists i :: LastWithId(questionnaire, id, i) && q.value == questionnaire[i]
    ensures q.None? ==> id == "" || forall i :: 0 <= i < |questionnaire| ==> questionnaire[i].id != id
  {
    if |questionnaire| == 0 || id == "" then None
    else
      var last := questionnaire[|questionnaire| - 1];
      if last.id == id then
        assert LastWithId(questionnaire, id, |questionnaire| - 1);
        Some(last)
      else
        var init := questionnaire[..|questionnaire| - 1];
        var q := QuestionById(init, id);
        assert forall i :: 0 <= i < |init| ==> init[i] == questionnaire[i];
        assert forall i :: LastWithId(init, id, i) ==> LastWithId(questionnaire, id, i);
        q
  }

  /** Question `i` carries `id` and no later question does. */
  ghost predicate LastWithId(questionnaire: seq<Question>, id: string, i: int) {
    0 <= i < |questionnaire| && questionnaire[i].id == id
    && forall j :: i < j < |questionnaire| ==> questionnaire[j].id != id
  }

  /** Whether a submitted (question id, option) pair names a stored question and one of its
      options. */
  predicate Valid(questionnaire: seq<Question>, id: string, option: string) {
    QuestionById(questionnaire, id).Some? && option in QuestionById(questionnaire, id).value.options
  }

  /** The sanitised form of one submitted (question id, option) pair: the answer with the
      stored question's prompt when the pair is valid, nothing otherwise. */
  function SanitizedPair(questionnaire: seq<Question>, pair: (string, string)): (r: seq<Answer>)
    ensures |r| <= 1
    ensures |r| == 1 <==> Valid(questionnaire, pair.0, pair.1)
    ensures |r| == 1 ==> r[0].id == pair.0 && r[0].answer == pair.1
                         && r[0].prompt == QuestionById(questionnaire, pair.0).value.prompt
  {
    if Valid(questionnaire, pair.0, pair.1) then [Answer(pair.0, QuestionById(questionnaire, pair.0).value.prompt, pair.1)]
    else []
  }

  /** What the sanitisation promises for a batch of submitted pairs and its kept answers. */
  predicate SanitizedFrom(questionnaire: seq<Question>, submitted: seq<(string, string)>, r: seq<Answer>) {
    && |r| <= |submitted|
    && (forall i :: 0 <= i < |r| ==> (Valid(questionnaire, r[i].id, r[i].answer)
         && r[i].prompt == QuestionById(questionnaire, r[i].id).value.prompt))
    && (forall i :: 0 <= i < |submitted| && Valid(questionnaire, submitted[i].0, submitted[i].1) ==>
         exists j :: 0 <= j < |r| && r[j].id == submitted[i].0 && r[j].answer == submitted[i].1)
    && (forall j :: 0 <= j < |r| ==> (r[j].id, r[j].answer) in submitted)
    && ((forall i :: 0 <= i < |submitted| ==> Valid(questionnaire, submitted[i].0, submitted[i].1)) ==> |r| == |submitted|)
  }

  /** One step of the sanitisation: appending a pair and its sanitised form keeps the promise. */
  lemma SanitizeStep(questionnaire: seq<Question>, init: seq<(string, string)>, pair: (string, string), prev: seq<Answer>)
    requires SanitizedFrom(questionnaire, init, prev)
    ensures SanitizedFrom(questionnaire, init + [pair], prev + SanitizedPair(questionnaire, pair))
  {
    var submitted := init + [pair];
    var k := SanitizedPair(questionnaire, pair);
    var r := prev + k;
    assert forall i :: 0 <= i < |init| ==> submitted[i] == init[i];
    assert forall j :: 0 <= j < |prev| ==> r[j] == prev[j];
    assert |k| == 1 ==> r[|r| - 1] == k[0] && (r[|r| - 1].id, r[|r| - 1].answer) == pair;
    if forall i :: 0 <= i < |submitted| ==> Valid(questionnaire, submitted[i].0, submitted[i].1) {
      assert forall i :: 0 <= i < |init| ==> Valid(questionnaire, init[i].0, init[i].1);
      assert submitted[|init|] == pair;
    }
  }

  /** The answer sanitisation of the answers endpoint: the submitted pairs, in order, keeping
      exactly those that name a stored question and one of its options, each with that
      question's prompt; nothing that was not submitted appears. */
  function Sanitize(questionnaire: seq<Question>, submitted: seq<(string, string)>): (r: seq<Answer>)
    ensures SanitizedFrom(questionnaire, submitted, r)
    ensures |submitted| == 1 ==> r == SanitizedPair(questionnaire, submitted[0])
  {
    if |submitted| == 0 then []
    else
      var init := submitted[..|submitted| - 1];
      var prev := Sanitize(questionnaire, init);
      var pair := submitted[|submitted| - 1];
      SanitizeStep(questionnaire, init, pair, prev);
      assert submitted == init + [pair];
      prev + SanitizedPair(questionnaire, pair)
  }

  /** Sanitising two batches of answers one after the other gives the first batch's kept
      answers followed by the second's: the filter keeps the submitted order. */
  lemma {:induction false} SanitizeAppend(questionnaire: seq<Question>, a: seq<(string, string)>, b: seq<(string, string)>)
    ensures Sanitize(questionnaire, a + b) == Sanitize(questionnaire, a) + Sanitize(questionnaire, b)
  {
    if |b| > 0 {
      var b', x := b[..|b| - 1], b[|b| - 1];
      assert Sanitize(questionnaire, a + b') == Sanitize(questionnaire, a) + Sanitize(questionnaire, b') by {
        SanitizeAppend(questionnaire, a, b');
      }
      assert Sanitize(questionnaire, a + b) == Sanitize(questionnaire, a + b') + SanitizedPair(questionnaire, x) by {
        assert (a + b)[..|a + b| - 1] == a + b';
      }
      assert Sanitize(questionnaire, b) == Sanitize(questionnaire, b') + SanitizedPair(questionnaire, x);
    } else {
      assert a + b == a;
    }
  }

  // ---------------------------------------------------------------- pipelines

  /** The imported data as the import endpoint hands it on: the quick-check form's values,
      when there are any, replace the stored orthostatic input; the daily series is untouched. */
  function WithOrtho(imported: ClusteringModel.Imported, form: OrthoForm): (r: ClusteringModel.Imported)
    ensures r.daily == imported.daily && r.age == imported.age
    ensures OrthoOverride(form).Some? ==> r.orthostaticInput == OrthoOverride(form)
    ensures OrthoOverride(form).None? ==> r == imported
  {
    var override := OrthoOverride(form);
    if override.Some? then imported.(orthostaticInput := override) else imported
  }

  /** The import endpoint without the optional language-model step: the rule screener and the
      cluster scorer read the same imported data (the scorer with the quick-check override),
      then the merge and the normalisation. */
  function ImportScreening(imported: ClusteringModel.Imported, artifact: ClusteringModel.ArtifactFile,
                           form: OrthoForm): (r: Result<Screening, string>)
    ensures r.Failure? <==> imported.daily.None? || |imported.daily.value| == 0
    ensures r.Success? ==> var screened := Baseline.Run(imported.daily).value;
      var scored := ClusteringModel.Score(artifact, WithOrtho(imported, form), OrthoOverride(form));
      && r.value.status == Merge(screened, scored).status
      && r.value.clusteringModel == (if scored.Some? then Some(Calibrate(scored.value)) else None)
      && r.value.stats == screened.stats && r.value.bpDataPresent == screened.bpDataPresent
    ensures r.Success? ==> r.value.status != UnknownStatus
    ensures r.Success? && r.value.status == Normal ==> r.value.hint == NormalHint && r.value.confidence == High
    ensures r.Success? && r.value.status == NeedsFollowup ==> r.value.hint !in {NoHint, NormalHint}
    ensures r.Success? && artifact.NoFile? ==> r.value.clusteringModel.None?
  {
    var withOrtho := WithOrtho(imported, form);
    match Baseline.Run(withOrtho.daily)
    case Failure(e) => Failure(e)
    case Success(screened) =>
      var scored := ClusteringModel.Score(artifact, withOrtho, OrthoOverride(form));
      Success(Normalize(Merge(screened, scored)))
  }

  /** The answers endpoint: sanitise, normalise, apply the survey, normalise again. */
  function SubmitAnswers(s: Screening, submitted: seq<(string, string)>): (r: (Screening, SurveyAssessment))
    ensures r.0.surveyAssessment == Some(r.1)
    ensures r.0.status == Normal ==> r.0.hint == NormalHint && r.0.confidence == High
    ensures r.0.status == NeedsFollowup ==> r.0.hint !in {NoHint, NormalHint}
    ensures s.status == r.0.status || (s.status == NeedsFollowup && r.0.status == Normal)
  {
    var answers := Sanitize(s.questionnaire, submitted);
    var applied := SurveyLabeling.Apply(Normalize(s), answers);
    (Normalize(applied.0), applied.1)
  }

  /** A survey that reverts a follow-up to normal sets medium confidence, but the normalisation
      that follows raises it to high: the stored profile ends as a confident normal. */
  lemma RevertEndsHigh(s: Screening, submitted: seq<(string, string)>)
    requires s.status == NeedsFollowup
    requires SurveyLabeling.Apply(Normalize(s), Sanitize(s.questionnaire, submitted)).0.status == Normal
    ensures SurveyLabeling.Apply(Normalize(s), Sanitize(s.questionnaire, submitted)).0.confidence == Medium
    ensures SubmitAnswers(s, submitted).0.status == Normal
    ensures SubmitAnswers(s, submitted).0.confidence == High
  {
  }
}
