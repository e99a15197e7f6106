/** The cluster scorer (lib/screening/clustering_model.rb): the imported window and the
    orthostatic quick-check become a vector of raw features, standardised with the training
    artifact's medians, means and deviations; the nearest centroid's maps give status and hint,
    and the cluster purity with the feature coverage gives the confidence. */
module ClusteringModel {
  import opened Wrappers
  import opened Domain
  import Numbers
  import Text
  import Baseline

  /** A hash key: Ruby hashes in the source are probed with both string and symbol keys. */
  datatype Key = Str(name: string) | Sym(name: string)

  /** A raw JSON-ish value as it arrives from a form or a stored import. */
  datatype Raw = Nil | Num(v: real) | Txt(text: string)

  /** The orthostatic quick-check input: a hash, or some other value that is not one. */
  datatype Ortho = NotAHash | Hash(entries: seq<(Key, Raw)>)

  /** The part of an import the scorer reads. */
  datatype Imported = Imported(daily: Option<seq<Baseline.DailyMetric>>, age: Raw, orthostaticInput: Option<Ortho>)

  datatype FeatureSpace = FeatureSpace(continuous: seq<string>, indicators: seq<string>, allFeatures: seq<string>)

  datatype Preprocess = Preprocess(medians: Option<seq<(string, real)>>, means: Option<seq<real>>, stds: Option<seq<real>>)

  /** The model artifact on disk: absent, not parseable as JSON, or parsed; a parsed artifact
      may lack `feature_space` or `preprocess`, and missing per-cluster map entries read as
      nil. */
  datatype ArtifactFile =
    | NoFile
    | Unparsable(message: string)
    | Artifact(featureSpace: Option<FeatureSpace>, preprocess: Option<Preprocess>,
               centroids: seq<seq<real>>, hintMap: map<nat, Hint>, statusMap: map<nat, Status>,
               purityMap: map<nat, real>, followupRateMap: map<nat, real>)

  function KeyNotFound(key: string): string {
    "key not found: \"" + key + "\""
  }

  /** Index of the first entry stored under `k`, if any. */
  function FindKey(entries: seq<(Key, Raw)>, k: Key): (r: Option<nat>)
    ensures r.Some? ==> r.value < |entries| && entries[r.value].0 == k
    ensures r.Some? ==> forall j :: 0 <= j < r.value ==> entries[j].0 != k
    ensures r.None? ==> forall j :: 0 <= j < |entries| ==> entries[j].0 != k
  {
    if |entries| == 0 then None
    else if entries[0].0 == k then Some(0)
    else
      match FindKey(entries[1..], k)
      case None => None
      case Some(i) => Some(i + 1)
  }

  /** `ortho_value`: the value stored under the first of `keys` that the hash holds, even when
      that value is nil; nil when the input is not a hash or holds none of the keys. */
  function OrthoValue(ortho: Ortho, keys: seq<Key>): (r: Raw)
    ensures ortho.NotAHash? ==> r == Nil
    ensures ortho.Hash? && |keys| > 0 && FindKey(ortho.entries, keys[0]).Some? ==>
      r == ortho.entries[FindKey(ortho.entries, keys[0]).value].1
    ensures ortho.Hash? && (forall j :: 0 <= j < |keys| ==> FindKey(ortho.entries, keys[j]).None?) ==> r == Nil
    ensures r != Nil ==> ortho.Hash? && exists j :: 0 <= j < |keys| && FindKey(ortho.entries, keys[j]).Some?
  {
    if ortho.NotAHash? || |keys| == 0 then Nil
    else
      match FindKey(ortho.entries, keys[0])
      case Some(i) => ortho.entries[i].1
      case None =>
        var r := OrthoValue(ortho, keys[1..]);
        assert forall j :: 0 <= j < |keys| - 1 ==> keys[1..][j] == keys[j + 1];
        r
  }

  /** `numeric`: nil stays nil, a number is itself, text is stripped and parsed strictly, with
      blank or unparseable text giving nil. */
  function Numeric(value: Raw): (r: Option<real>)
    ensures value.Nil? ==> r.None?
    ensures value.Num? ==> r == Some(value.v)
    ensures value.Txt? ==> r == Numbers.ParseOptionalFloat(value.text)
  {
    match value
    case Nil => None
    case Num(v) => Some(v)
    case Txt(t) => Numbers.ParseOptionalFloat(t)
  }

  /** The keys under which each orthostatic feature may be supplied, in lookup order; the
      sitting values also accept the older `rest_*` names. */
  function OrthoKeys(feature: string): seq<Key> {
    if feature == "sit_hr_mean" then [Str(feature), Sym(feature), Str("rest_hr"), Sym("rest_hr")]
    else if feature == "sit_sbp_mean" then [Str(feature), Sym(feature), Str("rest_sbp"), Sym("rest_sbp")]
    else [Str(feature), Sym(feature)]
  }

  function OrthoFeature(ortho: Ortho, feature: string): Option<real> {
    Numeric(OrthoValue(ortho, OrthoKeys(feature)))
  }

  /** The value a continuous feature has already been given, if the artifact lists it. */
  function Listed(continuous: seq<string>, ortho: Ortho, feature: string): Option<real> {
    if feature in continuous then OrthoFeature(ortho, feature) else None
  }

  /** A stand-minus-sit delta: the supplied value, or, when none was supplied, the difference
      of the standing and sitting values when both are known. */
  function Delta(given: Option<real>, sit: Option<real>, stand: Option<real>): (r: Option<real>)
    ensures given.Some? ==> r == given
    ensures given.None? && sit.Some? && stand.Some? ==> r == Some(stand.value - sit.value)
    ensures r.None? <==> given.None? && (sit.None? || stand.None?)
  {
    if given.None? && sit.Some? && stand.Some? then Some(stand.value - sit.value) else given
  }

  /** The quick-check input in force: the override, else the import's own, else an empty hash. */
  function OrthoInForce(imported: Imported, override: Option<Ortho>): Ortho {
    if override.Some? then override.value
    else if imported.orthostaticInput.Some? then imported.orthostaticInput.value
    else Hash([])
  }

  /** The raw value of one continuous feature; names the scorer does not know stay nil. */
  function FeatureValue(feature: string, continuous: seq<string>, imported: Imported, ortho: Ortho): Option<real> {
    var daily := if imported.daily.Some? then imported.daily.value else [];
    if feature == "resting_hr_mean" then Numbers.Mean(Baseline.SeriesFor(daily, Baseline.RestingHrMean))
    else if feature == "hrv_sdnn_mean" then Numbers.Mean(Baseline.SeriesFor(daily, Baseline.HrvSdnnMean))
    else if feature == "age" then Numeric(imported.age)
    else if feature in {"sit_hr_mean", "stand_hr_mean", "sit_sbp_mean", "stand_sbp_mean"} then OrthoFeature(ortho, feature)
    else if feature == "delta_hr_stand_minus_sit" then
      Delta(OrthoFeature(ortho, feature), Listed(continuous, ortho, "sit_hr_mean"), Listed(continuous, ortho, "stand_hr_mean"))
    else if feature == "delta_sbp_stand_minus_sit" then
      Delta(OrthoFeature(ortho, feature), Listed(continuous, ortho, "sit_sbp_mean"), Listed(continuous, ortho, "stand_sbp_mean"))
    else None
  }

  /** `build_feature_values`: one entry per distinct continuous feature, in the artifact's
      order, holding that feature's raw value or nil. */
  function BuildFeatureValues(imported: Imported, continuous: seq<string>, override: Option<Ortho>): (r: FeatureValues)
    ensures |r| == |Text.Dedup(continuous)|
    ensures forall i :: 0 <= i < |r| ==> r[i].0 == Text.Dedup(continuous)[i]
    ensures forall i :: 0 <= i < |r| ==> r[i].1 == FeatureValue(r[i].0, continuous, imported, OrthoInForce(imported, override))
  {
    var names := Text.Dedup(continuous);
    var ortho := OrthoInForce(imported, override);
    seq(|names|, i requires 0 <= i < |names| => (names[i], FeatureValue(names[i], continuous, imported, ortho)))
  }

  /** `raw_values[feature]`: the value stored under the first entry for a feature name (the
      only one, since the names are distinct), nil when the name is absent. */
  function Get(values: FeatureValues, feature: string): (r: Option<real>)
    ensures r.Some? ==> exists i :: 0 <= i < |values| && values[i].0 == feature && values[i].1 == r
    ensures (forall i :: 0 <= i < |values| ==> values[i].0 != feature) ==> r.None?
    ensures forall i :: 0 <= i < |values| && values[i].0 == feature && (forall j :: 0 <= j < i ==> values[j].0 != feature)
                        ==> r == values[i].1
  {
    if |values| == 0 then None
    else if values[0].0 == feature then values[0].1
    else
      var r := Get(values[1..], feature);
      assert forall i :: 0 <= i < |values| - 1 ==> values[1..][i] == values[i + 1];
      r
  }

  /** Number of features whose value is known. */
  function Present(values: FeatureValues): (n: nat)
    ensures n <= |values|
    ensures n == |values| <==> forall i :: 0 <= i < |values| ==> values[i].1.Some?
    ensures n == 0 <==> forall i :: 0 <= i < |values| ==> values[i].1.None?
  {
    if |values| == 0 then 0
    else
      var n := Present(values[..|values| - 1]);
      assert forall i :: 0 <= i < |values| - 1 ==> values[..|values| - 1][i] == values[i];
      n + if values[|values| - 1].1.Some? then 1 else 0
  }

  /** `feature_coverage`: the share of features with a known value, 0 when there are none; it
      is 1 exactly when every feature is known and 0 exactly when none is. */
  function Coverage(values: FeatureValues): (r: real)
    ensures 0.0 <= r <= 1.0
    ensures r == 1.0 <==> |values| > 0 && forall i :: 0 <= i < |values| ==> values[i].1.Some?
    ensures r == 0.0 <==> forall i :: 0 <= i < |values| ==> values[i].1.None?
  {
    if |values| == 0 then 0.0
    else
      var n := Present(values);
      assert n as real / |values| as real <= 1.0 by {
        Numbers.DivideBounds(n as real, |values| as real, 0.0, 1.0);
      }
      RatioIsOne(n as real, |values| as real);
      n as real / |values| as real
  }

  /** A quotient of a positive divisor is 1 exactly when both sides are equal. */
  lemma RatioIsOne(a: real, b: real)
    requires b > 0.0
    ensures a / b == 1.0 <==> a == b
  {
    if a / b == 1.0 {
      assert a == a / b * b;
    }
  }

  const MissingSuffix: string := "_missing"

  /** `sub(/_missing\z/, "")`: the name without a trailing `_missing`. */
  function BaseName(feature: string): (r: string)
    ensures r + MissingSuffix == feature || r == feature
    ensures |feature| >= |MissingSuffix| && feature[|feature| - |MissingSuffix|..] == MissingSuffix ==>
      r + MissingSuffix == feature
  {
    if |feature| >= |MissingSuffix| && feature[|feature| - |MissingSuffix|..] == MissingSuffix then
      assert feature == feature[..|feature| - |MissingSuffix|] + MissingSuffix;
      feature[..|feature| - |MissingSuffix|]
    else feature
  }

  /** `medians.fetch(feature, 0.0)`. */
  function MedianOf(medians: seq<(string, real)>, feature: string): real {
    if |medians| == 0 then 0.0
    else if medians[0].0 == feature then medians[0].1
    else MedianOf(medians[1..], feature)
  }

  /** The value of a feature before standardisation: an indicator is 1 when its base feature is
      missing and 0 otherwise (indicators are written last, so they win over a continuous
      feature of the same name); a continuous feature is its raw value or, when missing, the
      training median; anything else is 0. */
  function Unscaled(feature: string, raw: FeatureValues, continuous: seq<string>, indicators: seq<string>,
                    medians: seq<(string, real)>): (r: real)
    ensures feature in indicators ==> (r == 1.0 <==> Get(raw, BaseName(feature)).None?) && (r == 0.0 || r == 1.0)
    ensures feature !in indicators && feature in continuous && Get(raw, feature).Some? ==> r == Get(raw, feature).value
    ensures feature !in indicators && feature in continuous && Get(raw, feature).None? ==> r == MedianOf(medians, feature)
    ensures feature !in indicators && feature !in continuous ==> r == 0.0
  {
    if feature in indicators then (if Get(raw, BaseName(feature)).None? then 1.0 else 0.0)
    else if feature in continuous then
      match Get(raw, feature)
      case Some(v) => v
      case None => MedianOf(medians, feature)
    else 0.0
  }

  /** The deviation used for position `i`: a missing or zero deviation is replaced by 1. */
  function StdAt(stds: seq<real>, i: nat): (s: real)
    ensures s != 0.0
    ensures Numbers.At(stds, i) != 0.0 ==> s == Numbers.At(stds, i)
  {
    if Numbers.At(stds, i) == 0.0 then 1.0 else Numbers.At(stds, i)
  }

  /** `build_vector`: one standardised coordinate per feature of `all_features`; undoing the
      standardisation gives back every unscaled value. */
  function BuildVector(raw: FeatureValues, continuous: seq<string>, indicators: seq<string>, allFeatures: seq<string>,
                       medians: seq<(string, real)>, means: seq<real>, stds: seq<real>): (v: seq<real>)
    ensures |v| == |allFeatures|
    ensures forall i :: 0 <= i < |v| ==>
      v[i] * StdAt(stds, i) + Numbers.At(means, i) == Unscaled(allFeatures[i], raw, continuous, indicators, medians)
  {
    seq(|allFeatures|, i requires 0 <= i < |allFeatures| =>
      Standardize(Unscaled(allFeatures[i], raw, continuous, indicators, medians), Numbers.At(means, i), StdAt(stds, i)))
  }

  /** `(value - mean) / std`, which a multiplication by `std` and an addition of `mean` undo. */
  function Standardize(value: real, mean: real, std: real): (z: real)
    requires std != 0.0
    ensures z * std + mean == value
  {
    (value - mean) / std
  }

  /** `sq_dist`: the squared Euclidean distance over the coordinates of `a`, reading a missing
      coordinate of `b` as 0. */
  function SqDist(a: seq<real>, b: seq<real>): (d: real)
    ensures d >= 0.0
  {
    if |a| == 0 then 0.0
    else
      var k := |a| - 1;
      var diff := a[k] - Numbers.At(b, k);
      SqDist(a[..k], b) + diff * diff
  }

  /** A point is at distance zero from itself. */
  lemma {:induction false} SqDistSelf(a: seq<real>)
    ensures SqDist(a, a) == 0.0
  {
    if |a| > 0 {
      var k := |a| - 1;
      SqDistPrefix(a[..k], a);
      SqDistSelf(a[..k]);
    }
  }

  /** Only the first |a| coordinates of `b` matter, so `b` may be cut to any longer prefix. */
  lemma {:induction false} SqDistPrefix(a: seq<real>, b: seq<real>)
    requires |a| <= |b|
    ensures SqDist(a, b) == SqDist(a, b[..|a|])
  {
    if |a| > 0 {
      var k := |a| - 1;
      SqDistPrefix(a[..k], b);
      SqDistPrefix(a[..k], b[..|a|]);
      assert b[..|a|][..k] == b[..k];
    }
  }

  /** `nearest_centroid`: the index of the first centroid at the least squared distance, with
      its distance; with no centroids, index 0 and an infinite distance (None). */
  function NearestCentroid(vector: seq<real>, centroids: seq<seq<real>>): (r: (nat, Option<real>))
    ensures r.1.None? <==> |centroids| == 0
    ensures |centroids| == 0 ==> r.0 == 0
    ensures |centroids| > 0 ==> r.0 < |centroids| && r.1 == Some(SqDist(vector, centroids[r.0]))
    ensures r.1.Some? ==> forall j :: 0 <= j < |centroids| ==> r.1.value <= SqDist(vector, centroids[j])
    ensures r.1.Some? ==> forall j :: 0 <= j < r.0 ==> r.1.value < SqDist(vector, centroids[j])
  {
    if |centroids| == 0 then (0, None)
    else
      var k := |centroids| - 1;
      var prev := NearestCentroid(vector, centroids[..k]);
      assert forall j :: 0 <= j < k ==> centroids[..k][j] == centroids[j];
      var d := SqDist(vector, centroids[k]);
      if prev.1.None? || d < prev.1.value then (k, Some(d)) else prev
  }

  const HighPurity: real := 0.75
  const MediumPurity: real := 0.55
  const LowCoverage: real := 0.35

  function PurityConfidence(purity: real): Confidence {
    if purity >= HighPurity then High else if purity >= MediumPurity then Medium else Low
  }

  /** `confidence_for`: the purity grade (high from 0.75, medium from 0.55, else low), capped
      when fewer than 35% of the features were observed: a follow-up verdict drops to low and
      any other verdict is at most medium. */
  function ConfidenceFor(status: Status, purity: real, coverage: real): (c: Confidence)
    ensures c != NoConfidence
    ensures ConfidenceRank(c) <= ConfidenceRank(PurityConfidence(purity))
    ensures coverage >= LowCoverage ==> c == PurityConfidence(purity)
    ensures coverage < LowCoverage && status == NeedsFollowup ==> c == Low
    ensures coverage < LowCoverage && status != NeedsFollowup ==> c != High && (PurityConfidence(purity) != High ==> c == PurityConfidence(purity))
  {
    var base := PurityConfidence(purity);
    if coverage < LowCoverage then
      if status == NeedsFollowup then Low
      else if base == High then Medium else base
    else base
  }

  /** A purer cluster never lowers the confidence. */
  lemma ConfidenceMonotoneInPurity(status: Status, p: real, p': real, coverage: real)
    requires p <= p'
    ensures ConfidenceRank(ConfidenceFor(status, p, coverage)) <= ConfidenceRank(ConfidenceFor(status, p', coverage))
  {
  }

  /** Observing more features never lowers the confidence. */
  lemma ConfidenceMonotoneInCoverage(status: Status, purity: real, c: real, c': real)
    requires c <= c'
    ensures ConfidenceRank(ConfidenceFor(status, purity, c)) <= ConfidenceRank(ConfidenceFor(status, purity, c'))
  {
  }

  /** The scored cluster and distance are those of the centroid nearest to the standardised
      feature vector built from the imported data, and the features used are that data's raw
      values. */
  predicate ScoredAsNearest(file: ArtifactFile, imported: Imported, override: Option<Ortho>, m: ModelResult)
    requires m.Scored?
  {
    && file.Artifact? && file.featureSpace.Some? && file.preprocess.Some?
    && file.preprocess.value.medians.Some? && file.preprocess.value.means.Some? && file.preprocess.value.stds.Some?
    && var space := file.featureSpace.value;
       var pre := file.preprocess.value;
       var raw := BuildFeatureValues(imported, space.continuous, override);
       && m.featuresUsed == raw
       && (m.clusterId, m.distance)
          == NearestCentroid(BuildVector(raw, space.continuous, space.indicators, space.allFeatures,
                                         pre.medians.value, pre.means.value, pre.stds.value), file.centroids)
  }

  /** `score`: nothing without an artifact file; an error result when the file does not parse
      or a required section is missing; otherwise the nearest cluster's verdict, with a
      missing hint read as normal and a missing status derived from the hint. */
  function Score(file: ArtifactFile, imported: Imported, override: Option<Ortho>): (r: Option<ModelResult>)
    ensures r.None? <==> file.NoFile?
    ensures file.Unparsable? ==> r == Some(ModelError(file.message))
    ensures file.Artifact? && file.featureSpace.None? ==> r == Some(ModelError(KeyNotFound("feature_space")))
    ensures file.Artifact? && file.featureSpace.Some? && file.preprocess.None? ==> r == Some(ModelError(KeyNotFound("preprocess")))
    ensures r.Some? && r.value.ModelError? ==> r.value.message != "" || file == Unparsable("")
    ensures r.Some? && r.value.Scored? ==> var m := r.value;
      && file.Artifact? && file.featureSpace.Some?
      && m.hint != NoHint
      && (m.clusterId !in file.statusMap ==> (m.status == Normal <==> m.hint == NormalHint))
      && m.confidence == ConfidenceFor(m.status, m.purity, m.coverage)
      && 0.0 <= m.coverage <= 1.0
      && (m.distance.None? <==> |file.centroids| == 0)
      && (|file.centroids| > 0 ==> m.clusterId < |file.centroids|)
      && ScoredAsNearest(file, imported, override, m)
      && m.hint == (if m.clusterId in file.hintMap && file.hintMap[m.clusterId] != NoHint then file.hintMap[m.clusterId] else NormalHint)
      && (m.clusterId in file.statusMap ==> m.status == file.statusMap[m.clusterId])
      && m.purity == (if m.clusterId in file.purityMap then file.purityMap[m.clusterId] else 0.0)
      && m.coverage == Coverage(m.featuresUsed)
      && |m.featuresUsed| == |Text.Dedup(file.featureSpace.value.continuous)|
      && (forall i :: 0 <= i < |m.featuresUsed| ==> m.featuresUsed[i].0 == Text.Dedup(file.featureSpace.value.continuous)[i])
  {
    match file
    case NoFile => None
    case Unparsable(message) => Some(ModelError(message))
    case Artifact(fs, pre, centroids, hintMap, statusMap, purityMap, rateMap) =>
      if fs.None? then Some(ModelError(KeyNotFound("feature_space")))
      else if pre.None? then Some(ModelError(KeyNotFound("preprocess")))
      else if pre.value.medians.None? then Some(ModelError(KeyNotFound("medians")))
      else if pre.value.means.None? then Some(ModelError(KeyNotFound("means")))
      else if pre.value.stds.None? then Some(ModelError(KeyNotFound("stds")))
      else
        var space := fs.value;
        var raw := BuildFeatureValues(imported, space.continuous, override);
        var vector := BuildVector(raw, space.continuous, space.indicators, space.allFeatures,
                                  pre.value.medians.value, pre.value.means.value, pre.value.stds.value);
        var (idx, dist) := NearestCentroid(vector, centroids);
        var mappedHint := if idx in hintMap then hintMap[idx] else NoHint;
        var hint := if mappedHint == NoHint then NormalHint else mappedHint;
        var status := if idx in statusMap then statusMap[idx] else if hint == NormalHint then Normal else NeedsFollowup;
        var purity := if idx in purityMap then purityMap[idx] else 0.0;
        var rate := if idx in rateMap then rateMap[idx] else 0.0;
        var coverage := Coverage(raw);
        var confidence := ConfidenceFor(status, purity, coverage);
        Some(Scored(status, hint, confidence, ClusterPattern(status, hint, confidence, purity, rate, coverage),
                    idx, dist, purity, rate, coverage, raw))
  }
}
