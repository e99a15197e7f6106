/** The offline trainer of scripts/train_clustering_baseline.rb apart from the k-means loop:
    the training table's rows, the imputation and standardisation of the feature vectors, the
    mapping of clusters to phenotype labels, the predictions and the evaluation metrics. */
module Training {
  import opened Wrappers
  import Numbers
  import Text
  import RobustStats
  import ClusteringModel
  import KMeans
  import Domain

  // ---------------------------------------------------------------- rows

  /** The continuous features, in vector order. */
  const ContinuousFeatures: seq<string> := ["age", "resting_hr_mean", "hrv_sdnn_mean", "sit_hr_mean", "stand_hr_mean",
    "delta_hr_stand_minus_sit", "sit_sbp_mean", "stand_sbp_mean", "delta_sbp_stand_minus_sit"]

  /** The missingness indicators: one per continuous feature except age. */
  const IndicatorCount: nat := 8

  /** The width of a feature vector: the continuous values, then the indicators. */
  const Width: nat := 17

  const NormalLabel: string := "normal"
  const FollowupLabel: string := "needs_followup"
  const UnspecifiedLabel: string := "unspecified_autonomic"

  /** One row of a split CSV: the cells present, and the two targets (nil when absent). */
  datatype Row = Row(cells: map<string, string>, statusTarget: Option<string>, hintTarget: Option<string>)

  /** `parse_float(row[feature])`: a missing cell, a blank one or unparseable text is nil. */
  function CellValue(row: Row, feature: string): Option<real> {
    if feature in row.cells then Numbers.ParseOptionalFloat(row.cells[feature]) else None
  }

  /** Ruby's `to_s` on a possibly nil string. */
  function ToS(s: Option<string>): string {
    if s.Some? then s.value else ""
  }

  // ---------------------------------------------------------------- statistics

  /** `values.compact`: the non-nil values, in order. */
  function Compact(values: seq<Option<real>>): (r: seq<real>)
    ensures |r| <= |values|
    ensures (forall i :: 0 <= i < |values| ==> values[i].None?) <==> |r| == 0
    ensures |values| == 1 ==> r == if values[0].Some? then [values[0].value] else []
  {
    if |values| == 0 then []
    else
      var n := |values| - 1;
      var init := Compact(values[..n]);
      assert forall i :: 0 <= i < n ==> values[..n][i] == values[i];
      if values[n].Some? then init + [values[n].value] else init
  }

  /** `compact` works piecewise: with the singleton case of `Compact`, this says it keeps every
      present value, in order and with its multiplicity, and nothing else. */
  lemma {:induction false} CompactAppend(a: seq<Option<real>>, b: seq<Option<real>>)
    ensures Compact(a + b) == Compact(a) + Compact(b)
  {
    if |b| > 0 {
      var b' := b[..|b| - 1];
      CompactAppend(a, b');
      assert (a + b)[..|a + b| - 1] == a + b';
      assert (a + b)[|a + b| - 1] == b[|b| - 1];
      assert b == b' + [b[|b| - 1]];
      assert Compact(b) == Compact(b') + Compact([b[|b| - 1]]) by {
        assert [b[|b| - 1]][..0] == [];
      }
    } else {
      assert a + b == a;
    }
  }

  /** The middle of a sorted, non-empty list: the middle element for an odd count, the mean of
      the two middle ones for an even count. */
  function Middle(vals: seq<real>): (r: real)
    requires RobustStats.Sorted(vals) && |vals| > 0
    ensures vals[0] <= r <= vals[|vals| - 1]
  {
    var mid := |vals| / 2;
    if |vals| % 2 == 0 then
      assert vals[0] <= vals[mid - 1] <= vals[mid] <= vals[|vals| - 1];
      (vals[mid - 1] + vals[mid]) / 2.0
    else
      vals[mid]
  }

  /** `median`: nil without values; otherwise the middle of the sorted values, always within
      the range of the values. */
  function Median(values: seq<Option<real>>): (r: Option<real>)
    ensures r.None? <==> |Compact(values)| == 0
    ensures r.Some? ==> Numbers.Min(Compact(values)) <= r.value <= Numbers.Max(Compact(values))
  {
    var vals := RobustStats.Sort(Compact(values));
    if |vals| == 0 then None
    else
      RobustStats.SortedEnds(Compact(values), vals);
      Some(Middle(vals))
  }

  /** The middle of a sorted list is its 50th percentile as the screener interpolates it. */
  lemma MiddleIsPercentile50(s: seq<real>)
    requires RobustStats.Sorted(s) && |s| > 0
    ensures RobustStats.Percentile(s, 50.0) == Some(Middle(s))
  {
    var n := |s|;
    var mid := n / 2;
    var rank := RobustStats.Rank(n, 50.0);
    assert rank == (n - 1) as real / 2.0;
    var v := RobustStats.Percentile(s, 50.0).value;
    assert RobustStats.AtRank(s, rank, v);
    if n % 2 == 0 {
      assert n == 2 * mid;
      assert rank == (mid - 1) as real + 0.5;
      assert rank.Floor == mid - 1;
      assert rank != rank.Floor as real;
      assert rank - (mid - 1) as real == 0.5;
      assert v == s[mid - 1] * (1.0 - 0.5) + s[mid] * 0.5;
      assert v == (s[mid - 1] + s[mid]) / 2.0;
    } else {
      assert rank == mid as real;
      assert rank.Floor == mid;
      assert v == s[mid];
    }
  }

  /** The trainer's median is the screener's 50th percentile of the same values. */
  lemma MedianIsPercentile50(values: seq<Option<real>>)
    requires |Compact(values)| > 0
    ensures Median(values) == RobustStats.Percentile(RobustStats.Sort(Compact(values)), 50.0)
  {
    MiddleIsPercentile50(RobustStats.Sort(Compact(values)));
  }

  /** `mean`: 0.0 for no values, otherwise the average. */
  function MeanOrZero(values: seq<real>): (r: real)
    ensures |values| == 0 ==> r == 0.0
    ensures |values| > 0 ==> Numbers.Min(values) <= r <= Numbers.Max(values)
  {
    if |values| == 0 then 0.0 else Numbers.Mean(values).value
  }

  function SquaredDeviations(values: seq<real>, avg: real): (r: real)
    ensures r >= 0.0
  {
    if |values| == 0 then 0.0
    else
      var d := values[|values| - 1] - avg;
      SquaredDeviations(values[..|values| - 1], avg) + d * d
  }

  /** `stddev`: 1.0 without values or when the root of the variance is at most EPS, and that
      root otherwise; so every stored spread is positive. The square root is a parameter. */
  function Stddev(values: seq<real>, avg: real, sqrt: real -> real): (sd: real)
    ensures sd > 0.0
    ensures |values| == 0 ==> sd == 1.0
    ensures sd != 1.0 ==> sd > KMeans.Eps && sd == sqrt(SquaredDeviations(values, avg) / |values| as real)
  {
    if |values| == 0 then 1.0
    else
      var root := sqrt(SquaredDeviations(values, avg) / |values| as real);
      if root > KMeans.Eps then root else 1.0
  }

  /** `safe_div`: nil for a zero denominator. */
  function SafeDiv(num: nat, den: nat): (r: Option<real>)
    ensures r.None? <==> den == 0
    ensures r.Some? && num <= den ==> 0.0 <= r.value <= 1.0
  {
    if den == 0 then None
    else
      assert num <= den ==> 0.0 <= num as real / den as real <= 1.0 by {
        if num <= den { Numbers.DivideBounds(num as real, den as real, 0.0, 1.0); }
      }
      Some(num as real / den as real)
  }

  // ---------------------------------------------------------------- metrics

  /** The prediction at `i`, nil past the end. */
  function PredAt(preds: seq<string>, i: nat): Option<string> {
    if i < |preds| then Some(preds[i]) else None
  }

  predicate ActualPositive(row: Row) {
    row.statusTarget == Some(FollowupLabel)
  }

  predicate PredictedPositive(preds: seq<string>, i: nat) {
    PredAt(preds, i) == Some(FollowupLabel)
  }

  datatype Confusion = Confusion(tp: nat, fp: nat, tn: nat, fn: nat)

  function CountActual(rows: seq<Row>): nat {
    if |rows| == 0 then 0
    else CountActual(rows[..|rows| - 1]) + (if ActualPositive(rows[|rows| - 1]) then 1 else 0)
  }

  function CountPredicted(n: nat, preds: seq<string>): nat {
    if n == 0 then 0 else CountPredicted(n - 1, preds) + (if PredictedPositive(preds, n - 1) then 1 else 0)
  }

  /** The confusion counts over the rows: every row in exactly one cell, the true positives
      and false negatives making up the actual follow-ups, the true and false positives the
      predicted ones. */
  function Tally(rows: seq<Row>, preds: seq<string>): (c: Confusion)
    ensures c.tp + c.fp + c.tn + c.fn == |rows|
    ensures c.tp + c.fn == CountActual(rows)
    ensures c.tp + c.fp == CountPredicted(|rows|, preds)
  {
    if |rows| == 0 then Confusion(0, 0, 0, 0)
    else
      var n := |rows| - 1;
      var c := Tally(rows[..n], preds);
      var actual := ActualPositive(rows[n]);
      var predicted := PredictedPositive(preds, n);
      if predicted && actual then c.(tp := c.tp + 1)
      else if predicted then c.(fp := c.fp + 1)
      else if !actual then c.(tn := c.tn + 1)
      else c.(fn := c.fn + 1)
  }

  /** The confusion cell of one row. */
  datatype Cell = TruePositive | FalsePositive | TrueNegative | FalseNegative

  function CellOf(actual: bool, predicted: bool): Cell {
    match (actual, predicted)
    case (true, true) => TruePositive
    case (false, true) => FalsePositive
    case (false, false) => TrueNegative
    case (true, false) => FalseNegative
  }

  /** Each row's confusion cell, in order. */
  function Cells(rows: seq<Row>, preds: seq<string>): (c: seq<Cell>)
    ensures |c| == |rows|
    ensures forall i :: 0 <= i < |rows| ==> c[i] == CellOf(ActualPositive(rows[i]), PredictedPositive(preds, i))
  {
    if |rows| == 0 then []
    else
      var k := |rows| - 1;
      Cells(rows[..k], preds) + [CellOf(ActualPositive(rows[k]), PredictedPositive(preds, k))]
  }

  /** The count of `cell` in `c`. */
  function CountOf(c: Confusion, cell: Cell): nat {
    match cell
    case TruePositive => c.tp
    case FalsePositive => c.fp
    case TrueNegative => c.tn
    case FalseNegative => c.fn
  }

  lemma TallySnoc(rows: seq<Row>, preds: seq<string>, cell: Cell)
    requires |rows| > 0
    ensures var k := |rows| - 1;
      CountOf(Tally(rows, preds), cell) == CountOf(Tally(rows[..k], preds), cell)
        + (if CellOf(ActualPositive(rows[k]), PredictedPositive(preds, k)) == cell then 1 else 0)
  {
  }

  lemma CellsSnoc(rows: seq<Row>, preds: seq<string>)
    requires |rows| > 0
    ensures var k := |rows| - 1;
      Cells(rows, preds) == Cells(rows[..k], preds) + [CellOf(ActualPositive(rows[k]), PredictedPositive(preds, k))]
  {
  }

  /** The count of one cell is the number of rows in it. */
  lemma {:induction false} TallyCountsCell(rows: seq<Row>, preds: seq<string>, cell: Cell)
    ensures CountOf(Tally(rows, preds), cell) == multiset(Cells(rows, preds))[cell]
  {
    if |rows| == 0 {
      assert Cells(rows, preds) == [];
    } else {
      var k := |rows| - 1;
      TallyCountsCell(rows[..k], preds, cell);
      var init, last := Cells(rows[..k], preds), CellOf(ActualPositive(rows[k]), PredictedPositive(preds, k));
      CellsSnoc(rows, preds);
      TallySnoc(rows, preds, cell);
      MultiplicitySnoc(init, last, cell);
    }
  }

  /** Each confusion count is the number of rows in its cell: tp the rows both actually and
      predicted follow-up, fp those only predicted, fn those only actual, tn the rest. */
  lemma TallyCountsCells(rows: seq<Row>, preds: seq<string>)
    ensures var c := Tally(rows, preds);
      var cells := multiset(Cells(rows, preds));
      c.tp == cells[TruePositive] && c.fp == cells[FalsePositive]
      && c.tn == cells[TrueNegative] && c.fn == cells[FalseNegative]
  {
    TallyCountsCell(rows, preds, TruePositive);
    TallyCountsCell(rows, preds, FalsePositive);
    TallyCountsCell(rows, preds, TrueNegative);
    TallyCountsCell(rows, preds, FalseNegative);
  }

  datatype BinaryMetrics = BinaryMetrics(
    confusion: Confusion, precision: Option<real>, recall: Option<real>, f1: Option<real>, accuracy: Option<real>)

  /** The harmonic mean of two rates lies between them. */
  lemma HarmonicMeanBetween(p: real, r: real)
    requires 0.0 <= p <= r && p + r > 0.0
    ensures p <= 2.0 * p * r / (p + r) <= r
  {
    var h := 2.0 * p * r / (p + r);
    assert h * (p + r) == 2.0 * p * r;
    assert p * (p + r) <= 2.0 * p * r by { RobustStats.MulNonNegative(p, r - p); }
    assert 2.0 * p * r <= r * (p + r) by { RobustStats.MulNonNegative(r, r - p); }
    assert p * (p + r) <= h * (p + r);
    assert h * (p + r) <= r * (p + r);
  }

  /** `x` lies between `a` and `b`, whichever is larger. */
  predicate Between(x: real, a: real, b: real) {
    (a <= x <= b) || (b <= x <= a)
  }

  /** `f1`: nil when either rate is nil or both are zero, else their harmonic mean, which lies
      between the two rates. */
  function F1(precision: Option<real>, recall: Option<real>): (f: Option<real>)
    ensures f.None? <==> precision.None? || recall.None? || precision.value + recall.value == 0.0
    ensures f.Some? && 0.0 <= precision.value && 0.0 <= recall.value ==>
      Between(f.value, precision.value, recall.value)
  {
    if precision.None? || recall.None? || precision.value + recall.value == 0.0 then None
    else
      var p, r := precision.value, recall.value;
      var h := 2.0 * p * r / (p + r);
      assert 0.0 <= p && 0.0 <= r ==> Between(h, p, r) by {
        if 0.0 <= p <= r {
          HarmonicMeanBetween(p, r);
        } else if 0.0 <= r < p {
          HarmonicMeanBetween(r, p);
          assert 2.0 * r * p == 2.0 * p * r;
        }
      }
      Some(h)
  }

  /** `binary_metrics`: the confusion counts, precision and recall of the follow-up class,
      their F1 and the accuracy, each nil exactly when its denominator is zero and otherwise a
      rate in [0, 1]. */
  function Binary(rows: seq<Row>, preds: seq<string>): (m: BinaryMetrics)
    ensures m.confusion.tp + m.confusion.fp + m.confusion.tn + m.confusion.fn == |rows|
    ensures m.precision.None? <==> CountPredicted(|rows|, preds) == 0
    ensures m.recall.None? <==> CountActual(rows) == 0
    ensures m.accuracy.None? <==> |rows| == 0
    ensures m.precision.Some? ==> 0.0 <= m.precision.value <= 1.0
    ensures m.recall.Some? ==> 0.0 <= m.recall.value <= 1.0
    ensures m.accuracy.Some? ==> 0.0 <= m.accuracy.value <= 1.0
    ensures m.f1.None? <==> m.precision.None? || m.recall.None? || m.precision.value + m.recall.value == 0.0
    ensures m.f1.Some? ==> 0.0 <= m.f1.value <= 1.0
    ensures m.confusion == Tally(rows, preds)
    ensures m.precision == SafeDiv(m.confusion.tp, m.confusion.tp + m.confusion.fp)
    ensures m.recall == SafeDiv(m.confusion.tp, m.confusion.tp + m.confusion.fn)
    ensures m.f1 == F1(m.precision, m.recall)
    ensures m.accuracy == SafeDiv(m.confusion.tp + m.confusion.tn, |rows|)
  {
    var c := Tally(rows, preds);
    var precision := SafeDiv(c.tp, c.tp + c.fp);
    var recall := SafeDiv(c.tp, c.tp + c.fn);
    BinaryMetrics(c, precision, recall, F1(precision, recall), SafeDiv(c.tp + c.tn, |rows|))
  }

  /** How often `name` occurs. */
  function Occurrences(labels: seq<string>, name: string): (n: nat)
    ensures n <= |labels|
    ensures n > 0 <==> name in labels
  {
    if |labels| == 0 then 0
    else
      var k := |labels| - 1;
      var init := Occurrences(labels[..k], name);
      assert labels == labels[..k] + [labels[k]];
      init + (if labels[k] == name then 1 else 0)
  }

  /** `count(name)` is the multiplicity of `name` in the list. */
  lemma {:induction false} OccurrencesIsMultiplicity(labels: seq<string>, name: string)
    ensures Occurrences(labels, name) == multiset(labels)[name]
  {
    if |labels| > 0 {
      var k := |labels| - 1;
      OccurrencesIsMultiplicity(labels[..k], name);
      assert labels == labels[..k] + [labels[k]];
    }
  }

  /** The actual labels (`to_s`) of the rows. */
  function ActualLabels(rows: seq<Row>): (labels: seq<string>)
    ensures |labels| == |rows| && forall i :: 0 <= i < |rows| ==> labels[i] == ToS(rows[i].hintTarget)
  {
    seq(|rows|, i requires 0 <= i < |rows| => ToS(rows[i].hintTarget))
  }

  /** The predicted labels (`to_s`) for the rows. */
  function PredictedLabels(n: nat, preds: seq<string>): (labels: seq<string>)
    ensures |labels| == n && forall i :: 0 <= i < n ==> labels[i] == ToS(PredAt(preds, i))
  {
    seq(n, i requires 0 <= i < n => ToS(PredAt(preds, i)))
  }

  /** The rows whose raw target equals the raw prediction (nil equals nil). */
  function CountCorrect(rows: seq<Row>, preds: seq<string>): (n: nat)
    ensures n <= |rows|
  {
    if |rows| == 0 then 0
    else
      var k := |rows| - 1;
      CountCorrect(rows[..k], preds) + (if rows[k].hintTarget == PredAt(preds, k) then 1 else 0)
  }

  /** Whether each row's raw target equals its raw prediction, in order. */
  function Matches(rows: seq<Row>, preds: seq<string>): (m: seq<bool>)
    ensures |m| == |rows|
    ensures forall i :: 0 <= i < |rows| ==> m[i] == (rows[i].hintTarget == PredAt(preds, i))
  {
    if |rows| == 0 then []
    else
      var k := |rows| - 1;
      Matches(rows[..k], preds) + [rows[k].hintTarget == PredAt(preds, k)]
  }

  /** `correct` counts exactly the rows whose target equals their prediction. */
  lemma {:induction false} CountCorrectCountsMatches(rows: seq<Row>, preds: seq<string>)
    ensures CountCorrect(rows, preds) == multiset(Matches(rows, preds))[true]
  {
    if |rows| > 0 {
      var k := |rows| - 1;
      CountCorrectCountsMatches(rows[..k], preds);
      MultiplicitySnoc(Matches(rows[..k], preds), rows[k].hintTarget == PredAt(preds, k), true);
    }
  }

  /** A row's label when its actual and predicted labels (`to_s`) agree, else nothing. */
  function Hit(row: Row, pred: Option<string>): Option<string> {
    if ToS(row.hintTarget) == ToS(pred) then Some(ToS(row.hintTarget)) else None
  }

  /** The rows' `Hit`s, in order. */
  function Hits(rows: seq<Row>, preds: seq<string>): (h: seq<Option<string>>)
    ensures |h| == |rows|
  {
    if |rows| == 0 then [] else Hits(rows[..|rows| - 1], preds) + [Hit(rows[|rows| - 1], PredAt(preds, |rows| - 1))]
  }

  /** The rows of class `name` (by `to_s`) whose prediction matches it. */
  function CorrectIn(rows: seq<Row>, preds: seq<string>, name: string): (n: nat)
    ensures n <= Occurrences(ActualLabels(rows), name)
  {
    if |rows| == 0 then 0
    else
      var k := |rows| - 1;
      var init := CorrectIn(rows[..k], preds, name);
      assert ActualLabels(rows) == ActualLabels(rows[..k]) + [ToS(rows[k].hintTarget)];
      init + (if Hit(rows[k], PredAt(preds, k)) == Some(name) then 1 else 0)
  }

  /** Appending one element adds one to its multiplicity and nothing to any other's. */
  lemma MultiplicitySnoc<T>(s: seq<T>, x: T, y: T)
    ensures multiset(s + [x])[y] == multiset(s)[y] + (if x == y then 1 else 0)
  {
    assert multiset(s + [x]) == multiset(s) + multiset{x};
  }

  /** `CorrectIn` counts exactly the rows whose actual and predicted labels are both `name`. */
  lemma {:induction false} CorrectInCountsHits(rows: seq<Row>, preds: seq<string>, name: string)
    ensures CorrectIn(rows, preds, name) == multiset(Hits(rows, preds))[Some(name)]
  {
    if |rows| > 0 {
      var k := |rows| - 1;
      CorrectInCountsHits(rows[..k], preds, name);
      MultiplicitySnoc(Hits(rows[..k], preds), Hit(rows[k], PredAt(preds, k)), Some(name));
    }
  }

  datatype ClassStat = ClassStat(name: string, count: nat)
  datatype ClassRecall = ClassRecall(name: string, recall: Option<real>)

  datatype PhenotypeMetrics = PhenotypeMetrics(
    exactAccuracy: Option<real>, support: seq<ClassStat>, predicted: seq<ClassStat>, recall: seq<ClassRecall>)

  /** One entry per distinct name, in order of first appearance, with its number of occurrences. */
  function ClassStats(names: seq<string>): (r: seq<ClassStat>)
    ensures forall i :: 0 <= i < |r| ==> r[i].count > 0 && r[i].count == Occurrences(names, r[i].name)
    ensures forall i, j :: 0 <= i < j < |r| ==> r[i].name != r[j].name
    ensures forall n :: n in names <==> exists i :: 0 <= i < |r| && r[i].name == n
  {
    var classes := Text.Dedup(names);
    var r := seq(|classes|, i requires 0 <= i < |classes| => ClassStat(classes[i], Occurrences(names, classes[i])));
    assert forall n :: n in names ==> exists i :: 0 <= i < |r| && r[i].name == n by {
      forall n | n in names ensures exists i :: 0 <= i < |r| && r[i].name == n {
        var k :| 0 <= k < |names| && names[k] == n;
        assert n in classes;
        var i :| 0 <= i < |classes| && classes[i] == n;
        assert r[i].name == n;
      }
    }
    r
  }

  /** Per class, the share of its rows predicted as that class. */
  function Recalls(rows: seq<Row>, preds: seq<string>, support: seq<ClassStat>): (r: seq<ClassRecall>)
    requires forall i :: 0 <= i < |support| ==> support[i].count == Occurrences(ActualLabels(rows), support[i].name)
    ensures |r| == |support|
    ensures forall i :: 0 <= i < |r| ==>
      r[i].name == support[i].name && (r[i].recall.None? <==> support[i].count == 0)
      && (r[i].recall.Some? ==> 0.0 <= r[i].recall.value <= 1.0)
    ensures forall i :: 0 <= i < |r| ==> r[i].recall == SafeDiv(CorrectIn(rows, preds, support[i].name), support[i].count)
  {
    seq(|support|, i requires 0 <= i < |support| =>
      ClassRecall(support[i].name, SafeDiv(CorrectIn(rows, preds, support[i].name), support[i].count)))
  }

  /** `phenotype_metrics`: the exact-match accuracy, the support and prediction count of every
      class seen, and per actual class the share of its rows predicted as that class. Every
      listed class has at least one row, so its recall is never nil. */
  function Phenotype(rows: seq<Row>, preds: seq<string>): (m: PhenotypeMetrics)
    ensures m.exactAccuracy.None? <==> |rows| == 0
    ensures m.exactAccuracy.Some? ==> 0.0 <= m.exactAccuracy.value <= 1.0
    ensures forall i :: 0 <= i < |m.support| ==>
      m.support[i].count > 0 && m.support[i].count == Occurrences(ActualLabels(rows), m.support[i].name)
    ensures forall i, j :: 0 <= i < j < |m.support| ==> m.support[i].name != m.support[j].name
    ensures forall n :: n in ActualLabels(rows) <==> exists i :: 0 <= i < |m.support| && m.support[i].name == n
    ensures |m.recall| == |m.support|
    ensures forall i :: 0 <= i < |m.recall| ==>
      m.recall[i].name == m.support[i].name && m.recall[i].recall.Some? && 0.0 <= m.recall[i].recall.value <= 1.0
    ensures m.exactAccuracy == SafeDiv(CountCorrect(rows, preds), |rows|)
    ensures m.support == ClassStats(ActualLabels(rows))
    ensures m.predicted == ClassStats(PredictedLabels(|rows|, preds))
    ensures m.recall == Recalls(rows, preds, m.support)
  {
    var support := ClassStats(ActualLabels(rows));
    PhenotypeMetrics(SafeDiv(CountCorrect(rows, preds), |rows|), support,
      ClassStats(PredictedLabels(|rows|, preds)), Recalls(rows, preds, support))
  }

  // ---------------------------------------------------------------- feature vectors

  /** The continuous value of feature `i`, or its training median when the cell is missing. */
  function Imputed(row: Row, medians: seq<real>, i: nat): real
    requires i < |ContinuousFeatures| == |medians|
  {
    match CellValue(row, ContinuousFeatures[i])
    case Some(v) => v
    case None => medians[i]
  }

  /** `base`: each continuous value, imputed by its median when missing. */
  function ImputedValues(row: Row, medians: seq<real>): (b: seq<real>)
    requires |medians| == |ContinuousFeatures|
    ensures |b| == |ContinuousFeatures|
    ensures forall i :: 0 <= i < |ContinuousFeatures| ==> b[i] == Imputed(row, medians, i)
  {
    seq(|ContinuousFeatures|, i requires 0 <= i < |ContinuousFeatures| => Imputed(row, medians, i))
  }

  /** `indicators`: for every feature but age, 1.0 exactly when that feature is missing. */
  function Indicators(row: Row): (ind: seq<real>)
    ensures |ind| == IndicatorCount
    ensures forall j :: 0 <= j < IndicatorCount ==>
      (ind[j] == 1.0 <==> CellValue(row, ContinuousFeatures[j + 1]).None?) && (ind[j] == 0.0 || ind[j] == 1.0)
  {
    seq(IndicatorCount, j requires 0 <= j < IndicatorCount =>
      if CellValue(row, ContinuousFeatures[j + 1]).None? then 1.0 else 0.0)
  }

  /** `base + indicators`: each continuous value, imputed by its median when missing, then for
      every feature but age an indicator that is 1.0 exactly when that feature is missing. */
  function UnscaledRow(row: Row, medians: seq<real>): (v: seq<real>)
    requires |medians| == |ContinuousFeatures|
    ensures |v| == Width
    ensures forall i :: 0 <= i < |ContinuousFeatures| ==>
      (CellValue(row, ContinuousFeatures[i]).Some? ==> v[i] == CellValue(row, ContinuousFeatures[i]).value)
      && (CellValue(row, ContinuousFeatures[i]).None? ==> v[i] == medians[i])
    ensures forall d :: |ContinuousFeatures| <= d < Width ==>
      (v[d] == 1.0 <==> CellValue(row, ContinuousFeatures[d - |ContinuousFeatures| + 1]).None?)
      && (v[d] == 0.0 || v[d] == 1.0)
  {
    var base := ImputedValues(row, medians);
    var indicators := Indicators(row);
    base + indicators
  }

  /** The parsed values of feature `i` over the rows. */
  function FeatureColumn(rows: seq<Row>, i: nat): (col: seq<Option<real>>)
    requires i < |ContinuousFeatures|
    ensures |col| == |rows| && forall r :: 0 <= r < |rows| ==> col[r] == CellValue(rows[r], ContinuousFeatures[i])
  {
    seq(|rows|, r requires 0 <= r < |rows| => CellValue(rows[r], ContinuousFeatures[i]))
  }

  /** `medians[feature] = median(values) || 0.0`: within the range of the values seen, and 0.0
      for a feature no row carries. */
  function Medians(rows: seq<Row>): (m: seq<real>)
    ensures |m| == |ContinuousFeatures|
    ensures forall i :: 0 <= i < |ContinuousFeatures| ==>
      (|Compact(FeatureColumn(rows, i))| == 0 ==> m[i] == 0.0)
      && (|Compact(FeatureColumn(rows, i))| > 0 ==>
        Numbers.Min(Compact(FeatureColumn(rows, i))) <= m[i] <= Numbers.Max(Compact(FeatureColumn(rows, i))))
  {
    seq(|ContinuousFeatures|, i requires 0 <= i < |ContinuousFeatures| =>
      var med := Median(FeatureColumn(rows, i));
      if med.Some? then med.value else 0.0)
  }

  /** Coordinate `d` of every vector. */
  function Column(vectors: seq<seq<real>>, d: nat): (col: seq<real>)
    requires forall i :: 0 <= i < |vectors| ==> d < |vectors[i]|
    ensures |col| == |vectors| && forall i :: 0 <= i < |vectors| ==> col[i] == vectors[i][d]
  {
    seq(|vectors|, i requires 0 <= i < |vectors| => vectors[i][d])
  }

  datatype Preprocessing = Preprocessing(vectors: seq<seq<real>>, medians: seq<real>, means: seq<real>, stds: seq<real>)

  /** The fitted preprocessing as the scorer and the transforms below expect it. */
  predicate Fitted(p: Preprocessing) {
    |p.medians| == |ContinuousFeatures| && |p.means| == Width && |p.stds| == Width
    && forall d :: 0 <= d < Width ==> p.stds[d] > 0.0
  }

  /** `compute_preprocess`: the unscaled training vectors, the per-feature medians used to
      impute them, and per coordinate the mean (within the range of the column) and a positive
      spread. The source reads the width off the first vector, so it needs a row. */
  function ComputePreprocess(rows: seq<Row>, sqrt: real -> real): (p: Preprocessing)
    requires |rows| > 0
    ensures Fitted(p)
    ensures p.medians == Medians(rows)
    ensures |p.vectors| == |rows| && forall i :: 0 <= i < |rows| ==> p.vectors[i] == UnscaledRow(rows[i], p.medians)
    ensures forall i :: 0 <= i < |rows| ==> |p.vectors[i]| == Width
    ensures forall d :: 0 <= d < Width ==>
      Numbers.Min(Column(p.vectors, d)) <= p.means[d] <= Numbers.Max(Column(p.vectors, d))
  {
    var medians := Medians(rows);
    var vectors := seq(|rows|, i requires 0 <= i < |rows| => UnscaledRow(rows[i], medians));
    var means := seq(Width, d requires 0 <= d < Width => MeanOrZero(Column(vectors, d)));
    var stds := seq(Width, d requires 0 <= d < Width => Stddev(Column(vectors, d), means[d], sqrt));
    Preprocessing(vectors, medians, means, stds)
  }

  /** Multiplying `z` back by the spreads and adding the means gives `v`. */
  predicate Restores(z: seq<real>, v: seq<real>, means: seq<real>, stds: seq<real>)
    requires |v| <= |means| && |v| <= |stds|
  {
    |z| == |v| && forall d :: 0 <= d < |v| ==> z[d] * stds[d] + means[d] == v[d]
  }

  /** `(value - means[idx]) / stds[idx]` for every coordinate; multiplying back by the spread
      and adding the mean restores the unscaled vector. */
  function StandardizeRow(v: seq<real>, means: seq<real>, stds: seq<real>): (z: seq<real>)
    requires |v| <= |means| && |v| <= |stds|
    requires forall d :: 0 <= d < |v| ==> stds[d] != 0.0
    ensures Restores(z, v, means, stds)
  {
    seq(|v|, d requires 0 <= d < |v| => ClusteringModel.Standardize(v[d], means[d], stds[d]))
  }

  /** `transform_rows`: each row imputed with the training medians and standardised with the
      training means and spreads. */
  function TransformRows(rows: seq<Row>, p: Preprocessing): (vs: seq<seq<real>>)
    requires Fitted(p)
    ensures |vs| == |rows|
    ensures forall i :: 0 <= i < |rows| ==> Restores(vs[i], UnscaledRow(rows[i], p.medians), p.means, p.stds)
  {
    seq(|rows|, i requires 0 <= i < |rows| => StandardizeRow(UnscaledRow(rows[i], p.medians), p.means, p.stds))
  }

  /** Standardising the training vectors in the main flow and transforming the training rows
      give the same vectors. */
  lemma TrainingVectorsAreTransformed(rows: seq<Row>, sqrt: real -> real)
    requires |rows| > 0
    ensures var p := ComputePreprocess(rows, sqrt);
      TransformRows(rows, p) == seq(|rows|, i requires 0 <= i < |rows| => StandardizeRow(p.vectors[i], p.means, p.stds))
  {
  }

  // ---------------------------------------------------------------- the scorer agrees

  /** The indicator features written to the artifact. */
  function IndicatorFeatures(): (r: seq<string>)
    ensures |r| == IndicatorCount
  {
    seq(IndicatorCount, j requires 0 <= j < IndicatorCount => ContinuousFeatures[j + 1] + ClusteringModel.MissingSuffix)
  }

  /** The artifact's medians hash, as the scorer reads it. */
  function MedianPairs(medians: seq<real>): (r: seq<(string, real)>)
    requires |medians| == |ContinuousFeatures|
  {
    seq(|ContinuousFeatures|, i requires 0 <= i < |ContinuousFeatures| => (ContinuousFeatures[i], medians[i]))
  }

  lemma {:induction false} MedianOfFirstMatch(pairs: seq<(string, real)>, d: nat)
    requires d < |pairs| && forall e :: 0 <= e < d ==> pairs[e].0 != pairs[d].0
    ensures ClusteringModel.MedianOf(pairs, pairs[d].0) == pairs[d].1
    decreases d
  {
    if d > 0 {
      MedianOfFirstMatch(pairs[1..], d - 1);
    }
  }

  lemma AppendCancel(a: string, b: string, suffix: string)
    requires a + suffix == b + suffix
    ensures a == b
  {
    assert a == (a + suffix)[..|a|];
    assert b == (b + suffix)[..|b|];
  }

  lemma CancelScale(a: real, b: real, scale: real, shift: real)
    requires scale != 0.0 && a * scale + shift == b * scale + shift
    ensures a == b
  {
    assert (a - b) * scale == 0.0;
  }

  /** No continuous feature ends in `g`, and every indicator does. */
  lemma IndicatorsAreNotContinuous()
    ensures forall d :: 0 <= d < |ContinuousFeatures| ==> ContinuousFeatures[d] !in IndicatorFeatures()
  {
    forall d | 0 <= d < |ContinuousFeatures| ensures ContinuousFeatures[d] !in IndicatorFeatures() {
      var f := ContinuousFeatures[d];
      assert f[|f| - 1] != 'g';
      forall j | 0 <= j < IndicatorCount ensures IndicatorFeatures()[j] != f {
        var g := IndicatorFeatures()[j];
        assert g[|g| - 1] == 'g';
      }
    }
  }

  lemma ContinuousFeaturesDistinct()
    ensures forall d, e :: 0 <= e < d < |ContinuousFeatures| ==> ContinuousFeatures[e] != ContinuousFeatures[d]
  {
    var cf := ContinuousFeatures;
    assert forall d :: 0 <= d < |cf| ==> |cf[d]| == [3, 15, 13, 11, 13, 24, 12, 14, 25][d];
    assert cf[2][0] != cf[4][0];
  }

  /** The runtime scorer, fed the artifact this trainer writes and the same raw values, builds
      exactly the vector `transform_rows` builds for the row. */
  lemma ScorerMatchesTransform(row: Row, raw: Domain.FeatureValues, p: Preprocessing)
    requires Fitted(p)
    requires forall i :: 0 <= i < |ContinuousFeatures| ==>
      ClusteringModel.Get(raw, ContinuousFeatures[i]) == CellValue(row, ContinuousFeatures[i])
    ensures ClusteringModel.BuildVector(raw, ContinuousFeatures, IndicatorFeatures(), ContinuousFeatures + IndicatorFeatures(),
      MedianPairs(p.medians), p.means, p.stds) == TransformRows([row], p)[0]
  {
    var all := ContinuousFeatures + IndicatorFeatures();
    var v := ClusteringModel.BuildVector(raw, ContinuousFeatures, IndicatorFeatures(), all, MedianPairs(p.medians), p.means, p.stds);
    var z := TransformRows([row], p)[0];
    var unscaled := UnscaledRow(row, p.medians);
    IndicatorsAreNotContinuous();
    ContinuousFeaturesDistinct();
    forall d | 0 <= d < Width ensures v[d] == z[d] {
      var u := ClusteringModel.Unscaled(all[d], raw, ContinuousFeatures, IndicatorFeatures(), MedianPairs(p.medians));
      assert u == unscaled[d] by {
        if d < |ContinuousFeatures| {
          assert all[d] == ContinuousFeatures[d];
          MedianOfFirstMatch(MedianPairs(p.medians), d);
        } else {
          var j := d - |ContinuousFeatures|;
          var f := IndicatorFeatures()[j];
          assert all[d] == f;
          var base := ClusteringModel.BaseName(f);
          assert f[|f| - |ClusteringModel.MissingSuffix|..] == ClusteringModel.MissingSuffix;
          AppendCancel(base, ContinuousFeatures[j + 1], ClusteringModel.MissingSuffix);
        }
      }
      assert ClusteringModel.StdAt(p.stds, d) == p.stds[d];
      CancelScale(v[d], z[d], p.stds[d], p.means[d]);
    }
  }

  // ---------------------------------------------------------------- clusters to labels

  /** Ruby's String ordering (on characters): a proper prefix comes first, otherwise the first
      differing character decides. */
  predicate StrLess(a: string, b: string)
    decreases |a|
  {
    if |a| == 0 then |b| > 0
    else if |b| == 0 then false
    else if a[0] != b[0] then a[0] < b[0]
    else StrLess(a[1..], b[1..])
  }

  predicate StrLessEq(a: string, b: string) {
    a == b || StrLess(a, b)
  }

  lemma {:induction false} StrLessTotal(a: string, b: string)
    ensures StrLess(a, b) || a == b || StrLess(b, a)
    decreases |a|
  {
    if |a| > 0 && |b| > 0 && a[0] == b[0] {
      StrLessTotal(a[1..], b[1..]);
      if a[1..] == b[1..] {
        assert a == [a[0]] + a[1..] && b == [b[0]] + b[1..];
      }
    }
  }

  lemma {:induction false} StrLessTransitive(a: string, b: string, c: string)
    requires StrLess(a, b) && StrLess(b, c)
    ensures StrLess(a, c)
    decreases |a|
  {
    if |a| > 0 && a[0] == b[0] && b[0] == c[0] {
      StrLessTransitive(a[1..], b[1..], c[1..]);
    }
  }

  /** The cluster a row's assignment names, a negative one counting from the end. */
  function ClusterOf(a: int, k: nat): (c: nat)
    requires -(k as int) <= a < k
    ensures c < k
  {
    if a < 0 then k + a else a
  }

  predicate ValidAssignments(rows: seq<Row>, assignments: seq<int>, k: nat) {
    |assignments| == |rows| && forall i :: 0 <= i < |rows| ==> -(k as int) <= assignments[i] < k
  }

  /** The labels (`to_s`) of the rows assigned to cluster `c`, in row order. */
  function LabelsIn(rows: seq<Row>, assignments: seq<int>, k: nat, c: nat): (ls: seq<string>)
    requires ValidAssignments(rows, assignments, k)
    ensures |ls| <= |rows|
    ensures forall l :: l in ls <==>
      exists i :: 0 <= i < |rows| && ClusterOf(assignments[i], k) == c && ToS(rows[i].hintTarget) == l
    ensures |rows| == 1 ==> ls == if ClusterOf(assignments[0], k) == c then [ToS(rows[0].hintTarget)] else []
  {
    if |rows| == 0 then []
    else
      var n := |rows| - 1;
      var init := LabelsIn(rows[..n], assignments[..n], k, c);
      assert forall i :: 0 <= i < n ==> rows[..n][i] == rows[i] && assignments[..n][i] == assignments[i];
      if ClusterOf(assignments[n], k) == c then init + [ToS(rows[n].hintTarget)] else init
  }

  /** One step of `LabelsIn`: the last row's contribution. */
  lemma LabelsInStep(rows: seq<Row>, assignments: seq<int>, k: nat, c: nat)
    requires ValidAssignments(rows, assignments, k) && |rows| > 0
    ensures ValidAssignments(rows[..|rows| - 1], assignments[..|rows| - 1], k)
    ensures ValidAssignments([rows[|rows| - 1]], [assignments[|rows| - 1]], k)
    ensures LabelsIn(rows, assignments, k, c)
      == LabelsIn(rows[..|rows| - 1], assignments[..|rows| - 1], k, c) + LabelsIn([rows[|rows| - 1]], [assignments[|rows| - 1]], k, c)
  {
    assert [rows[|rows| - 1]][..0] == [];
  }

  /** Collecting a cluster's labels works piecewise: with the singleton case of `LabelsIn`, this
      says every row of the cluster contributes its label once, in row order. */
  lemma {:induction false} LabelsInAppend(r1: seq<Row>, a1: seq<int>, r2: seq<Row>, a2: seq<int>, k: nat, c: nat)
    requires ValidAssignments(r1, a1, k) && ValidAssignments(r2, a2, k)
    ensures ValidAssignments(r1 + r2, a1 + a2, k)
    ensures LabelsIn(r1 + r2, a1 + a2, k, c) == LabelsIn(r1, a1, k, c) + LabelsIn(r2, a2, k, c)
  {
    var rs, xs := r1 + r2, a1 + a2;
    assert ValidAssignments(rs, xs, k) by {
      assert forall i :: 0 <= i < |rs| ==> xs[i] == if i < |a1| then a1[i] else a2[i - |a1|];
    }
    if |r2| > 0 {
      var n := |r2| - 1;
      assert rs[..|rs| - 1] == r1 + r2[..n] && xs[..|xs| - 1] == a1 + a2[..n];
      assert rs[|rs| - 1] == r2[n] && xs[|xs| - 1] == a2[n];
      LabelsInStep(rs, xs, k, c);
      LabelsInStep(r2, a2, k, c);
      LabelsInAppend(r1, a1, r2[..n], a2[..n], k, c);
    } else {
      assert rs == r1 && xs == a1;
    }
  }

  /** The sizes of clusters `0 .. upto - 1`. */
  function TotalSize(rows: seq<Row>, assignments: seq<int>, k: nat, upto: nat): nat
    requires ValidAssignments(rows, assignments, k)
  {
    if upto == 0 then 0 else TotalSize(rows, assignments, k, upto - 1) + |LabelsIn(rows, assignments, k, upto - 1)|
  }

  lemma {:induction false} TotalSizeStep(rows: seq<Row>, assignments: seq<int>, k: nat, upto: nat)
    requires ValidAssignments(rows, assignments, k) && |rows| > 0
    ensures var n := |rows| - 1;
      TotalSize(rows, assignments, k, upto)
      == TotalSize(rows[..n], assignments[..n], k, upto) + (if ClusterOf(assignments[n], k) < upto then 1 else 0)
  {
    if upto > 0 {
      TotalSizeStep(rows, assignments, k, upto - 1);
    }
  }

  /** Every training row is counted in exactly one cluster. */
  lemma {:induction false} ClustersPartitionRows(rows: seq<Row>, assignments: seq<int>, k: nat)
    requires ValidAssignments(rows, assignments, k)
    ensures TotalSize(rows, assignments, k, k) == |rows|
  {
    if |rows| == 0 {
      ZeroSizes(rows, assignments, k, k);
    } else {
      var n := |rows| - 1;
      TotalSizeStep(rows, assignments, k, k);
      ClustersPartitionRows(rows[..n], assignments[..n], k);
    }
  }

  lemma {:induction false} ZeroSizes(rows: seq<Row>, assignments: seq<int>, k: nat, upto: nat)
    requires ValidAssignments(rows, assignments, k) && |rows| == 0
    ensures TotalSize(rows, assignments, k, upto) == 0
  {
    if upto > 0 {
      ZeroSizes(rows, assignments, k, upto - 1);
    }
  }

  /** `label` wins over `other` in `sort_by { [-count, label] }`: more rows, or as many and
      not later in string order. */
  predicate Beats(members: seq<string>, name: string, other: string) {
    Occurrences(members, other) < Occurrences(members, name)
    || (Occurrences(members, other) == Occurrences(members, name) && StrLessEq(name, other))
  }

  /** The first entry of `candidates` sorted by descending count in `members`, then by name. */
  function Dominant(candidates: seq<string>, members: seq<string>): (best: string)
    requires |candidates| > 0
    ensures best in candidates
    ensures forall i :: 0 <= i < |candidates| ==> Beats(members, best, candidates[i])
  {
    var n := |candidates| - 1;
    if n == 0 then candidates[0]
    else
      var prev := Dominant(candidates[..n], members);
      assert forall i :: 0 <= i < n ==> candidates[..n][i] == candidates[i];
      var x := candidates[n];
      var cx, cp := Occurrences(members, x), Occurrences(members, prev);
      if cx > cp || (cx == cp && StrLess(x, prev)) then
        assert forall i :: 0 <= i < n ==> Beats(members, x, candidates[i]) by {
          forall i | 0 <= i < n ensures Beats(members, x, candidates[i]) {
            if cx == cp && Occurrences(members, candidates[i]) == cp && prev != candidates[i] {
              StrLessTransitive(x, prev, candidates[i]);
            }
          }
        }
        x
      else
        StrLessTotal(x, prev);
        prev
  }

  /** The labels other than `normal`, in order. */
  function NonNormal(members: seq<string>): (r: seq<string>)
    ensures forall l :: l in r <==> l in members && l != NormalLabel
  {
    if |members| == 0 then []
    else
      var n := |members| - 1;
      var init := NonNormal(members[..n]);
      assert members == members[..n] + [members[n]];
      if members[n] == NormalLabel then init else init + [members[n]]
  }

  datatype ClusterLabel = ClusterLabel(hint: string, status: string, purity: real, followupRate: real)

  /** A cluster label says "needs follow-up" exactly when its hint is not `normal`. */
  predicate Consistent(c: ClusterLabel) {
    (c.status == FollowupLabel || c.status == NormalLabel) && (c.status == NormalLabel <==> c.hint == NormalLabel)
  }

  /** One cluster of `map_clusters_to_hints`. An empty cluster is normal with zero purity and
      rate. Otherwise the follow-up rate is the share of rows not labelled `normal`; the
      cluster needs follow-up exactly when that rate reaches the threshold; a normal cluster
      is hinted `normal`, a follow-up cluster gets its most frequent non-normal label (ties to
      the earlier name), or `unspecified_autonomic` when it has none; the purity is the share
      of rows carrying the hint. */
  function MapCluster(members: seq<string>, threshold: real): (r: ClusterLabel)
    ensures Consistent(r)
    ensures |members| == 0 ==> r == ClusterLabel(NormalLabel, NormalLabel, 0.0, 0.0)
    ensures |members| > 0 ==>
      r.followupRate == (|members| - Occurrences(members, NormalLabel)) as real / |members| as real
      && 0.0 <= r.followupRate <= 1.0
      && (r.status == FollowupLabel <==> r.followupRate >= threshold)
      && r.purity == Occurrences(members, r.hint) as real / |members| as real
      && 0.0 <= r.purity <= 1.0
    ensures r.status == FollowupLabel && (forall l :: l in members ==> l == NormalLabel) ==> r.hint == UnspecifiedLabel
    ensures r.status == FollowupLabel && (exists l :: l in members && l != NormalLabel) ==>
      r.hint in members && forall l :: l in members && l != NormalLabel ==> Beats(members, r.hint, l)
  {
    if |members| == 0 then ClusterLabel(NormalLabel, NormalLabel, 0.0, 0.0)
    else
      var total := |members|;
      var rate := SafeDiv(total - Occurrences(members, NormalLabel), total).value;
      var status := if rate >= threshold then FollowupLabel else NormalLabel;
      var others := NonNormal(members);
      var hint :=
        if status == NormalLabel then NormalLabel
        else if |others| == 0 then UnspecifiedLabel
        else Dominant(others, members);
      assert status == FollowupLabel && |others| > 0 ==> hint != NormalLabel;
      ClusterLabel(hint, status, SafeDiv(Occurrences(members, hint), total).value, rate)
  }

  /** `map_clusters_to_hints`: one label per cluster, each drawn from the training rows
      assigned to it. */
  function MapClustersToHints(rows: seq<Row>, assignments: seq<int>, k: nat, threshold: real): (labels: seq<ClusterLabel>)
    requires ValidAssignments(rows, assignments, k)
    ensures |labels| == k
    ensures forall c :: 0 <= c < k ==> labels[c] == MapCluster(LabelsIn(rows, assignments, k, c), threshold)
    ensures forall c :: 0 <= c < k ==> Consistent(labels[c])
  {
    seq(k, c requires 0 <= c < k => MapCluster(LabelsIn(rows, assignments, k, c), threshold))
  }

  // ---------------------------------------------------------------- predictions

  /** `status_from_hint`. */
  function StatusFromHint(hint: string): (status: string)
    ensures status == NormalLabel <==> hint == NormalLabel
  {
    if hint == NormalLabel then NormalLabel else FollowupLabel
  }

  datatype Prediction = Prediction(hint: string, status: string, cluster: nat, distance: Option<real>)

  /** The prediction for one vector: its nearest centroid and that cluster's label, `normal`
      and the status that follows from it for a cluster without one. */
  function PredictOne(vector: seq<real>, centroids: seq<seq<real>>, labels: seq<ClusterLabel>): (p: Prediction)
    ensures (p.cluster, p.distance) == ClusteringModel.NearestCentroid(vector, centroids)
    ensures p.cluster < |labels| ==> p.hint == labels[p.cluster].hint && p.status == labels[p.cluster].status
    ensures p.cluster >= |labels| ==> p.hint == NormalLabel && p.status == NormalLabel
  {
    var (cluster, distance) := ClusteringModel.NearestCentroid(vector, centroids);
    var hint := if cluster < |labels| then labels[cluster].hint else NormalLabel;
    var status := if cluster < |labels| then labels[cluster].status else StatusFromHint(hint);
    Prediction(hint, status, cluster, distance)
  }

  /** `predict_rows` without the metrics: one prediction per vector, at its nearest centroid;
      consistent cluster labels give consistent predictions. */
  function Predict(vectors: seq<seq<real>>, centroids: seq<seq<real>>, labels: seq<ClusterLabel>): (ps: seq<Prediction>)
    ensures |ps| == |vectors|
    ensures forall i :: 0 <= i < |vectors| ==> ps[i] == PredictOne(vectors[i], centroids, labels)
    ensures |centroids| > 0 ==> forall i, j :: 0 <= i < |vectors| && 0 <= j < |centroids| ==>
      ps[i].cluster < |centroids| && ps[i].distance.Some? && ps[i].distance.value <= ClusteringModel.SqDist(vectors[i], centroids[j])
    ensures (forall c :: 0 <= c < |labels| ==> Consistent(labels[c])) ==>
      forall i :: 0 <= i < |vectors| ==> (ps[i].status == NormalLabel <==> ps[i].hint == NormalLabel)
  {
    seq(|vectors|, i requires 0 <= i < |vectors| => PredictOne(vectors[i], centroids, labels))
  }

  function Hints(ps: seq<Prediction>): (r: seq<string>)
    ensures |r| == |ps| && forall i :: 0 <= i < |ps| ==> r[i] == ps[i].hint
  {
    seq(|ps|, i requires 0 <= i < |ps| => ps[i].hint)
  }

  function Statuses(ps: seq<Prediction>): (r: seq<string>)
    ensures |r| == |ps| && forall i :: 0 <= i < |ps| ==> r[i] == ps[i].status
  {
    seq(|ps|, i requires 0 <= i < |ps| => ps[i].status)
  }

  datatype Evaluation = Evaluation(predictions: seq<Prediction>, binary: BinaryMetrics, phenotype: PhenotypeMetrics)

  /** `predict_rows`: the predictions and their binary and phenotype metrics against the rows'
      targets. */
  function PredictRows(rows: seq<Row>, vectors: seq<seq<real>>, centroids: seq<seq<real>>, labels: seq<ClusterLabel>): (e: Evaluation)
    ensures e.predictions == Predict(vectors, centroids, labels)
    ensures e.binary == Binary(rows, Statuses(e.predictions))
    ensures e.phenotype == Phenotype(rows, Hints(e.predictions))
  {
    var ps := Predict(vectors, centroids, labels);
    Evaluation(ps, Binary(rows, Statuses(ps)), Phenotype(rows, Hints(ps)))
  }

  // ---------------------------------------------------------------- the training run

  /** Why a training run stops: too few training rows for K (the script's own abort), or a
      nil dereference the script does not guard against (K of zero, or no restarts). */
  datatype TrainError = TooFewRows(rows: nat, k: nat) | Raised

  datatype Trained = Trained(preprocessing: Preprocessing, clustering: KMeans.Clustering, labels: seq<ClusterLabel>,
                             train: Evaluation, validation: Evaluation, test: Evaluation)

  /** What a successful run holds: the preprocessing fitted on the training rows, K centroids
      with every training row assigned, the clusters labelled from the training targets, and
      each split evaluated with the same fitted preprocessing, centroids and labels. */
  predicate Pipeline(t: Trained, trainRows: seq<Row>, valRows: seq<Row>, testRows: seq<Row>, k: nat, threshold: real,
                     sqrt: real -> real)
    requires |trainRows| > 0
  {
    t.preprocessing == ComputePreprocess(trainRows, sqrt)
    && |t.clustering.centroids| == k
    && ValidAssignments(trainRows, t.clustering.assignments, k)
    && t.labels == MapClustersToHints(trainRows, t.clustering.assignments, k, threshold)
    && t.train == PredictRows(trainRows, TransformRows(trainRows, t.preprocessing), t.clustering.centroids, t.labels)
    && t.validation == PredictRows(valRows, TransformRows(valRows, t.preprocessing), t.clustering.centroids, t.labels)
    && t.test == PredictRows(testRows, TransformRows(testRows, t.preprocessing), t.clustering.centroids, t.labels)
  }

  /** Everything after clustering: the clusters labelled from the training targets, and each
      split evaluated with the fitted preprocessing, the centroids and those labels; every
      test prediction is normal in status exactly when it is normal in hint. */
  function Fit(trainRows: seq<Row>, valRows: seq<Row>, testRows: seq<Row>, p: Preprocessing, clustering: KMeans.Clustering,
               k: nat, threshold: real): (t: Trained)
    requires Fitted(p) && ValidAssignments(trainRows, clustering.assignments, k)
    ensures |t.test.predictions| == |testRows|
    ensures forall i :: 0 <= i < |testRows| ==>
      (t.test.predictions[i].status == NormalLabel <==> t.test.predictions[i].hint == NormalLabel)
  {
    var labels := MapClustersToHints(trainRows, clustering.assignments, k, threshold);
    var train := PredictRows(trainRows, TransformRows(trainRows, p), clustering.centroids, labels);
    var validation := PredictRows(valRows, TransformRows(valRows, p), clustering.centroids, labels);
    var test := PredictRows(testRows, TransformRows(testRows, p), clustering.centroids, labels);
    Trained(p, clustering, labels, train, validation, test)
  }

  /** The main flow of the trainer: abort when there are fewer training rows than K; fit the
      preprocessing on the training rows, cluster the standardised training vectors, label the
      clusters from the training targets, and evaluate on all three splits with the same fitted
      preprocessing, centroids and labels. The random stream is the one seeded by SEED. */
  method Train(trainRows: seq<Row>, valRows: seq<Row>, testRows: seq<Row>, k: nat, nInit: nat, maxIters: nat,
               threshold: real, sqrt: real -> real, g: KMeans.Rng) returns (r: Result<Trained, TrainError>)
    requires KMeans.Valid(g)
    ensures |trainRows| < k ==> r == Failure(TooFewRows(|trainRows|, k))
    ensures r.Success? <==> |trainRows| >= k && k > 0 && nInit > 0
    ensures r.Success? ==> |trainRows| > 0 && Pipeline(r.value, trainRows, valRows, testRows, k, threshold, sqrt)
    ensures r.Success? ==> forall i :: 0 <= i < |testRows| ==>
      (r.value.test.predictions[i].status == NormalLabel <==> r.value.test.predictions[i].hint == NormalLabel)
  {
    if |trainRows| < k {
      return Failure(TooFewRows(|trainRows|, k));
    }
    if k == 0 || nInit == 0 {
      return Failure(Raised);
    }
    var p := ComputePreprocess(trainRows, sqrt);
    var trainVectors := TransformRows(trainRows, p);
    TrainingVectorsAreTransformed(trainRows, sqrt);
    var best, inertias, bestRestart := KMeans.RunKMeans(trainVectors, k, nInit, maxIters, g);
    var clustering := best.value;
    assert |clustering.centroids| == k && ValidAssignments(trainRows, clustering.assignments, k);
    var t := Fit(trainRows, valRows, testRows, p, clustering, k, threshold);
    assert Pipeline(t, trainRows, valRows, testRows, k, threshold, sqrt);
    r := Success(t);
  }
}
