/** The stratified split of scripts/split_training_table.rb: rows grouped by their phenotype
    label, each group shuffled and cut into training, validation and test slices of about
    70%, 15% and 15%. The shuffles are parameters: any rearrangement of each group. */
module SplitTable {
  import opened Wrappers
  import Numbers
  import Text
  import RobustStats
  import Training

  type Row = Training.Row

  const LabelColumn: string := "phenotype_hint_target"
  const TrainRatio: real := 0.70
  const ValRatio: real := 0.15

  // ---------------------------------------------------------------- the counts

  datatype Counts = Counts(train: nat, val: nat, test: nat)

  /** Lines 45-50 from the two rounded counts: the test count is the remainder; when that is
      negative it becomes zero and the validation count takes what the training count left. */
  function Adjust(n: nat, nTrain: nat, nVal: nat): (c: Counts)
    requires nTrain <= n
    ensures c.train + c.val + c.test == n
    ensures c.train == nTrain && c.val <= nVal
    ensures nTrain + nVal <= n ==> c == Counts(nTrain, nVal, n - nTrain - nVal)
  {
    var nTest := n - nTrain - nVal;
    if nTest < 0 then Counts(nTrain, n - nTrain, 0) else Counts(nTrain, nVal, nTest)
  }

  lemma RoundedShareBounds(n: nat, ratio: real)
    requires 0.0 <= ratio <= 1.0
    ensures 0 <= Numbers.RoundHalfAway(n as real * ratio) <= n
  {
    assert 0.0 <= n as real * ratio <= n as real by {
      RobustStats.MulNonNegative(n as real, ratio);
      RobustStats.MulNonNegative(n as real, 1.0 - ratio);
    }
  }

  /** The counts for a group of `n` rows: the training count is `n * 0.70` rounded, the
      validation count `n * 0.15` rounded, the test count the rest; the three add up to `n`. */
  function SplitCounts(n: nat): (c: Counts)
    ensures c.train + c.val + c.test == n
    ensures -0.5 <= c.train as real - n as real * TrainRatio <= 0.5
    ensures -0.5 <= c.val as real - n as real * ValRatio <= 0.5
  {
    RoundedShareBounds(n, TrainRatio);
    RoundedShareBounds(n, ValRatio);
    var nTrain := Numbers.RoundHalfAway(n as real * TrainRatio);
    var nVal := Numbers.RoundHalfAway(n as real * ValRatio);
    NoShortfall(n);
    Adjust(n, nTrain, nVal)
  }

  /** The remainder never goes negative: the two rounded shares never exceed the group. */
  lemma NoShortfall(n: nat)
    ensures Numbers.RoundHalfAway(n as real * TrainRatio) + Numbers.RoundHalfAway(n as real * ValRatio) <= n
  {
    var a, b := Numbers.RoundHalfAway(n as real * TrainRatio), Numbers.RoundHalfAway(n as real * ValRatio);
    assert a as real <= n as real * TrainRatio + 0.5 && b as real <= n as real * ValRatio + 0.5;
    if n <= 6 {
      assert n == 0 || n == 1 || n == 2 || n == 3 || n == 4 || n == 5 || n == 6;
      if n == 1 { assert a == 1 && b == 0; }
      if n == 2 { assert a == 1 && b == 0; }
      if n == 3 { assert a == 2 && b == 0; }
      if n == 4 { assert a == 3 && b == 1; }
      if n == 5 { assert a == 4 && b == 1; }
      if n == 6 { assert a == 4 && b == 1; }
    }
  }

  // ---------------------------------------------------------------- one group

  /** Ruby's `arr[start, len] || []`: the elements from `start`, at most `len` of them; empty
      when `start` is past the end. */
  function Slice(s: seq<Row>, start: nat, len: nat): (r: seq<Row>)
    ensures |r| <= len
    ensures start <= |s| ==> r == s[start..if start + len <= |s| then start + len else |s|]
    ensures start > |s| ==> r == []
  {
    if start > |s| then [] else s[start..if start + len <= |s| then start + len else |s|]
  }

  datatype Splits = Splits(train: seq<Row>, val: seq<Row>, test: seq<Row>)

  /** Lines 51-53 for one shuffled group: its three slices, which laid end to end give the
      group back, so every row of the group lands in exactly one split. */
  function SplitGroup(shuffled: seq<Row>): (s: Splits)
    ensures s.train + s.val + s.test == shuffled
    ensures var c := SplitCounts(|shuffled|); |s.train| == c.train && |s.val| == c.val && |s.test| == c.test
  {
    var c := SplitCounts(|shuffled|);
    var s := Splits(Slice(shuffled, 0, c.train), Slice(shuffled, c.train, c.val), Slice(shuffled, c.train + c.val, c.test));
    assert s.train + s.val + s.test == shuffled by {
      assert s.train == shuffled[..c.train];
      assert s.val == shuffled[c.train..c.train + c.val];
      assert s.test == shuffled[c.train + c.val..];
    }
    s
  }

  // ---------------------------------------------------------------- grouping

  /** `row[label_col].to_s`. */
  function LabelOf(row: Row): string {
    Training.ToS(row.hintTarget)
  }

  function LabelsOf(rows: seq<Row>): (ls: seq<string>)
    ensures |ls| == |rows| && forall i :: 0 <= i < |rows| ==> ls[i] == LabelOf(rows[i])
  {
    seq(|rows|, i requires 0 <= i < |rows| => LabelOf(rows[i]))
  }

  /** The rows carrying `name`, in order. */
  function GroupOf(rows: seq<Row>, name: string): (g: seq<Row>)
    ensures |g| <= |rows|
    ensures forall r :: r in g ==> LabelOf(r) == name && r in rows
    ensures forall r :: r in rows && LabelOf(r) == name ==> r in g
  {
    if |rows| == 0 then []
    else
      var n := |rows| - 1;
      var init := GroupOf(rows[..n], name);
      assert rows == rows[..n] + [rows[n]];
      if LabelOf(rows[n]) == name then init + [rows[n]] else init
  }

  /** The groups of `by_label`, in order of each label's first appearance. */
  function GroupLabels(rows: seq<Row>): (ls: seq<string>)
    ensures Text.NoDuplicates(ls)
    ensures forall l :: l in ls <==> l in LabelsOf(rows)
  {
    Text.Dedup(LabelsOf(rows))
  }

  /** The rows of the listed groups, as a multiset. */
  function GroupsMultiset(rows: seq<Row>, ls: seq<string>): multiset<Row> {
    if |ls| == 0 then multiset{} else GroupsMultiset(rows, ls[..|ls| - 1]) + multiset(GroupOf(rows, ls[|ls| - 1]))
  }

  lemma {:induction false} GroupsMultisetSnoc(rows: seq<Row>, r: Row, ls: seq<string>)
    requires Text.NoDuplicates(ls)
    ensures GroupsMultiset(rows + [r], ls)
      == GroupsMultiset(rows, ls) + (if LabelOf(r) in ls then multiset{r} else multiset{})
  {
    assert (rows + [r])[..|rows|] == rows;
    if |ls| > 0 {
      var n := |ls| - 1;
      GroupsMultisetSnoc(rows, r, ls[..n]);
      assert ls == ls[..n] + [ls[n]];
    }
  }

  lemma {:induction false} AbsentGroupIsEmpty(rows: seq<Row>, name: string)
    requires name !in LabelsOf(rows)
    ensures GroupOf(rows, name) == []
  {
    if |rows| > 0 {
      var n := |rows| - 1;
      assert LabelsOf(rows[..n]) == LabelsOf(rows)[..n];
      AbsentGroupIsEmpty(rows[..n], name);
      assert LabelsOf(rows)[n] == LabelOf(rows[n]);
    }
  }

  lemma GroupLabelsSnoc(rows: seq<Row>, r: Row)
    ensures GroupLabels(rows + [r])
      == if LabelOf(r) in GroupLabels(rows) then GroupLabels(rows) else GroupLabels(rows) + [LabelOf(r)]
  {
    var ls := LabelsOf(rows + [r]);
    assert ls == LabelsOf(rows) + [LabelOf(r)];
    assert ls[..|rows|] == LabelsOf(rows);
  }

  lemma GroupOfSnoc(rows: seq<Row>, r: Row, name: string)
    ensures GroupOf(rows + [r], name) == GroupOf(rows, name) + (if LabelOf(r) == name then [r] else [])
  {
    assert (rows + [r])[..|rows|] == rows;
  }

  /** Grouping by label loses and duplicates nothing: the groups together hold exactly the
      rows. */
  lemma {:induction false} GroupsCoverRows(rows: seq<Row>)
    ensures GroupsMultiset(rows, GroupLabels(rows)) == multiset(rows)
  {
    if |rows| > 0 {
      var n := |rows| - 1;
      var prev, r := rows[..n], rows[n];
      assert rows == prev + [r];
      var ls := GroupLabels(prev);
      var x := LabelOf(r);
      if x in ls {
        assert GroupLabels(rows) == ls by { GroupLabelsSnoc(prev, r); }
        assert GroupsMultiset(rows, ls) == GroupsMultiset(prev, ls) + multiset{r} by { GroupsMultisetSnoc(prev, r, ls); }
        assert GroupsMultiset(prev, ls) == multiset(prev) by { GroupsCoverRows(prev); }
      } else {
        var ls' := ls + [x];
        assert GroupLabels(rows) == ls' by { GroupLabelsSnoc(prev, r); }
        assert GroupsMultiset(rows, ls') == GroupsMultiset(rows, ls) + multiset(GroupOf(rows, x)) by { assert ls'[..|ls|] == ls; }
        assert GroupsMultiset(rows, ls) == GroupsMultiset(prev, ls) by { GroupsMultisetSnoc(prev, r, ls); }
        assert GroupOf(rows, x) == [r] by { AbsentGroupIsEmpty(prev, x); GroupOfSnoc(prev, r, x); }
        assert GroupsMultiset(prev, ls) == multiset(prev) by { GroupsCoverRows(prev); }
      }
      assert multiset(rows) == multiset(prev) + multiset{r};
    }
  }

  // ---------------------------------------------------------------- all groups

  /** The shuffled groups, one per label in order: each a rearrangement of its group. */
  predicate Shuffles(rows: seq<Row>, shuffled: seq<seq<Row>>) {
    var ls := GroupLabels(rows);
    |shuffled| == |ls| && forall i :: 0 <= i < |ls| ==> multiset(shuffled[i]) == multiset(GroupOf(rows, ls[i]))
  }

  function AllRows(groups: seq<seq<Row>>): multiset<Row> {
    if |groups| == 0 then multiset{} else AllRows(groups[..|groups| - 1]) + multiset(groups[|groups| - 1])
  }

  /** Lines 40-54: every group's slices appended to the three splits in group order; the
      splits together hold exactly the rows of the groups. */
  function SplitGroups(groups: seq<seq<Row>>): (s: Splits)
    ensures multiset(s.train) + multiset(s.val) + multiset(s.test) == AllRows(groups)
    ensures |groups| > 0 ==> var n := |groups| - 1; var prev := SplitGroups(groups[..n]); var part := SplitGroup(groups[n]);
      s == Splits(prev.train + part.train, prev.val + part.val, prev.test + part.test)
  {
    if |groups| == 0 then Splits([], [], [])
    else
      var n := |groups| - 1;
      var prev := SplitGroups(groups[..n]);
      var part := SplitGroup(groups[n]);
      assert multiset(part.train) + multiset(part.val) + multiset(part.test) == multiset(groups[n]) by {
        assert part.train + part.val + part.test == groups[n];
      }
      Splits(prev.train + part.train, prev.val + part.val, prev.test + part.test)
  }

  lemma {:induction false} ShufflesKeepRows(rows: seq<Row>, shuffled: seq<seq<Row>>, k: nat)
    requires Shuffles(rows, shuffled) && k <= |shuffled|
    ensures AllRows(shuffled[..k]) == GroupsMultiset(rows, GroupLabels(rows)[..k])
  {
    SameGroupsSameRows(rows, shuffled, GroupLabels(rows), k);
  }

  /** Groups that are permutations of the listed label groups hold the same rows. */
  lemma {:induction false} SameGroupsSameRows(rows: seq<Row>, groups: seq<seq<Row>>, ls: seq<string>, k: nat)
    requires |groups| == |ls| && k <= |ls|
    requires forall i :: 0 <= i < |ls| ==> multiset(groups[i]) == multiset(GroupOf(rows, ls[i]))
    ensures AllRows(groups[..k]) == GroupsMultiset(rows, ls[..k])
  {
    if k > 0 {
      SameGroupsSameRows(rows, groups, ls, k - 1);
      assert groups[..k][..k - 1] == groups[..k - 1];
      assert ls[..k][..k - 1] == ls[..k - 1];
      calc {
        AllRows(groups[..k]);
        AllRows(groups[..k - 1]) + multiset(groups[k - 1]);
        GroupsMultiset(rows, ls[..k - 1]) + multiset(GroupOf(rows, ls[k - 1]));
        GroupsMultiset(rows, ls[..k]);
      }
    }
  }

  /** The whole script after reading the table: it stops when the label column is missing;
      otherwise every row lands in exactly one of the three splits. */
  function SplitTable(headers: seq<string>, rows: seq<Row>, shuffled: seq<seq<Row>>): (r: Result<Splits, string>)
    requires Shuffles(rows, shuffled)
    ensures r.Failure? <==> LabelColumn !in headers
    ensures r.Success? ==> multiset(r.value.train) + multiset(r.value.val) + multiset(r.value.test) == multiset(rows)
    ensures r.Success? ==> |r.value.train| + |r.value.val| + |r.value.test| == |rows|
  {
    if LabelColumn !in headers then Failure("Missing required label column: " + LabelColumn)
    else
      var s := SplitGroups(shuffled);
      ShufflesKeepRows(rows, shuffled, |shuffled|);
      assert shuffled[..|shuffled|] == shuffled;
      assert GroupLabels(rows)[..|shuffled|] == GroupLabels(rows);
      GroupsCoverRows(rows);
      assert |multiset(s.train) + multiset(s.val) + multiset(s.test)| == |multiset(rows)|;
      Success(s)
  }

  // ---------------------------------------------------------------- per-label counts

  /** Sizes of the listed groups. */
  function GroupSizes(rows: seq<Row>, ls: seq<string>): nat {
    if |ls| == 0 then 0 else GroupSizes(rows, ls[..|ls| - 1]) + |GroupOf(rows, ls[|ls| - 1])|
  }

  lemma {:induction false} GroupSizesCount(rows: seq<Row>, ls: seq<string>)
    ensures GroupSizes(rows, ls) == |GroupsMultiset(rows, ls)|
  {
    if |ls| > 0 {
      GroupSizesCount(rows, ls[..|ls| - 1]);
    }
  }

  /** The per-label counts of a split's summary add up to the split's size. */
  lemma LabelCountsSumToSize(split: seq<Row>)
    ensures GroupSizes(split, GroupLabels(split)) == |split|
  {
    GroupSizesCount(split, GroupLabels(split));
    GroupsCoverRows(split);
  }
}
