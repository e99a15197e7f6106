/** The k-means training of scripts/train_clustering_baseline.rb: k-means++ seeding by
    distance-weighted draws, Lloyd iterations with reseeding of empty clusters, and the choice
    of the restart with the least inertia. Randomness is an abstract stream of draws in [0, 1). */
module KMeans {
  import opened Wrappers
  import Numbers
  import ClusteringModel

  /** `EPS`: the total weight below which the weighted draw falls back to a uniform one. */
  const Eps: real := 0.000000001

  /** A random source: the draw at position `pos` is the next value `rand` returns. */
  datatype Rng = Rng(draws: nat -> real, pos: nat)

  ghost predicate Valid(g: Rng) {
    forall i :: 0.0 <= g.draws(i) < 1.0
  }

  /** The next draw and the advanced source. */
  function Draw(g: Rng): (real, Rng) {
    (g.draws(g.pos), g.(pos := g.pos + 1))
  }

  lemma ScaleBelow(u: real, n: real)
    requires 0.0 <= u < 1.0 && n > 0.0
    ensures 0.0 <= u * n < n
  {
    assert n - u * n == (1.0 - u) * n;
  }

  /** The draw scaled by the total weight, which stays below the total. */
  function Threshold(u: real, total: real): (t: real)
    requires 0.0 <= u < 1.0 && total > 0.0
    ensures t == u * total && 0.0 <= t < total
  {
    ScaleBelow(u, total);
    u * total
  }

  /** `rng.rand(n)` for a positive integer: the integer part of a draw scaled by `n`. */
  function RandIndex(u: real, n: nat): (i: nat)
    requires 0.0 <= u < 1.0 && n > 0
    ensures i < n
  {
    var x := u * (n as real);
    ScaleBelow(u, n as real);
    assert x.Floor as real <= x < n as real;
    x.Floor
  }

  function RandBelow(g: Rng, n: nat): (r: (nat, Rng))
    requires Valid(g) && n > 0
    ensures r.0 < n && r.1 == g.(pos := g.pos + 1)
  {
    (RandIndex(g.draws(g.pos), n), g.(pos := g.pos + 1))
  }

  /** The running total of the weights up to and including index `j`. */
  function Running(weights: seq<real>, j: nat): real
    requires j < |weights|
  {
    Numbers.Sum(weights[..j + 1])
  }

  lemma RunningStep(weights: seq<real>, j: nat)
    requires j < |weights|
    ensures Running(weights, j) == if j == 0 then weights[0] else Running(weights, j - 1) + weights[j]
  {
    var s := weights[..j + 1];
    assert s[..j] == weights[..j];
    assert Numbers.Sum(s) == Numbers.Sum(s[..j]) + weights[j];
    if j == 0 {
      assert s[..j] == [];
    }
  }

  /** Index `idx` is the first whose running total reaches `threshold`. */
  predicate FirstReaching(weights: seq<real>, threshold: real, idx: nat) {
    idx < |weights| && Running(weights, idx) >= threshold
    && forall j :: 0 <= j < idx ==> Running(weights, j) < threshold
  }

  /** `choose_weighted_index`: with a total weight of at most EPS a uniform index; otherwise the
      first index whose running total reaches the draw scaled by the total. Either way one draw
      is used and the index is in range. */
  method ChooseWeightedIndex(weights: seq<real>, g: Rng) returns (idx: nat, g': Rng)
    requires |weights| > 0 && Valid(g)
    ensures idx < |weights|
    ensures g' == g.(pos := g.pos + 1)
    ensures Numbers.Sum(weights) <= Eps ==> idx == RandIndex(g.draws(g.pos), |weights|)
    ensures Numbers.Sum(weights) > Eps ==> FirstReaching(weights, g.draws(g.pos) * Numbers.Sum(weights), idx)
  {
    var total := Numbers.Sum(weights);
    var u := g.draws(g.pos);
    g' := g.(pos := g.pos + 1);
    if total <= Eps {
      idx := RandIndex(u, |weights|);
      return;
    }
    var threshold := Threshold(u, total);
    var running := weights[0];
    idx := 0;
    RunningStep(weights, 0);
    while idx < |weights| - 1 && running < threshold
      invariant 0 <= idx < |weights|
      invariant running == Running(weights, idx)
      invariant forall j :: 0 <= j < idx ==> Running(weights, j) < threshold
    {
      idx := idx + 1;
      RunningStep(weights, idx);
      running := running + weights[idx];
    }
    if idx == |weights| - 1 {
      assert weights[..|weights|] == weights;
      assert running == total;
    }
  }

  /** With non-negative weights and a non-zero draw, the weighted draw never picks a zero
      weight: every index it can return carries positive weight. */
  lemma {:induction false} ChosenWeightIsPositive(weights: seq<real>, u: real, idx: nat)
    requires forall i :: 0 <= i < |weights| ==> weights[i] >= 0.0
    requires 0.0 < u < 1.0 && Numbers.Sum(weights) > Eps
    requires FirstReaching(weights, u * Numbers.Sum(weights), idx)
    ensures weights[idx] > 0.0
  {
    var total := Numbers.Sum(weights);
    assert u * total > 0.0;
    RunningStep(weights, idx);
    if idx > 0 {
      assert Running(weights, idx - 1) < u * total;
    }
  }

  /** A vector that lies at a positive distance from its nearest centroid is not one of the
      centroids; this is why a positively weighted k-means++ draw adds a new centre. */
  lemma PositiveDistanceIsNewCentre(vector: seq<real>, centroids: seq<seq<real>>)
    requires |centroids| > 0
    requires ClusteringModel.NearestCentroid(vector, centroids).1.value > 0.0
    ensures vector !in centroids
  {
    if vector in centroids {
      var j :| 0 <= j < |centroids| && centroids[j] == vector;
      ClusteringModel.SqDistSelf(vector);
    }
  }

  /** `x` is the squared distance from `vector` to its nearest centre: no centre is closer,
      and one of them lies at that distance. */
  predicate IsNearestDistance(x: real, vector: seq<real>, centroids: seq<seq<real>>) {
    (forall j :: 0 <= j < |centroids| ==> x <= ClusteringModel.SqDist(vector, centroids[j]))
    && exists j :: 0 <= j < |centroids| && x == ClusteringModel.SqDist(vector, centroids[j])
  }

  /** The squared distance from a vector to its nearest centre. */
  function NearestDistance(vector: seq<real>, centroids: seq<seq<real>>): (d: real)
    requires |centroids| > 0
    ensures d >= 0.0
    ensures IsNearestDistance(d, vector, centroids)
  {
    var (j, d) := ClusteringModel.NearestCentroid(vector, centroids);
    assert d.value == ClusteringModel.SqDist(vector, centroids[j]);
    d.value
  }

  /** The distance of every vector to its nearest chosen centre: the k-means++ weights. */
  function NearestDistances(vectors: seq<seq<real>>, centroids: seq<seq<real>>): (d: seq<real>)
    requires |centroids| > 0
    ensures |d| == |vectors|
    ensures forall i :: 0 <= i < |d| ==> d[i] >= 0.0 && IsNearestDistance(d[i], vectors[i], centroids)
  {
    seq(|vectors|, i requires 0 <= i < |vectors| => NearestDistance(vectors[i], centroids))
  }

  /** The weighted draw with non-negative weights, a positive total and a non-zero draw picks
      an index of positive weight. */
  method PickPositive(weights: seq<real>, g: Rng) returns (idx: nat, g': Rng)
    requires |weights| > 0 && Valid(g)
    ensures idx < |weights| && g' == g.(pos := g.pos + 1)
    ensures (forall i :: 0 <= i < |weights| ==> weights[i] >= 0.0) && g.draws(g.pos) > 0.0 && Numbers.Sum(weights) > Eps
            ==> weights[idx] > 0.0
  {
    idx, g' := ChooseWeightedIndex(weights, g);
    if (forall i :: 0 <= i < |weights| ==> weights[i] >= 0.0) && g.draws(g.pos) > 0.0 && Numbers.Sum(weights) > Eps {
      ChosenWeightIsPositive(weights, g.draws(g.pos), idx);
    }
  }

  /** Whether the rows are, in total, further than EPS from the centres chosen so far. */
  predicate Spread(vectors: seq<seq<real>>, centroids: seq<seq<real>>)
    requires |centroids| > 0
  {
    Numbers.Sum(NearestDistances(vectors, centroids)) > Eps
  }

  /** One k-means++ step: a row drawn with probability weighted by its distance to the
      nearest centre chosen so far. A non-zero draw over a positive total never picks a row
      that already is a centre. */
  method NextCentre(vectors: seq<seq<real>>, centroids: seq<seq<real>>, g: Rng) returns (idx: nat, g': Rng)
    requires |vectors| > 0 && |centroids| > 0 && Valid(g)
    ensures idx < |vectors| && g' == g.(pos := g.pos + 1)
    ensures g.draws(g.pos) > 0.0 && Spread(vectors, centroids) ==> vectors[idx] !in centroids
  {
    var d := NearestDistances(vectors, centroids);
    idx, g' := PickPositive(d, g);
    if g.draws(g.pos) > 0.0 && Numbers.Sum(d) > Eps {
      assert d[idx] == ClusteringModel.NearestCentroid(vectors[idx], centroids).1.value;
      PositiveDistanceIsNewCentre(vectors[idx], centroids);
    }
  }

  /** `init_kmeans_pp`: a uniformly drawn first centre, then weighted draws until there are
      `k` centres (at least one); every centre is one of the input vectors. */
  method InitKMeansPlusPlus(vectors: seq<seq<real>>, k: nat, g: Rng) returns (centroids: seq<seq<real>>, g': Rng)
    requires |vectors| > 0 && Valid(g)
    ensures |centroids| == if k == 0 then 1 else k
    ensures forall i :: 0 <= i < |centroids| ==> centroids[i] in vectors
    ensures g' == g.(pos := g.pos + |centroids|)
  {
    var first := RandBelow(g, |vectors|);
    centroids := [vectors[first.0]];
    g' := first.1;
    while |centroids| < k
      invariant 0 < |centroids| <= if k == 0 then 1 else k
      invariant forall i :: 0 <= i < |centroids| ==> centroids[i] in vectors
      invariant g' == g.(pos := g.pos + |centroids|)
    {
      var idx, next := NextCentre(vectors, centroids, g');
      centroids := centroids + [vectors[idx]];
      g' := next;
    }
  }

  // ---------------------------------------------------------------- Lloyd iterations

  /** The cluster index of an unassigned row: Ruby's `-1`, which indexes the last centroid. */
  const Unassigned: int := -1

  /** Ruby's `centroids[a]`, where a negative index counts from the end. */
  function CentroidAt(centroids: seq<seq<real>>, a: int): seq<real>
    requires -|centroids| <= a < |centroids|
  {
    if a < 0 then centroids[|centroids| + a] else centroids[a]
  }

  predicate InRange(assignments: seq<int>, k: nat) {
    forall i :: 0 <= i < |assignments| ==> 0 <= assignments[i] < k
  }

  /** The assignment step: every row goes to its nearest centroid, the first one on ties. */
  function Assign(vectors: seq<seq<real>>, centroids: seq<seq<real>>): (a: seq<int>)
    requires |centroids| > 0
    ensures |a| == |vectors| && InRange(a, |centroids|)
    ensures forall i, j :: 0 <= i < |a| && 0 <= j < |centroids| ==>
      ClusteringModel.SqDist(vectors[i], centroids[a[i]]) <= ClusteringModel.SqDist(vectors[i], centroids[j])
    ensures forall i, j :: 0 <= i < |a| && 0 <= j < a[i] ==>
      ClusteringModel.SqDist(vectors[i], centroids[a[i]]) < ClusteringModel.SqDist(vectors[i], centroids[j])
  {
    seq(|vectors|, i requires 0 <= i < |vectors| => ClusteringModel.NearestCentroid(vectors[i], centroids).0 as int)
  }

  /** The total squared distance of the rows to the centroids they are assigned to. */
  function Inertia(vectors: seq<seq<real>>, centroids: seq<seq<real>>, assignments: seq<int>): (r: real)
    requires |assignments| == |vectors|
    requires forall i :: 0 <= i < |assignments| ==> -|centroids| <= assignments[i] < |centroids|
    ensures r >= 0.0
  {
    if |vectors| == 0 then 0.0
    else
      var n := |vectors| - 1;
      Inertia(vectors[..n], centroids, assignments[..n]) + ClusteringModel.SqDist(vectors[n], CentroidAt(centroids, assignments[n]))
  }

  /** Re-assigning every row to its nearest centroid never increases the inertia. */
  lemma {:induction false} AssignMinimisesInertia(vectors: seq<seq<real>>, centroids: seq<seq<real>>, assignments: seq<int>)
    requires |centroids| > 0 && |assignments| == |vectors| && InRange(assignments, |centroids|)
    ensures Inertia(vectors, centroids, Assign(vectors, centroids)) <= Inertia(vectors, centroids, assignments)
  {
    if |vectors| > 0 {
      var n := |vectors| - 1;
      var a := Assign(vectors, centroids);
      assert Assign(vectors[..n], centroids) == a[..n];
      AssignMinimisesInertia(vectors[..n], centroids, assignments[..n]);
    }
  }

  /** The indices of the rows assigned to cluster `c`, in order. */
  function Members(assignments: seq<int>, c: int): (m: seq<nat>)
    ensures |m| <= |assignments|
    ensures forall j :: 0 <= j < |m| ==> m[j] < |assignments| && assignments[m[j]] == c
    ensures forall i :: 0 <= i < |assignments| && assignments[i] == c ==> i in m
    ensures forall j, j' :: 0 <= j < j' < |m| ==> m[j] < m[j']
  {
    if |assignments| == 0 then []
    else
      var n := |assignments| - 1;
      var m := Members(assignments[..n], c);
      assert forall i :: 0 <= i < n ==> assignments[..n][i] == assignments[i];
      if assignments[n] == c then m + [n] else m
  }

  /** Coordinate `dim` of the given rows. */
  function Column(vectors: seq<seq<real>>, members: seq<nat>, dim: nat): (col: seq<real>)
    requires forall j :: 0 <= j < |members| ==> members[j] < |vectors|
    ensures |col| == |members|
    ensures forall j :: 0 <= j < |members| ==> col[j] == Numbers.At(vectors[members[j]], dim)
  {
    seq(|members|, j requires 0 <= j < |members| => Numbers.At(vectors[members[j]], dim))
  }

  /** `sum / count` for one coordinate of a non-empty cluster: it lies between the least and
      the greatest member value. */
  function MeanCoordinate(col: seq<real>): (c: real)
    requires |col| > 0
    ensures Numbers.Min(col) <= c <= Numbers.Max(col)
  {
    Numbers.Mean(col).value
  }

  /** The centre of a non-empty cluster, coordinate by coordinate. */
  function MeanCentroid(vectors: seq<seq<real>>, members: seq<nat>, d: nat): (centre: seq<real>)
    requires |members| > 0 && forall j :: 0 <= j < |members| ==> members[j] < |vectors|
    ensures |centre| == d
    ensures forall dim :: 0 <= dim < d ==> centre[dim] == MeanCoordinate(Column(vectors, members, dim))
  {
    seq(d, dim requires 0 <= dim < d => MeanCoordinate(Column(vectors, members, dim)))
  }

  /** The update step: each non-empty cluster moves to the mean of its rows, in cluster order;
      each empty one is reseeded with a drawn row. */
  method UpdateCentroids(vectors: seq<seq<real>>, assignments: seq<int>, centroids: seq<seq<real>>, g: Rng)
    returns (next: seq<seq<real>>, g': Rng)
    requires |vectors| > 0 && |assignments| == |vectors| && Valid(g)
    ensures |next| == |centroids|
    ensures forall c :: 0 <= c < |next| && |Members(assignments, c)| > 0 ==>
      next[c] == MeanCentroid(vectors, Members(assignments, c), |vectors[0]|)
    ensures forall c :: 0 <= c < |next| && |Members(assignments, c)| == 0 ==> next[c] in vectors
    ensures g'.draws == g.draws && g'.pos >= g.pos
  {
    next := centroids;
    g' := g;
    var c := 0;
    while c < |centroids|
      invariant 0 <= c <= |centroids| && |next| == |centroids|
      invariant forall e :: 0 <= e < c && |Members(assignments, e)| > 0 ==>
        next[e] == MeanCentroid(vectors, Members(assignments, e), |vectors[0]|)
      invariant forall e :: 0 <= e < c && |Members(assignments, e)| == 0 ==> next[e] in vectors
      invariant g'.draws == g.draws && g'.pos >= g.pos
    {
      var members := Members(assignments, c);
      if |members| == 0 {
        var pick := RandBelow(g', |vectors|);
        next := next[c := vectors[pick.0]];
        g' := pick.1;
      } else {
        next := next[c := MeanCentroid(vectors, members, |vectors[0]|)];
      }
      c := c + 1;
    }
  }

  /** One restart's outcome. */
  datatype Clustering = Clustering(centroids: seq<seq<real>>, assignments: seq<int>, inertia: real)

  predicate WellFormed(r: Clustering, n: nat) {
    |r.centroids| > 0 && |r.assignments| == n
    && (forall i :: 0 <= i < n ==> -|r.centroids| <= r.assignments[i] < |r.centroids|)
  }

  /** One restart of `run_kmeans`: seeding, then up to `maxIters` Lloyd iterations that stop
      early once no row changes cluster, then the inertia of the result. With at least one
      iteration every row carries a cluster in [0, k); with none, every row is still unassigned.
      A converged restart has every row at its nearest centroid. */
  method Restart(vectors: seq<seq<real>>, k: nat, maxIters: nat, g: Rng) returns (r: Clustering, converged: bool, g': Rng)
    requires |vectors| > 0 && k > 0 && Valid(g)
    ensures WellFormed(r, |vectors|) && |r.centroids| == k
    ensures r.inertia == Inertia(vectors, r.centroids, r.assignments)
    ensures maxIters > 0 ==> InRange(r.assignments, k)
    ensures maxIters == 0 ==> forall i :: 0 <= i < |vectors| ==> r.assignments[i] == Unassigned
    ensures converged ==> r.assignments == Assign(vectors, r.centroids)
    ensures g'.draws == g.draws
  {
    var centroids;
    centroids, g' := InitKMeansPlusPlus(vectors, k, g);
    var assignments := seq(|vectors|, i => Unassigned);
    var it := 0;
    converged := false;
    while it < maxIters && !converged
      invariant 0 <= it <= maxIters && |centroids| == k && |assignments| == |vectors|
      invariant it == 0 ==> forall i :: 0 <= i < |vectors| ==> assignments[i] == Unassigned
      invariant it > 0 ==> InRange(assignments, k)
      invariant converged ==> assignments == Assign(vectors, centroids)
      invariant g'.draws == g.draws
      invariant Valid(g')
    {
      var nearest := Assign(vectors, centroids);
      if nearest == assignments {
        converged := true;
      } else {
        assignments := nearest;
        centroids, g' := UpdateCentroids(vectors, assignments, centroids, g');
      }
      it := it + 1;
    }
    r := Clustering(centroids, assignments, Inertia(vectors, centroids, assignments));
  }

  /** `run_kmeans`: `nInit` restarts on one random stream, keeping the first restart of least
      inertia; nil when there are no restarts. */
  method RunKMeans(vectors: seq<seq<real>>, k: nat, nInit: nat, maxIters: nat, g: Rng)
    returns (best: Option<Clustering>, inertias: seq<real>, bestRestart: nat)
    requires |vectors| > 0 && k > 0 && Valid(g)
    ensures |inertias| == nInit
    ensures best.None? <==> nInit == 0
    ensures best.Some? ==> (WellFormed(best.value, |vectors|) && |best.value.centroids| == k
      && best.value.inertia == Inertia(vectors, best.value.centroids, best.value.assignments)
      && (maxIters > 0 ==> InRange(best.value.assignments, k)))
    ensures best.Some? ==> (bestRestart < nInit && best.value.inertia == inertias[bestRestart]
      && (forall j :: 0 <= j < nInit ==> inertias[bestRestart] <= inertias[j])
      && (forall j :: 0 <= j < bestRestart ==> inertias[j] > inertias[bestRestart]))
  {
    var rng := g;
    best := None;
    inertias := [];
    bestRestart := 0;
    while |inertias| < nInit
      invariant |inertias| <= nInit
      invariant best.None? <==> |inertias| == 0
      invariant rng.draws == g.draws && Valid(rng)
      invariant best.Some? ==> (WellFormed(best.value, |vectors|) && |best.value.centroids| == k
        && best.value.inertia == Inertia(vectors, best.value.centroids, best.value.assignments)
        && (maxIters > 0 ==> InRange(best.value.assignments, k)))
      invariant best.Some? ==> (bestRestart < |inertias| && best.value.inertia == inertias[bestRestart]
        && (forall j :: 0 <= j < |inertias| ==> inertias[bestRestart] <= inertias[j])
        && (forall j :: 0 <= j < bestRestart ==> inertias[j] > inertias[bestRestart]))
    {
      var candidate, converged;
      candidate, converged, rng := Restart(vectors, k, maxIters, rng);
      if best.None? || candidate.inertia < best.value.inertia {
        best := Some(candidate);
        bestRestart := |inertias|;
      }
      inertias := inertias + [candidate.inertia];
    }
  }
}
