/** The bookkeeping around the clustering algorithms
    (packages/ml_core/clustering.py). HDBSCAN and KMeans themselves are
    oracles: their labels (and HDBSCAN's membership probabilities, KMeans'
    cluster centres) are inputs. Embedding dictionaries are sequences of
    (prompt id, vector) pairs with distinct ids. */
module MlClustering {
  import opened Wrappers
  import opened Vectors
  import opened PyDict
  import opened PyLists
  import opened Grouping

  /** What `fit_predict` and the fitted HDBSCAN model yield. */
  datatype HdbscanRun = HdbscanRun(labels: seq<int>, probabilities: Option<seq<real>>)

  /** What `fit_predict` and the fitted KMeans model yield. */
  datatype KMeansRun = KMeansRun(labels: seq<int>, centers: seq<Vec>)

  /** The three dictionaries both clusterings return. */
  datatype Clustering = Clustering(
    promptToCluster: seq<(string, int)>,
    clusterToPrompts: seq<(int, seq<string>)>,
    promptToConfidence: seq<(string, real)>)

  /** HDBSCAN's label for noise. */
  const Noise: int := -1

  /** All embeddings have one dimension, so `np.array` builds a matrix. */
  ghost predicate SameDimension(embeddings: seq<(string, Vec)>) {
    forall i, j | 0 <= i < |embeddings| && 0 <= j < |embeddings| :: |embeddings[i].1| == |embeddings[j].1|
  }

  lemma UniformOfValues(embeddings: seq<(string, Vec)>, vs: seq<Vec>)
    requires SameDimension(embeddings)
    requires forall v | v in vs :: v in Values(embeddings)
    ensures Uniform(vs)
  {
    forall i | 0 <= i < |vs| ensures |vs[i]| == |vs[0]| {
      assert vs[i] in Values(embeddings) && vs[0] in Values(embeddings);
    }
  }

  /** `normalize(..., norm='l2')` on one row: divided by its norm, a zero
      row left as it is. The norm is a parameter. */
  function Normalize(v: Vec, norm: Vec -> real): (r: Vec)
    ensures |r| == |v|
  {
    if norm(v) == 0.0 then v else seq(|v|, i requires 0 <= i < |v| => v[i] / norm(v))
  }

  function NormalizedRows(embeddings: seq<(string, Vec)>, norm: Vec -> real): (rows: seq<Vec>)
    ensures |rows| == |embeddings|
    ensures forall i | 0 <= i < |embeddings| :: rows[i] == Normalize(embeddings[i].1, norm)
  {
    seq(|embeddings|, i requires 0 <= i < |embeddings| => Normalize(embeddings[i].1, norm))
  }

  /** `matrix[labels == l]`: the rows whose label is `l`, in order. */
  function RowsWithLabel(rows: seq<Vec>, labels: seq<int>, l: int): (r: seq<Vec>)
    requires |rows| == |labels|
    ensures forall v | v in r :: v in rows
    decreases |rows|
  {
    if rows == [] then []
    else
      var n := |rows| - 1;
      RowsWithLabel(rows[..n], labels[..n], l) + if labels[n] == l then [rows[n]] else []
  }

  lemma {:induction false} RowsWithLabelHas(rows: seq<Vec>, labels: seq<int>, i: nat)
    requires |rows| == |labels| && i < |rows|
    ensures rows[i] in RowsWithLabel(rows, labels, labels[i])
    decreases |rows|
  {
    var n := |rows| - 1;
    if i < n {
      RowsWithLabelHas(rows[..n], labels[..n], i);
    }
  }

  /** Rows sharing a label with a row of a matrix share its dimension. */
  lemma RowsWithLabelUniform(rows: seq<Vec>, labels: seq<int>, i: nat)
    requires |rows| == |labels| && i < |rows|
    requires forall a, b | 0 <= a < |rows| && 0 <= b < |rows| :: |rows[a]| == |rows[b]|
    ensures RowsWithLabel(rows, labels, labels[i]) != []
    ensures Uniform(RowsWithLabel(rows, labels, labels[i]))
  {
    var cluster := RowsWithLabel(rows, labels, labels[i]);
    RowsWithLabelHas(rows, labels, i);
    forall v | v in cluster ensures |v| == |cluster[0]| {
      assert cluster[0] in rows;
    }
  }

  // ---------------------------------------------------------------------
  // Grouping by label

  /** The prompt ids whose label is `l`, in input order. */
  function Members(ids: seq<string>, labels: seq<int>, l: int): seq<string>
    requires |ids| == |labels|
    decreases |ids|
  {
    if ids == [] then []
    else
      var n := |ids| - 1;
      Members(ids[..n], labels[..n], l) + if labels[n] == l then [ids[n]] else []
  }

  /** The (label, prompt id) pairs the grouping loop appends: noise skipped. */
  function NonNoise(ids: seq<string>, labels: seq<int>): (pairs: seq<(int, string)>)
    requires |ids| == |labels|
    decreases |ids|
  {
    if ids == [] then []
    else
      var n := |ids| - 1;
      NonNoise(ids[..n], labels[..n]) + if labels[n] != Noise then [(labels[n], ids[n])] else []
  }

  lemma NonNoiseStep(ids: seq<string>, labels: seq<int>, i: nat)
    requires |ids| == |labels| && i < |ids|
    ensures NonNoise(ids[..i + 1], labels[..i + 1])
         == NonNoise(ids[..i], labels[..i]) + if labels[i] != Noise then [(labels[i], ids[i])] else []
  {
    assert ids[..i + 1][..i] == ids[..i];
    assert labels[..i + 1][..i] == labels[..i];
  }

  lemma {:induction false} NonNoiseKeys(ids: seq<string>, labels: seq<int>, l: int)
    requires |ids| == |labels|
    ensures l in Keys(NonNoise(ids, labels)) <==> l != Noise && l in labels
    decreases |ids|
  {
    if ids != [] {
      var n := |ids| - 1;
      NonNoiseKeys(ids[..n], labels[..n], l);
      var p := NonNoise(ids[..n], labels[..n]);
      var tail: seq<(int, string)> := if labels[n] != Noise then [(labels[n], ids[n])] else [];
      assert NonNoise(ids, labels) == p + tail;
      assert Keys(p + tail) == Keys(p) + Keys(tail);
      assert Keys(tail) == if labels[n] != Noise then [labels[n]] else [];
      assert labels == labels[..n] + [labels[n]];
      assert l in labels <==> l in labels[..n] || l == labels[n];
    }
  }

  lemma {:induction false} NonNoiseSelect(ids: seq<string>, labels: seq<int>, l: int)
    requires |ids| == |labels| && l != Noise
    ensures Select(NonNoise(ids, labels), l) == Members(ids, labels, l)
    decreases |ids|
  {
    if ids != [] {
      var n := |ids| - 1;
      NonNoiseSelect(ids[..n], labels[..n], l);
      var p := NonNoise(ids[..n], labels[..n]);
      if labels[n] != Noise {
        var pairs := p + [(labels[n], ids[n])];
        assert NonNoise(ids, labels) == pairs;
        assert pairs[..|pairs| - 1] == p;
        assert Select(pairs, l) == Select(p, l) + if labels[n] == l then [ids[n]] else [];
      } else {
        assert NonNoise(ids, labels) == p + [];
        assert p + [] == p;
      }
    }
  }

  /** The cluster dictionary of a labelling: noise is never a key; every
      other label that occurs maps to exactly the ids with that label, in
      input order. */
  lemma ClustersSpec(ids: seq<string>, labels: seq<int>)
    requires |ids| == |labels|
    ensures DistinctKeys(GroupBy(NonNoise(ids, labels)))
    ensures Noise !in Keys(GroupBy(NonNoise(ids, labels)))
    ensures forall l :: Get(GroupBy(NonNoise(ids, labels)), l)
                     == if l != Noise && l in labels then Some(Members(ids, labels, l)) else None
  {
    var pairs := NonNoise(ids, labels);
    GroupByKeys(pairs);
    forall l ensures Get(GroupBy(pairs), l) == if l != Noise && l in labels then Some(Members(ids, labels, l)) else None {
      GroupByGet(pairs, l);
      NonNoiseKeys(ids, labels, l);
      if l != Noise {
        NonNoiseSelect(ids, labels, l);
      }
    }
    GroupByGet(pairs, Noise);
    NonNoiseKeys(ids, labels, Noise);
  }

  /** With distinct ids, an id is in exactly one member list: its label's;
      and no member list repeats an id. */
  lemma {:induction false} MembersSpec(ids: seq<string>, labels: seq<int>, l: int)
    requires |ids| == |labels| && NoDuplicates(ids)
    ensures forall x | x in Members(ids, labels, l) :: x in ids
    ensures NoDuplicates(Members(ids, labels, l))
    ensures forall i | 0 <= i < |ids| :: ids[i] in Members(ids, labels, l) <==> labels[i] == l
    decreases |ids|
  {
    if ids != [] {
      var n := |ids| - 1;
      var p := ids[..n];
      assert NoDuplicates(p);
      MembersSpec(p, labels[..n], l);
      var m := Members(p, labels[..n], l);
      var tail := if labels[n] == l then [ids[n]] else [];
      assert Members(ids, labels, l) == m + tail;
      assert ids[n] !in p;
      assert ids[n] !in m;
      forall i | 0 <= i < |ids| ensures ids[i] in m + tail <==> labels[i] == l {
        if i < n {
          assert ids[i] == p[i] && ids[i] != ids[n];
        }
      }
    }
  }

  // ---------------------------------------------------------------------
  // The shared loop state

  /** The state after the loop has handled the first `n` prompts: one entry
      per prompt holding its label, the clusters grouping the non-noise
      prompts, one entry per prompt holding its confidence. */
  ghost predicate LoopState(ids: seq<string>, labels: seq<int>, confidences: seq<real>, n: nat,
                            promptToCluster: seq<(string, int)>, clusterToPrompts: seq<(int, seq<string>)>,
                            promptToConfidence: seq<(string, real)>)
    requires |ids| == |labels| == |confidences| && n <= |ids|
  {
    && promptToCluster == Zip(ids[..n], labels[..n])
    && clusterToPrompts == GroupBy(NonNoise(ids[..n], labels[..n]))
    && promptToConfidence == Zip(ids[..n], confidences[..n])
  }

  lemma LoopStep(ids: seq<string>, labels: seq<int>, confidences: seq<real>, n: nat,
                 promptToCluster: seq<(string, int)>, clusterToPrompts: seq<(int, seq<string>)>,
                 promptToConfidence: seq<(string, real)>)
    requires |ids| == |labels| == |confidences| && n < |ids| && NoDuplicates(ids)
    requires LoopState(ids, labels, confidences, n, promptToCluster, clusterToPrompts, promptToConfidence)
    ensures LoopState(ids, labels, confidences, n + 1,
                      Put(promptToCluster, ids[n], labels[n]),
                      if labels[n] != Noise then AddTo(clusterToPrompts, labels[n], ids[n]) else clusterToPrompts,
                      Put(promptToConfidence, ids[n], confidences[n]))
  {
    assert ids[n] !in ids[..n];
    PutNew(promptToCluster, ids[n], labels[n]);
    PutNew(promptToConfidence, ids[n], confidences[n]);
    ZipSnoc(ids, labels, n);
    ZipSnoc(ids, confidences, n);
    NonNoiseStep(ids, labels, n);
    if labels[n] != Noise {
      GroupBySnoc(NonNoise(ids[..n], labels[..n]), (labels[n], ids[n]));
    } else {
      assert NonNoise(ids[..n + 1], labels[..n + 1]) == NonNoise(ids[..n], labels[..n]);
    }
  }

  lemma LoopDone(ids: seq<string>, labels: seq<int>, confidences: seq<real>,
                 promptToCluster: seq<(string, int)>, clusterToPrompts: seq<(int, seq<string>)>,
                 promptToConfidence: seq<(string, real)>)
    requires |ids| == |labels| == |confidences|
    requires LoopState(ids, labels, confidences, |ids|, promptToCluster, clusterToPrompts, promptToConfidence)
    ensures Clustering(promptToCluster, clusterToPrompts, promptToConfidence)
         == Clustering(Zip(ids, labels), GroupBy(NonNoise(ids, labels)), Zip(ids, confidences))
  {
    assert ids[..|ids|] == ids && labels[..|ids|] == labels && confidences[..|ids|] == confidences;
  }

  // ---------------------------------------------------------------------
  // HDBSCAN

  /** The confidence HDBSCAN's post-processing gives prompt `idx`: 0.0 for
      noise; the model's probability when there is one for that position;
      otherwise the similarity of the normalised row to the mean of the
      normalised rows with the same label. */
  function HdbscanConfidence(embeddings: seq<(string, Vec)>, run: HdbscanRun, norm: Vec -> real,
                             sim: (Vec, Vec) -> real, idx: nat): real
    requires SameDimension(embeddings) && |run.labels| == |embeddings| && idx < |embeddings|
  {
    var clusterLabel := run.labels[idx];
    if clusterLabel == Noise then 0.0
    else if run.probabilities.Some? && |run.probabilities.value| > idx then run.probabilities.value[idx]
    else
      var rows := NormalizedRows(embeddings, norm);
      RowsWithLabelUniform(rows, run.labels, idx);
      sim(rows[idx], MeanVec(RowsWithLabel(rows, run.labels, clusterLabel)))
  }

  function HdbscanConfidences(embeddings: seq<(string, Vec)>, run: HdbscanRun, norm: Vec -> real,
                              sim: (Vec, Vec) -> real): (cs: seq<real>)
    requires SameDimension(embeddings) && |run.labels| == |embeddings|
    ensures |cs| == |embeddings|
    ensures forall i | 0 <= i < |embeddings| :: cs[i] == HdbscanConfidence(embeddings, run, norm, sim, i)
  {
    seq(|embeddings|, i requires 0 <= i < |embeddings| => HdbscanConfidence(embeddings, run, norm, sim, i))
  }

  /** What `cluster_hdbscan` returns: three empty dictionaries for fewer than
      two embeddings; otherwise every prompt with its label, the clusters of
      the non-noise prompts, and every prompt with its confidence. */
  function HdbscanResult(embeddings: seq<(string, Vec)>, run: HdbscanRun, norm: Vec -> real,
                         sim: (Vec, Vec) -> real): Clustering
    requires SameDimension(embeddings)
    requires |embeddings| >= 2 ==> |run.labels| == |embeddings|
  {
    if |embeddings| < 2 then Clustering([], [], [])
    else
      var ids := Keys(embeddings);
      Clustering(Zip(ids, run.labels), GroupBy(NonNoise(ids, run.labels)),
                 Zip(ids, HdbscanConfidences(embeddings, run, norm, sim)))
  }

  /** `cluster_hdbscan`'s post-processing of the labels. */
  method ClusterHdbscan(embeddings: seq<(string, Vec)>, run: HdbscanRun, norm: Vec -> real, sim: (Vec, Vec) -> real)
    returns (r: Clustering)
    requires DistinctKeys(embeddings) && SameDimension(embeddings)
    requires |embeddings| >= 2 ==> |run.labels| == |embeddings|
    ensures r == HdbscanResult(embeddings, run, norm, sim)
  {
    if |embeddings| < 2 {
      return Clustering([], [], []);
    }
    var ids := Keys(embeddings);
    KeysDistinct(embeddings);
    var labels := run.labels;
    ghost var confidences := HdbscanConfidences(embeddings, run, norm, sim);
    var promptToCluster: seq<(string, int)> := [];
    var clusterToPrompts: seq<(int, seq<string>)> := [];
    var promptToConfidence: seq<(string, real)> := [];
    var idx := 0;
    while idx < |embeddings|
      invariant 0 <= idx <= |embeddings|
      invariant LoopState(ids, labels, confidences, idx, promptToCluster, clusterToPrompts, promptToConfidence)
    {
      LoopStep(ids, labels, confidences, idx, promptToCluster, clusterToPrompts, promptToConfidence);
      promptToCluster, clusterToPrompts, promptToConfidence :=
        HdbscanPrompt(embeddings, run, norm, sim, idx, promptToCluster, clusterToPrompts, promptToConfidence);
      idx := idx + 1;
    }
    LoopDone(ids, labels, confidences, promptToCluster, clusterToPrompts, promptToConfidence);
    r := Clustering(promptToCluster, clusterToPrompts, promptToConfidence);
  }

  /** The body of the loop of `cluster_hdbscan` for prompt `idx`: its label,
      its cluster unless it is noise, and its confidence. */
  method HdbscanPrompt(embeddings: seq<(string, Vec)>, run: HdbscanRun, norm: Vec -> real,
                       sim: (Vec, Vec) -> real, idx: nat, promptToCluster: seq<(string, int)>,
                       clusterToPrompts: seq<(int, seq<string>)>, promptToConfidence: seq<(string, real)>)
    returns (promptToCluster': seq<(string, int)>, clusterToPrompts': seq<(int, seq<string>)>,
             promptToConfidence': seq<(string, real)>)
    requires SameDimension(embeddings) && |run.labels| == |embeddings| && idx < |embeddings|
    ensures var promptId, clusterLabel := embeddings[idx].0, run.labels[idx];
            && promptToCluster' == Put(promptToCluster, promptId, clusterLabel)
            && clusterToPrompts' == (if clusterLabel != Noise then AddTo(clusterToPrompts, clusterLabel, promptId)
                                     else clusterToPrompts)
            && promptToConfidence' == Put(promptToConfidence, promptId, HdbscanConfidence(embeddings, run, norm, sim, idx))
  {
    var promptId, clusterLabel := embeddings[idx].0, run.labels[idx];
    var confidence := HdbscanConfidence(embeddings, run, norm, sim, idx);
    clusterToPrompts' := clusterToPrompts;
    if clusterLabel != Noise {
      promptToCluster' := Put(promptToCluster, promptId, clusterLabel);
      clusterToPrompts' := Append(clusterToPrompts, clusterLabel, promptId);
    } else {
      promptToCluster' := Put(promptToCluster, promptId, Noise);
    }
    promptToConfidence' := Put(promptToConfidence, promptId, confidence);
  }

  /** Every prompt gets an entry in both per-prompt dictionaries; a noise
      prompt has label -1 and confidence 0.0; the cluster dictionary never
      has the key -1 and lists each non-noise prompt under its label. */
  lemma HdbscanResultSpec(embeddings: seq<(string, Vec)>, run: HdbscanRun, norm: Vec -> real, sim: (Vec, Vec) -> real)
    requires DistinctKeys(embeddings) && SameDimension(embeddings)
    requires |embeddings| >= 2 ==> |run.labels| == |embeddings|
    ensures var r := HdbscanResult(embeddings, run, norm, sim);
            |embeddings| >= 2 ==>
              && Keys(r.promptToCluster) == Keys(embeddings)
              && Keys(r.promptToConfidence) == Keys(embeddings)
              && (forall i | 0 <= i < |embeddings| && run.labels[i] == Noise ::
                    r.promptToCluster[i].1 == Noise && r.promptToConfidence[i].1 == 0.0)
              && Noise !in Keys(r.clusterToPrompts)
              && (forall i | 0 <= i < |embeddings| && run.labels[i] != Noise ::
                    embeddings[i].0 in Get(r.clusterToPrompts, run.labels[i]).GetOr([]))
  {
    if |embeddings| >= 2 {
      var ids := Keys(embeddings);
      ClustersSpec(ids, run.labels);
      KeysDistinct(embeddings);
      forall i | 0 <= i < |embeddings| && run.labels[i] != Noise
        ensures embeddings[i].0 in Get(HdbscanResult(embeddings, run, norm, sim).clusterToPrompts, run.labels[i]).GetOr([])
      {
        assert run.labels[i] in run.labels;
        MembersSpec(ids, run.labels, run.labels[i]);
      }
    }
  }

  // ---------------------------------------------------------------------
  // KMeans

  /** `np.max` of a non-empty list. */
  function MaxOf(xs: seq<real>): (m: real)
    requires xs != []
    ensures forall i | 0 <= i < |xs| :: xs[i] <= m
    ensures m in xs
    decreases |xs|
  {
    if |xs| == 1 then xs[0]
    else
      var p := MaxOf(xs[..|xs| - 1]);
      assert p in xs[..|xs| - 1];
      if xs[|xs| - 1] > p then xs[|xs| - 1] else p
  }

  /** `max(0.0, min(1.0, x))`. */
  function Clamp(x: real): (c: real)
    ensures 0.0 <= c <= 1.0
    ensures 0.0 <= x <= 1.0 ==> c == x
  {
    if 1.0 < x then 1.0 else if x < 0.0 then 0.0 else x
  }

  /** The distance of each row to a centre. */
  function Distances(rows: seq<Vec>, center: Vec, dist: (Vec, Vec) -> real): (ds: seq<real>)
    ensures |ds| == |rows|
    ensures forall i | 0 <= i < |rows| :: ds[i] == dist(rows[i], center)
  {
    seq(|rows|, i requires 0 <= i < |rows| => dist(rows[i], center))
  }

  /** Labels in range of the centres: what a fitted KMeans guarantees. */
  ghost predicate ValidKMeansRun(embeddings: seq<(string, Vec)>, run: KMeansRun) {
    |run.labels| == |embeddings| && forall i | 0 <= i < |run.labels| :: 0 <= run.labels[i] < |run.centers|
  }

  /** The largest distance of a member of prompt `idx`'s cluster to the
      cluster's centre; the prompt's own distance is among them. */
  function ClusterMaxDistance(embeddings: seq<(string, Vec)>, run: KMeansRun, dist: (Vec, Vec) -> real, idx: nat): (m: real)
    requires ValidKMeansRun(embeddings, run) && idx < |embeddings|
    ensures dist(embeddings[idx].1, run.centers[run.labels[idx]]) <= m
  {
    var center := run.centers[run.labels[idx]];
    var rows := RowsWithLabel(Values(embeddings), run.labels, run.labels[idx]);
    RowsWithLabelHas(Values(embeddings), run.labels, idx);
    var ds := Distances(rows, center, dist);
    var j :| 0 <= j < |rows| && rows[j] == embeddings[idx].1;
    assert ds[j] == dist(embeddings[idx].1, center);
    MaxOf(ds)
  }

  /** The KMeans confidence of prompt `idx`: one minus its distance to its
      centre relative to the largest such distance in its cluster (1.0 when
      that is not positive), clamped into [0, 1]. The distance is a
      parameter. */
  function KMeansConfidence(embeddings: seq<(string, Vec)>, run: KMeansRun, dist: (Vec, Vec) -> real, idx: nat): (c: real)
    requires ValidKMeansRun(embeddings, run) && idx < |embeddings|
    ensures 0.0 <= c <= 1.0
  {
    var distance := dist(embeddings[idx].1, run.centers[run.labels[idx]]);
    var maxDistance := ClusterMaxDistance(embeddings, run, dist, idx);
    var confidence := if maxDistance > 0.0 then 1.0 - distance / maxDistance else 1.0;
    Clamp(confidence)
  }

  /** For a true distance (never negative) the clamp changes nothing: the
      prompt's own distance is at most the largest in its cluster, so the
      unclamped value already lies in [0, 1]. */
  lemma KMeansConfidenceUnclamped(embeddings: seq<(string, Vec)>, run: KMeansRun, dist: (Vec, Vec) -> real, idx: nat)
    requires ValidKMeansRun(embeddings, run) && idx < |embeddings|
    requires forall a, b :: dist(a, b) >= 0.0
    ensures var distance := dist(embeddings[idx].1, run.centers[run.labels[idx]]);
            var maxDistance := ClusterMaxDistance(embeddings, run, dist, idx);
            KMeansConfidence(embeddings, run, dist, idx)
              == if maxDistance > 0.0 then 1.0 - distance / maxDistance else 1.0
  {
    var distance := dist(embeddings[idx].1, run.centers[run.labels[idx]]);
    var maxDistance := ClusterMaxDistance(embeddings, run, dist, idx);
    if maxDistance > 0.0 {
      assert 0.0 <= distance <= maxDistance;
      DivAtMostOne(distance, maxDistance);
    }
  }

  lemma DivAtMostOne(x: real, y: real)
    requires 0.0 <= x <= y && 0.0 < y
    ensures 0.0 <= x / y <= 1.0
  {
    assert x / y * y == x;
    DivSign(x / y, y);
    DivSign(1.0 - x / y, y);
  }

  function KMeansConfidences(embeddings: seq<(string, Vec)>, run: KMeansRun, dist: (Vec, Vec) -> real): (cs: seq<real>)
    requires ValidKMeansRun(embeddings, run)
    ensures |cs| == |embeddings|
    ensures forall i | 0 <= i < |embeddings| :: cs[i] == KMeansConfidence(embeddings, run, dist, i)
  {
    seq(|embeddings|, i requires 0 <= i < |embeddings| => KMeansConfidence(embeddings, run, dist, i))
  }

  /** `cluster_kmeans`: HDBSCAN when there are fewer embeddings than
      clusters; otherwise every prompt with its KMeans label, the clusters of
      all prompts, and every prompt with a confidence in [0, 1]. */
  method ClusterKMeans(embeddings: seq<(string, Vec)>, k: int, kmeans: KMeansRun, hdbscan: HdbscanRun,
                       norm: Vec -> real, sim: (Vec, Vec) -> real, dist: (Vec, Vec) -> real)
    returns (r: Clustering)
    requires DistinctKeys(embeddings) && SameDimension(embeddings)
    requires |embeddings| < k ==> (|embeddings| >= 2 ==> |hdbscan.labels| == |embeddings|)
    requires |embeddings| >= k ==> k >= 1 && |kmeans.centers| == k && ValidKMeansRun(embeddings, kmeans)
    ensures |embeddings| < k ==> r == HdbscanResult(embeddings, hdbscan, norm, sim)
    ensures |embeddings| >= k ==>
              var ids := Keys(embeddings);
              r == Clustering(Zip(ids, kmeans.labels), GroupBy(NonNoise(ids, kmeans.labels)),
                              Zip(ids, KMeansConfidences(embeddings, kmeans, dist)))
    ensures |embeddings| >= k ==>
              Keys(r.promptToConfidence) == Keys(embeddings)
              && forall i | 0 <= i < |embeddings| :: 0.0 <= r.promptToConfidence[i].1 <= 1.0
  {
    if |embeddings| < k {
      r := ClusterHdbscan(embeddings, hdbscan, norm, sim);
      return;
    }
    var ids := Keys(embeddings);
    KeysDistinct(embeddings);
    var labels := kmeans.labels;
    ghost var confidences := KMeansConfidences(embeddings, kmeans, dist);
    var promptToCluster: seq<(string, int)> := [];
    var clusterToPrompts: seq<(int, seq<string>)> := [];
    var promptToConfidence: seq<(string, real)> := [];
    var idx := 0;
    while idx < |embeddings|
      invariant 0 <= idx <= |embeddings|
      invariant LoopState(ids, labels, confidences, idx, promptToCluster, clusterToPrompts, promptToConfidence)
    {
      var promptId, clusterLabel := ids[idx], labels[idx];
      LoopStep(ids, labels, confidences, idx, promptToCluster, clusterToPrompts, promptToConfidence);
      promptToCluster := Put(promptToCluster, promptId, clusterLabel);
      clusterToPrompts := Append(clusterToPrompts, clusterLabel, promptId);
      var confidence := KMeansConfidence(embeddings, kmeans, dist, idx);
      promptToConfidence := Put(promptToConfidence, promptId, confidence);
      idx := idx + 1;
    }
    LoopDone(ids, labels, confidences, promptToCluster, clusterToPrompts, promptToConfidence);
    r := Clustering(promptToCluster, clusterToPrompts, promptToConfidence);
  }

  // ---------------------------------------------------------------------
  // Centroids

  /** `[embeddings[pid] for pid in prompt_ids if pid in embeddings]`. */
  function MemberEmbeddings(embeddings: seq<(string, Vec)>, promptIds: seq<string>): (vs: seq<Vec>)
    ensures forall v | v in vs :: v in Values(embeddings)
    decreases |promptIds|
  {
    if promptIds == [] then []
    else
      var n := |promptIds| - 1;
      var prev := MemberEmbeddings(embeddings, promptIds[..n]);
      var pid := promptIds[n];
      if pid in Keys(embeddings) then
        assert Keys(embeddings)[IndexOf(embeddings, pid)] == pid;
        assert Values(embeddings)[IndexOf(embeddings, pid)] == Get(embeddings, pid).value;
        prev + [Get(embeddings, pid).value]
      else prev
  }

  /** The centroid `compute_cluster_centroids` gives one cluster entry, if any. */
  function CentroidOf(embeddings: seq<(string, Vec)>, clusterId: int, promptIds: seq<string>): Option<Vec>
    requires SameDimension(embeddings)
  {
    var members := MemberEmbeddings(embeddings, promptIds);
    if clusterId == Noise || members == [] then None
    else
      UniformOfValues(embeddings, members);
      Some(MeanVec(members))
  }

  /** The centroid dictionary after the first `n` clusters. */
  function CentroidsUpTo(embeddings: seq<(string, Vec)>, clusterToPrompts: seq<(int, seq<string>)>, n: nat): seq<(int, Vec)>
    requires SameDimension(embeddings) && n <= |clusterToPrompts|
  {
    if n == 0 then []
    else
      var prev := CentroidsUpTo(embeddings, clusterToPrompts, n - 1);
      var entry := clusterToPrompts[n - 1];
      match CentroidOf(embeddings, entry.0, entry.1)
      case None => prev
      case Some(c) => Put(prev, entry.0, c)
  }

  /** `compute_cluster_centroids`. */
  method ComputeClusterCentroids(embeddings: seq<(string, Vec)>, clusterToPrompts: seq<(int, seq<string>)>)
    returns (centroids: seq<(int, Vec)>)
    requires SameDimension(embeddings)
    ensures centroids == CentroidsUpTo(embeddings, clusterToPrompts, |clusterToPrompts|)
  {
    centroids := [];
    var i := 0;
    while i < |clusterToPrompts|
      invariant 0 <= i <= |clusterToPrompts|
      invariant centroids == CentroidsUpTo(embeddings, clusterToPrompts, i)
    {
      var clusterId, promptIds := clusterToPrompts[i].0, clusterToPrompts[i].1;
      if clusterId == Noise {
        i := i + 1;
        continue;
      }
      var clusterEmbeddings := MemberEmbeddings(embeddings, promptIds);
      if clusterEmbeddings != [] {
        UniformOfValues(embeddings, clusterEmbeddings);
        var centroid := MeanVec(clusterEmbeddings);
        centroids := Put(centroids, clusterId, centroid);
      }
      i := i + 1;
    }
  }

  /** The centroid dictionary has no key -1 and no cluster without embedded
      members; each key is a cluster id, and its value is the mean of the
      embeddings of that cluster's members. */
  lemma {:induction false} CentroidsSpec(embeddings: seq<(string, Vec)>, clusterToPrompts: seq<(int, seq<string>)>, n: nat)
    requires SameDimension(embeddings) && DistinctKeys(clusterToPrompts) && n <= |clusterToPrompts|
    ensures DistinctKeys(CentroidsUpTo(embeddings, clusterToPrompts, n))
    ensures forall l :: Get(CentroidsUpTo(embeddings, clusterToPrompts, n), l)
                     == match Get(clusterToPrompts[..n], l)
                        case None => None
                        case Some(ids) => CentroidOf(embeddings, l, ids)
  {
    if n > 0 {
      CentroidsSpec(embeddings, clusterToPrompts, n - 1);
      var prev := CentroidsUpTo(embeddings, clusterToPrompts, n - 1);
      var entry := clusterToPrompts[n - 1];
      var d := clusterToPrompts[..n];
      assert d[..n - 1] == clusterToPrompts[..n - 1];
      GetSnoc(d);
      var pre := d[..n - 1];
      assert entry.0 !in Keys(pre) by {
        forall j | 0 <= j < |pre| ensures pre[j].0 != entry.0 {
          assert clusterToPrompts[j].0 != clusterToPrompts[n - 1].0;
        }
      }
      match CentroidOf(embeddings, entry.0, entry.1)
      case None =>
      case Some(c) =>
        PutDistinct(prev, entry.0, c);
        PutGet(prev, entry.0, c);
    }
  }
}
