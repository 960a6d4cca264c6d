/** Incremental assignment of new embeddings to existing cluster centroids
    (packages/ml_core/incremental.py). Centroids are a dictionary from cluster
    id to centroid vector; cosine similarity is a parameter. */
module Incremental {
  import opened Wrappers
  import opened Vectors
  import opened PyDict
  import opened Nearest

  /** The default similarity a cluster must reach to be assigned. */
  const DefaultThreshold: real := 0.75

  /** `assign_to_cluster`: the running-best loop over the centroids. */
  method AssignToCluster(embedding: Vec, centroids: seq<(int, Vec)>, threshold: real, sim: (Vec, Vec) -> real)
    returns (r: Match<int>)
    ensures r == NearestKey(embedding, centroids, threshold, sim)
  {
    if centroids == [] {
      return Match(None, 0.0);
    }
    ghost var scores := Scores(embedding, centroids, sim);
    var bestCluster: Option<int> := None;
    var bestSimilarity := -1.0;
    var i := 0;
    while i < |centroids|
      invariant 0 <= i <= |centroids|
      invariant bestSimilarity == Best(scores[..i], -1.0).score
      invariant bestCluster == KeyAt(centroids, Best(scores[..i], -1.0).index)
    {
      var similarity := sim(embedding, centroids[i].1);
      BestStep(scores, i, -1.0);
      BestSpec(scores[..i], -1.0);
      if similarity > bestSimilarity {
        bestSimilarity := similarity;
        bestCluster := Some(centroids[i].0);
      }
      i := i + 1;
    }
    assert scores[..i] == scores;
    if bestSimilarity >= threshold {
      r := Match(bestCluster, bestSimilarity);
    } else {
      r := Match(None, bestSimilarity);
    }
  }

  /** `assign_batch`: one assignment per prompt id, in the dictionary's order. */
  method AssignBatch(embeddings: seq<(string, Vec)>, centroids: seq<(int, Vec)>, threshold: real, sim: (Vec, Vec) -> real)
    returns (assignments: seq<(string, Match<int>)>)
    requires DistinctKeys(embeddings)
    ensures Keys(assignments) == Keys(embeddings)
    ensures forall i | 0 <= i < |embeddings| ::
              assignments[i].1 == NearestKey(embeddings[i].1, centroids, threshold, sim)
  {
    assignments := [];
    var i := 0;
    while i < |embeddings|
      invariant 0 <= i <= |embeddings|
      invariant Keys(assignments) == Keys(embeddings[..i])
      invariant forall j | 0 <= j < i :: assignments[j].1 == NearestKey(embeddings[j].1, centroids, threshold, sim)
    {
      var promptId := embeddings[i].0;
      var a := AssignToCluster(embeddings[i].1, centroids, threshold, sim);
      assert promptId !in Keys(assignments) by {
        assert forall j | 0 <= j < i :: Keys(assignments)[j] == embeddings[j].0 != promptId;
      }
      PutNew(assignments, promptId, a);
      assignments := Put(assignments, promptId, a);
      assert Keys(embeddings[..i + 1]) == Keys(embeddings[..i]) + [promptId];
      i := i + 1;
    }
    assert embeddings[..i] == embeddings;
  }
}
