/** The incremental classification worker
    (packages/ml_core/incremental_worker.py): one cycle's gating and
    counting. The repositories, the embedding model and the full classifier
    are replaced by the values they would return. */
module IncrementalWorker {
  import opened Wrappers
  import opened Vectors
  import opened Nearest
  import Incremental

  const DefaultThreshold: real := 0.60
  const DefaultBatchSize: int := 500
  /** Below this many classified prompts a cycle runs the full classifier. */
  const BootstrapThreshold: int := 50

  /** The worker's default threshold (0.60) is laxer than the one of
      `assign_to_cluster` (0.75): when the best similarity lies between the
      two, the worker assigns the nearest family and `assign_to_cluster`
      assigns nothing, with the same reported similarity. */
  lemma DefaultsDisagree<K>(embedding: Vec, centroids: seq<(K, Vec)>, sim: (Vec, Vec) -> real)
    requires centroids != []
    requires DefaultThreshold <= NearestKey(embedding, centroids, DefaultThreshold, sim).similarity < Incremental.DefaultThreshold
    ensures NearestKey(embedding, centroids, DefaultThreshold, sim).key.Some?
    ensures NearestKey(embedding, centroids, Incremental.DefaultThreshold, sim).key.None?
    ensures NearestKey(embedding, centroids, Incremental.DefaultThreshold, sim).similarity
         == NearestKey(embedding, centroids, DefaultThreshold, sim).similarity
  {
    NearestKeySpec(embedding, centroids, DefaultThreshold, sim);
    NearestKeySpec(embedding, centroids, Incremental.DefaultThreshold, sim);
    NearestKeyThreshold(embedding, centroids, DefaultThreshold, Incremental.DefaultThreshold, sim);
  }

  /** A pending prompt as the repository returns it. */
  datatype PendingPrompt = PendingPrompt(promptId: string, normalizedText: Option<string>)

  /** The counters the full classifier reports; a missing counter reads 0. */
  datatype FullStats = FullStats(promptsAssigned: Option<int>, unclustered: Option<int>, clustersCreated: Option<int>)

  /** The statistics dictionary of one cycle; `mode` and `clustersCreated`
      are only present after a full classification. */
  datatype CycleStats = CycleStats(
    pendingCount: int, processed: int, assignedCount: int, unclustered: int,
    skipped: bool, templatesUpdated: int, mode: Option<string>, clustersCreated: Option<int>)

  /** A call `update_embedding_and_family(prompt_id, embedding, family_id)`. */
  datatype Update = Update(promptId: string, embedding: Vec, familyId: Option<string>)

  const InitialStats := CycleStats(0, 0, 0, 0, false, 0, None, None)

  /** Python truthiness of an optional family id: None and "" are false. */
  predicate Truthy(id: Option<string>) {
    id.Some? && id.value != ""
  }

  /** The updates the processing loop issues for a list of pending prompts:
      prompts without text are skipped, each other prompt is embedded and
      looked up once. */
  function Updates(pending: seq<PendingPrompt>, centroids: seq<(string, Vec)>, threshold: real,
                   embed: string -> Vec, sim: (Vec, Vec) -> real): (us: seq<Update>)
    ensures |us| <= |pending|
    decreases |pending|
  {
    if pending == [] then []
    else
      var last := pending[|pending| - 1];
      var us := Updates(pending[..|pending| - 1], centroids, threshold, embed, sim);
      if last.normalizedText.None? || last.normalizedText.value == "" then us
      else
        var e := embed(last.normalizedText.value);
        us + [Update(last.promptId, e, NearestKey(e, centroids, threshold, sim).key)]
  }

  /** How many updates assign a (truthy) family. */
  function CountAssigned(us: seq<Update>): (n: nat)
    ensures n <= |us|
    decreases |us|
  {
    if us == [] then 0
    else CountAssigned(us[..|us| - 1]) + if Truthy(us[|us| - 1].familyId) then 1 else 0
  }

  /** One more pending prompt, spelled out. */
  lemma UpdatesStep(pending: seq<PendingPrompt>, i: nat, centroids: seq<(string, Vec)>, threshold: real,
                    embed: string -> Vec, sim: (Vec, Vec) -> real)
    requires i < |pending|
    ensures var p, us := pending[i], Updates(pending[..i], centroids, threshold, embed, sim);
            Updates(pending[..i + 1], centroids, threshold, embed, sim)
            == if p.normalizedText.None? || p.normalizedText.value == "" then us
               else us + [Update(p.promptId, embed(p.normalizedText.value),
                                 NearestKey(embed(p.normalizedText.value), centroids, threshold, sim).key)]
  {
    assert pending[..i + 1][..i] == pending[..i];
  }

  lemma CountAssignedSnoc(us: seq<Update>, u: Update)
    ensures CountAssigned(us + [u]) == CountAssigned(us) + if Truthy(u.familyId) then 1 else 0
  {
    assert (us + [u])[..|us|] == us;
  }

  class Worker {
    const threshold: real
    const batchSize: int

    constructor (similarityThreshold: real, batchSize: int)
      ensures threshold == similarityThreshold && this.batchSize == batchSize
    {
      threshold := similarityThreshold;
      this.batchSize := batchSize;
    }

    /** A worker with the default threshold 0.60 and batch size 500. */
    constructor Default()
      ensures threshold == DefaultThreshold && batchSize == DefaultBatchSize
    {
      threshold := DefaultThreshold;
      batchSize := DefaultBatchSize;
    }

    /** `find_nearest_family`: the running-best loop over the family centroids. */
    method FindNearestFamily(embedding: Vec, centroids: seq<(string, Vec)>, sim: (Vec, Vec) -> real)
      returns (r: Match<string>)
      ensures r == NearestKey(embedding, centroids, threshold, sim)
    {
      if centroids == [] {
        return Match(None, 0.0);
      }
      ghost var scores := Scores(embedding, centroids, sim);
      var bestFamily: Option<string> := None;
      var bestSimilarity := -1.0;
      var i := 0;
      while i < |centroids|
        invariant 0 <= i <= |centroids|
        invariant bestSimilarity == Best(scores[..i], -1.0).score
        invariant bestFamily == KeyAt(centroids, Best(scores[..i], -1.0).index)
      {
        var similarity := sim(embedding, centroids[i].1);
        BestStep(scores, i, -1.0);
        BestSpec(scores[..i], -1.0);
        if similarity > bestSimilarity {
          bestSimilarity := similarity;
          bestFamily := Some(centroids[i].0);
        }
        i := i + 1;
      }
      assert scores[..i] == scores;
      if bestSimilarity >= threshold {
        r := Match(bestFamily, bestSimilarity);
      } else {
        r := Match(None, bestSimilarity);
      }
    }

    /** `run_cycle`, given what the repositories, the full classifier and the
        template generator return. Its results are the statistics and the
        list of prompt updates written. */
    method RunCycle(classifiedCount: int, fullStats: FullStats, pendingCount: int,
                    pending: seq<PendingPrompt>, centroids: seq<(string, Vec)>,
                    embed: string -> Vec, sim: (Vec, Vec) -> real, templatesUpdated: int)
      returns (stats: CycleStats, updates: seq<Update>)
      // bootstrap: the full classifier's counters are reported
      ensures classifiedCount < BootstrapThreshold ==>
                && updates == []
                && stats == InitialStats.(mode := Some("full_classification"),
                                          processed := fullStats.promptsAssigned.GetOr(0),
                                          assignedCount := fullStats.promptsAssigned.GetOr(0),
                                          unclustered := fullStats.unclustered.GetOr(0),
                                          clustersCreated := Some(fullStats.clustersCreated.GetOr(0)))
      // too few pending prompts: the cycle is skipped
      ensures classifiedCount >= BootstrapThreshold && pendingCount < batchSize ==>
                updates == [] && stats == InitialStats.(pendingCount := pendingCount, skipped := true)
      // no centroids: every fetched prompt is unclustered and nothing is written
      ensures classifiedCount >= BootstrapThreshold && pendingCount >= batchSize && centroids == [] ==>
                updates == [] && stats == InitialStats.(pendingCount := pendingCount, unclustered := |pending|)
      // the processing loop
      ensures classifiedCount >= BootstrapThreshold && pendingCount >= batchSize && centroids != [] ==>
                && updates == Updates(pending, centroids, threshold, embed, sim)
                && stats.pendingCount == pendingCount && !stats.skipped && stats.mode.None?
                && stats.clustersCreated.None?
                && stats.processed == |updates|
                && stats.assignedCount == CountAssigned(updates)
                && stats.assignedCount + stats.unclustered == stats.processed <= |pending|
                && stats.templatesUpdated == (if stats.assignedCount > 0 then templatesUpdated else 0)
    {
      stats := InitialStats;
      updates := [];
      if classifiedCount < BootstrapThreshold {
        var assignedCount := fullStats.promptsAssigned.GetOr(0);
        stats := stats.(mode := Some("full_classification"), processed := assignedCount, assignedCount := assignedCount,
                        unclustered := fullStats.unclustered.GetOr(0),
                        clustersCreated := Some(fullStats.clustersCreated.GetOr(0)));
        return;
      }
      stats := stats.(pendingCount := pendingCount);
      if pendingCount < batchSize {
        stats := stats.(skipped := true);
        return;
      }
      if centroids == [] {
        stats := stats.(unclustered := |pending|);
        return;
      }
      var i := 0;
      while i < |pending|
        invariant 0 <= i <= |pending|
        invariant updates == Updates(pending[..i], centroids, threshold, embed, sim)
        invariant stats.pendingCount == pendingCount && !stats.skipped && stats.mode.None?
        invariant stats.clustersCreated.None?
        invariant stats.templatesUpdated == 0
        invariant stats.processed == |updates|
        invariant stats.assignedCount == CountAssigned(updates)
        invariant stats.assignedCount + stats.unclustered == stats.processed
      {
        var prompt := pending[i];
        UpdatesStep(pending, i, centroids, threshold, embed, sim);
        if prompt.normalizedText.None? || prompt.normalizedText.value == "" {
          i := i + 1;
          continue;
        }
        var embedding := embed(prompt.normalizedText.value);
        var m := FindNearestFamily(embedding, centroids, sim);
        CountAssignedSnoc(updates, Update(prompt.promptId, embedding, m.key));
        updates := updates + [Update(prompt.promptId, embedding, m.key)];
        if Truthy(m.key) {
          stats := stats.(assignedCount := stats.assignedCount + 1);
        } else {
          stats := stats.(unclustered := stats.unclustered + 1);
        }
        stats := stats.(processed := stats.processed + 1);
        i := i + 1;
      }
      assert pending[..i] == pending;
      if stats.assignedCount > 0 {
        stats := stats.(templatesUpdated := templatesUpdated);
      }
    }
  }
}
