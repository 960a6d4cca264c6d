/** The clustering engine (packages/clustering/engine.py): the confidence
    thresholds, the grouping of HDBSCAN labels into families, and the
    confidence of a prompt against a family. HDBSCAN is an oracle whose
    labels are an input, and cosine similarity is a parameter. */
module Engine {
  import opened Wrappers
  import opened Vectors
  import opened PyDict
  import opened Grouping
  import opened MlClustering
  import opened PromptDna

  /** `CONFIDENCE_THRESHOLDS`. */
  const AutoMerge: real := 0.85
  const SuggestMerge: real := 0.70
  const NewFamily: real := 0.50

  /** The thresholds form a ladder. */
  lemma ThresholdsOrdered()
    ensures AutoMerge > SuggestMerge > NewFamily
  {
  }

  /** What `cluster_prompts` returns: the prompts whose ids it reports are the
      first `|labels|` prompts of the input, whether or not they have an
      embedding. */
  function ClusterPromptsAsWritten(dnas: seq<PromptDNA>, labels: seq<int>): seq<(int, seq<string>)>
    requires |labels| <= |dnas|
  {
    if |dnas| < 2 || |Embeddings(dnas)| < 2 then []
    else GroupBy(NonNoise(Ids(dnas)[..|labels|], labels))
  }

  /** What it evidently means: label `i` belongs to the `i`-th prompt that has
      an embedding, since HDBSCAN only saw those. */
  function ClusterPromptsIntended(dnas: seq<PromptDNA>, labels: seq<int>): seq<(int, seq<string>)>
    requires |labels| == |WithEmbedding(dnas)|
  {
    if |dnas| < 2 || |Embeddings(dnas)| < 2 then []
    else GroupBy(NonNoise(Ids(WithEmbedding(dnas)), labels))
  }

  /** `cluster_prompts` as written: `clusters[label].append(prompt_dnas[idx].id)`
      with `idx` a position among the embedded prompts. */
  method ClusterPromptsUnfiltered(dnas: seq<PromptDNA>, labels: seq<int>) returns (clusters: seq<(int, seq<string>)>)
    requires |labels| == |WithEmbedding(dnas)|
    ensures clusters == ClusterPromptsAsWritten(dnas, labels)
  {
    if |dnas| < 2 {
      return [];
    }
    if |Embeddings(dnas)| < 2 {
      return [];
    }
    ghost var ids := Ids(dnas)[..|labels|];
    clusters := [];
    var idx := 0;
    while idx < |labels|
      invariant 0 <= idx <= |labels|
      invariant clusters == GroupBy(NonNoise(ids[..idx], labels[..idx]))
    {
      var clusterLabel := labels[idx];
      assert ids[idx] == dnas[idx].id;
      GroupStep(ids, labels, idx);
      if clusterLabel != Noise {
        clusters := Append(clusters, clusterLabel, dnas[idx].id);
      }
      idx := idx + 1;
    }
    assert ids[..idx] == ids && labels[..idx] == labels;
  }

  /** `cluster_prompts` with the label positions taken among the prompts that
      have an embedding. */
  method ClusterPrompts(dnas: seq<PromptDNA>, labels: seq<int>) returns (clusters: seq<(int, seq<string>)>)
    requires |labels| == |WithEmbedding(dnas)|
    ensures clusters == ClusterPromptsIntended(dnas, labels)
  {
    if |dnas| < 2 {
      return [];
    }
    var embedded := WithEmbedding(dnas);
    if |embedded| < 2 {
      return [];
    }
    ghost var ids := Ids(embedded);
    clusters := [];
    var idx := 0;
    while idx < |labels|
      invariant 0 <= idx <= |labels|
      invariant clusters == GroupBy(NonNoise(ids[..idx], labels[..idx]))
    {
      var clusterLabel := labels[idx];
      assert ids[idx] == embedded[idx].id;
      GroupStep(ids, labels, idx);
      if clusterLabel != Noise {
        clusters := Append(clusters, clusterLabel, embedded[idx].id);
      }
      idx := idx + 1;
    }
    assert ids[..idx] == ids && labels[..idx] == labels;
  }

  /** One step of the grouping loop over (id, label) positions. */
  lemma GroupStep(ids: seq<string>, labels: seq<int>, i: nat)
    requires |ids| == |labels| && i < |ids|
    ensures GroupBy(NonNoise(ids[..i + 1], labels[..i + 1]))
         == if labels[i] != Noise then AddTo(GroupBy(NonNoise(ids[..i], labels[..i])), labels[i], ids[i])
            else GroupBy(NonNoise(ids[..i], labels[..i]))
  {
    NonNoiseStep(ids, labels, i);
    var prev := NonNoise(ids[..i], labels[..i]);
    if labels[i] != Noise {
      GroupBySnoc(prev, (labels[i], ids[i]));
    } else {
      assert prev + [] == prev;
    }
  }

  /** The families: fewer than two prompts or embeddings give none; noise is
      never a family; every other label is a family whose members are the
      embedded prompts with that label, in order. */
  lemma ClusterPromptsSpec(dnas: seq<PromptDNA>, labels: seq<int>)
    requires |labels| == |WithEmbedding(dnas)|
    ensures |dnas| < 2 || |Embeddings(dnas)| < 2 ==> ClusterPromptsIntended(dnas, labels) == []
    ensures DistinctKeys(ClusterPromptsIntended(dnas, labels))
    ensures Noise !in Keys(ClusterPromptsIntended(dnas, labels))
    ensures |dnas| >= 2 && |Embeddings(dnas)| >= 2 ==>
              forall l :: Get(ClusterPromptsIntended(dnas, labels), l)
                       == if l != Noise && l in labels then Some(Members(Ids(WithEmbedding(dnas)), labels, l)) else None
  {
    if |dnas| >= 2 && |Embeddings(dnas)| >= 2 {
      ClustersSpec(Ids(WithEmbedding(dnas)), labels);
    }
  }

  /** When every prompt has an embedding the two readings agree. */
  lemma ClusterPromptsAgree(dnas: seq<PromptDNA>, labels: seq<int>)
    requires |labels| == |WithEmbedding(dnas)|
    requires forall i | 0 <= i < |dnas| :: dnas[i].HasEmbedding()
    ensures ClusterPromptsAsWritten(dnas, labels) == ClusterPromptsIntended(dnas, labels)
  {
    WithEmbeddingAll(dnas);
    assert Ids(dnas)[..|labels|] == Ids(dnas);
  }

  lemma {:induction false} WithEmbeddingAll(dnas: seq<PromptDNA>)
    requires forall i | 0 <= i < |dnas| :: dnas[i].HasEmbedding()
    ensures WithEmbedding(dnas) == dnas
    decreases |dnas|
  {
    if dnas != [] {
      var n := |dnas| - 1;
      WithEmbeddingAll(dnas[..n]);
      assert dnas[..n] + [dnas[n]] == dnas;
    }
  }

  function Dna(id: string, embedding: Vec): PromptDNA {
    PromptDNA(id, "", "", PromptStructure(None, "", None, 0), PromptVariables([], 0),
              PromptInstructions([], None, [], 0), embedding, [])
  }

  /** Two prompts that HDBSCAN puts in family 0 form that one family. */
  lemma GroupPair(x: string, y: string)
    ensures GroupBy(NonNoise([x, y], [0, 0])) == [(0, [x, y])]
  {
    assert [x, y][..1] == [x] && [0, 0][..1] == [0] && [x][..0] == [] && [0][..0] == [];
    var pairs: seq<(int, string)> := [(0, x), (0, y)];
    assert NonNoise([x], [0]) == [(0, x)] by {
      assert NonNoise([x][..0], [0][..0]) == [];
    }
    assert NonNoise([x, y], [0, 0]) == pairs;
    var one: seq<(int, string)> := [(0, x)];
    assert pairs[..1] == one && one[..0] == [];
    var g := GroupBy(one);
    assert g == [(0, [x])] by {
      assert GroupBy(one[..0]) == [];
      assert Get<int, seq<string>>([], 0) == None;
      assert AddTo<int, string>([], 0, x) == [(0, [x])];
    }
    assert Keys(g) == [0];
    assert IndexOf(g, 0) == 0;
    assert [x] + [y] == [x, y];
  }

  /** Prompts "a" (no embedding), "b" and "c", with HDBSCAN putting "b" and
      "c" in family 0: as written the family is reported as ["a", "b"]. */
  lemma ClusterPromptsMisattributes()
    ensures var dnas := [Dna("a", []), Dna("b", [1.0]), Dna("c", [1.0])];
            |WithEmbedding(dnas)| == 2
            && ClusterPromptsAsWritten(dnas, [0, 0]) == [(0, ["a", "b"])]
            && ClusterPromptsIntended(dnas, [0, 0]) == [(0, ["b", "c"])]
  {
    var a, b, c := Dna("a", []), Dna("b", [1.0]), Dna("c", [1.0]);
    var dnas := [a, b, c];
    assert dnas[..2] == [a, b] && [a, b][..1] == [a] && [a][..0] == [];
    assert WithEmbedding([a]) == [];
    assert WithEmbedding([a, b]) == [b];
    assert WithEmbedding(dnas) == [b, c];
    assert Ids(dnas)[..2] == ["a", "b"];
    assert Ids([b, c]) == ["b", "c"];
    GroupPair("a", "b");
    GroupPair("b", "c");
  }

  /** The similarity of a prompt to each family member. */
  function Similarities(embedding: Vec, familyEmbeddings: seq<Vec>, sim: (Vec, Vec) -> real): (s: seq<real>)
    ensures |s| == |familyEmbeddings|
    ensures forall i | 0 <= i < |familyEmbeddings| :: s[i] == sim(embedding, familyEmbeddings[i])
  {
    seq(|familyEmbeddings|, i requires 0 <= i < |familyEmbeddings| => sim(embedding, familyEmbeddings[i]))
  }

  /** `compute_confidence`: 0.0 without an embedding or without family
      members, else the mean similarity to the members. */
  function ComputeConfidence(dna: PromptDNA, familyEmbeddings: seq<Vec>, sim: (Vec, Vec) -> real): real {
    if !dna.HasEmbedding() || familyEmbeddings == [] then 0.0
    else Mean(Similarities(dna.embedding, familyEmbeddings, sim))
  }

  /** The confidence lies between any bounds of the member similarities
      (within [-1, 1] for cosine similarity); it is 0.0 in the guarded cases. */
  lemma ComputeConfidenceBounds(dna: PromptDNA, familyEmbeddings: seq<Vec>, sim: (Vec, Vec) -> real, lo: real, hi: real)
    requires forall e | e in familyEmbeddings :: lo <= sim(dna.embedding, e) <= hi
    ensures !dna.HasEmbedding() || familyEmbeddings == [] ==> ComputeConfidence(dna, familyEmbeddings, sim) == 0.0
    ensures dna.HasEmbedding() && familyEmbeddings != [] ==> lo <= ComputeConfidence(dna, familyEmbeddings, sim) <= hi
  {
    if dna.HasEmbedding() && familyEmbeddings != [] {
      var s := Similarities(dna.embedding, familyEmbeddings, sim);
      forall i | 0 <= i < |s| ensures lo <= s[i] <= hi {
        assert familyEmbeddings[i] in familyEmbeddings;
      }
      MeanBounds(s, lo, hi);
    }
  }

  /** Against a single member the confidence is the similarity to it. */
  lemma ComputeConfidenceSingle(dna: PromptDNA, e: Vec, sim: (Vec, Vec) -> real)
    requires dna.HasEmbedding()
    ensures ComputeConfidence(dna, [e], sim) == sim(dna.embedding, e)
  {
    var s := Similarities(dna.embedding, [e], sim);
    assert s == [sim(dna.embedding, e)];
    assert s[..0] == [];
    assert Sum(s) == sim(dna.embedding, e);
  }
}
