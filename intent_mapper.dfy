/** Intent-to-template mapping (packages/template_engine/intent_mapper.py):
    a list of intent centroids that queries are ranked against by cosine
    similarity. The vector norm (`np.linalg.norm`) and the embedding model
    are parameters. */
module IntentMapping {
  import opened Wrappers
  import opened Vectors
  import opened PyStrings
  import opened StableSort

  /** A stored intent centroid; `labelText` is the human-readable label. */
  datatype IntentCentroid = IntentCentroid(familyId: string, templateId: Option<string>, embedding: Vec, labelText: string)

  datatype Confidence = High | Medium | Low
  {
    function Name(): string {
      match this
      case High => "high"
      case Medium => "medium"
      case Low => "low"
    }
  }

  datatype IntentMatch = IntentMatch(templateId: string, familyId: string, similarityScore: real, confidence: Confidence)

  /** One dictionary given to `load_intents`: each key may be missing. */
  datatype IntentRecord = IntentRecord(familyId: Option<string>, templateId: Option<string>, embedding: Option<Vec>, labelText: Option<string>)
  {
    /** `intent["family_id"]`, `intent["embedding"]`, `intent["label"]` all succeed. */
    predicate Complete() {
      familyId.Some? && embedding.Some? && labelText.Some?
    }

    function ToCentroid(): IntentCentroid
      requires Complete()
    {
      IntentCentroid(familyId.value, templateId, embedding.value, labelText.value)
    }
  }

  /** The number of leading records that load before the first one missing a
      required key. */
  function LoadablePrefix(intents: seq<IntentRecord>): (k: nat)
    ensures k <= |intents|
    ensures forall i | 0 <= i < k :: intents[i].Complete()
    ensures k < |intents| ==> !intents[k].Complete()
    decreases |intents|
  {
    if intents == [] || !intents[0].Complete() then 0
    else
      var k := LoadablePrefix(intents[1..]);
      assert forall i | 1 <= i < k + 1 :: intents[i] == intents[1..][i - 1];
      1 + k
  }

  function Centroids(intents: seq<IntentRecord>): (cs: seq<IntentCentroid>)
    requires forall i | 0 <= i < |intents| :: intents[i].Complete()
    ensures |cs| == |intents| && forall i | 0 <= i < |intents| :: cs[i] == intents[i].ToCentroid()
  {
    seq(|intents|, i requires 0 <= i < |intents| => intents[i].ToCentroid())
  }

  /** `_cosine_similarity`: 0.0 when either vector has zero norm. */
  function CosineSimilarity(a: Vec, b: Vec, norm: Vec -> real): real
    requires |a| == |b|
  {
    var dotProduct := Dot(a, b);
    if norm(a) == 0.0 || norm(b) == 0.0 then 0.0 else dotProduct / (norm(a) * norm(b))
  }

  /** The similarity is symmetric, and 0.0 against a zero-norm vector. */
  lemma CosineSimilaritySpec(a: Vec, b: Vec, norm: Vec -> real)
    requires |a| == |b|
    ensures CosineSimilarity(a, b, norm) == CosineSimilarity(b, a, norm)
    ensures norm(a) == 0.0 || norm(b) == 0.0 ==> CosineSimilarity(a, b, norm) == 0.0
  {
    DotSymmetric(a, b);
    assert norm(a) * norm(b) == norm(b) * norm(a);
  }

  function ScoreKey(p: (IntentCentroid, real)): real { p.1 }

  /** The (centroid, similarity) list before sorting. */
  function Scored(query: Vec, centroids: seq<IntentCentroid>, norm: Vec -> real): (s: seq<(IntentCentroid, real)>)
    requires forall i | 0 <= i < |centroids| :: |centroids[i].embedding| == |query|
    ensures |s| == |centroids|
    ensures forall i | 0 <= i < |centroids| :: s[i] == (centroids[i], CosineSimilarity(query, centroids[i].embedding, norm))
  {
    seq(|centroids|, i requires 0 <= i < |centroids| => (centroids[i], CosineSimilarity(query, centroids[i].embedding, norm)))
  }

  class IntentMapper {
    /** The embedding model, if any: it turns a query text into a vector. */
    const embeddingModel: Option<string -> Vec>
    const similarityThreshold: real
    const llmFallbackThreshold: real
    var intentCentroids: seq<IntentCentroid>

    constructor(embeddingModel: Option<string -> Vec>, similarityThreshold: real, llmFallbackThreshold: real)
      ensures this.embeddingModel == embeddingModel
      ensures this.similarityThreshold == similarityThreshold
      ensures this.llmFallbackThreshold == llmFallbackThreshold
      ensures intentCentroids == []
    {
      this.embeddingModel := embeddingModel;
      this.similarityThreshold := similarityThreshold;
      this.llmFallbackThreshold := llmFallbackThreshold;
      intentCentroids := [];
    }

    /** The defaults: no model, thresholds 0.7 and 0.5. */
    constructor Default()
      ensures embeddingModel.None? && similarityThreshold == 0.7 && llmFallbackThreshold == 0.5
      ensures intentCentroids == []
    {
      embeddingModel := None;
      similarityThreshold := 0.7;
      llmFallbackThreshold := 0.5;
      intentCentroids := [];
    }

    /** `add_intent`: one centroid appended at the end. */
    method AddIntent(familyId: string, embedding: Vec, labelText: string, templateId: Option<string>)
      modifies this
      ensures intentCentroids == old(intentCentroids) + [IntentCentroid(familyId, templateId, embedding, labelText)]
    {
      intentCentroids := intentCentroids + [IntentCentroid(familyId, templateId, embedding, labelText)];
    }

    /** `load_intents`: one centroid per record, in order. A record missing
        `family_id`, `embedding` or `label` raises `KeyError` (the result is
        false), and the records before it stay loaded. */
    method LoadIntents(intents: seq<IntentRecord>) returns (ok: bool)
      modifies this
      ensures var k := LoadablePrefix(intents);
              intentCentroids == old(intentCentroids) + Centroids(intents[..k])
              && (ok <==> k == |intents|)
    {
      var k := LoadablePrefix(intents);
      var i := 0;
      while i < |intents|
        invariant 0 <= i <= k
        invariant intentCentroids == old(intentCentroids) + Centroids(intents[..i])
      {
        var intent := intents[i];
        if !intent.Complete() {
          return false;
        }
        intentCentroids := intentCentroids + [intent.ToCentroid()];
        assert Centroids(intents[..i + 1]) == Centroids(intents[..i]) + [intent.ToCentroid()];
        i := i + 1;
      }
      return true;
    }

    /** `_get_confidence`. */
    function GetConfidence(similarity: real): Confidence {
      if similarity >= similarityThreshold then High
      else if similarity >= llmFallbackThreshold then Medium
      else Low
    }

    /** With the fallback threshold below the main one, confidence grows with
        similarity: high exactly from the main threshold, low exactly below
        the fallback threshold. */
    lemma GetConfidenceMonotone(s1: real, s2: real)
      requires llmFallbackThreshold <= similarityThreshold && s1 <= s2
      ensures GetConfidence(s1) == High ==> GetConfidence(s2) == High
      ensures GetConfidence(s2) == Low ==> GetConfidence(s1) == Low
      ensures GetConfidence(s1) == High <==> s1 >= similarityThreshold
      ensures GetConfidence(s1) == Low <==> s1 < llmFallbackThreshold
    {
    }

    function ToMatch(p: (IntentCentroid, real)): IntentMatch {
      IntentMatch(p.0.templateId.GetOr(""), p.0.familyId, p.1, GetConfidence(p.1))
    }

    /** The scored centroids after the stable sort by descending similarity. */
    function Ranked(query: Vec, norm: Vec -> real): seq<(IntentCentroid, real)>
      reads this
      requires forall i | 0 <= i < |intentCentroids| :: |intentCentroids[i].embedding| == |query|
    {
      SortDesc(Scored(query, intentCentroids, norm), ScoreKey)
    }

    /** The matches `match` returns: the first `top_k` ranked centroids
        (Python slice semantics, so a negative `top_k` drops from the end). */
    function Matches(query: Vec, topK: int, norm: Vec -> real): (ms: seq<IntentMatch>)
      reads this
      requires forall i | 0 <= i < |intentCentroids| :: |intentCentroids[i].embedding| == |query|
    {
      if intentCentroids == [] then []
      else
        var ranked := Ranked(query, norm);
        SortDescLength(Scored(query, intentCentroids, norm), ScoreKey);
        var e := SliceEnd(|ranked|, topK);
        seq(e, i requires 0 <= i < e => ToMatch(ranked[i]))
    }

    /** `match`: score every centroid, sort, and convert the first `top_k`. */
    method Match(query: Vec, topK: int, norm: Vec -> real) returns (matches: seq<IntentMatch>)
      requires forall i | 0 <= i < |intentCentroids| :: |intentCentroids[i].embedding| == |query|
      ensures matches == Matches(query, topK, norm)
    {
      if intentCentroids == [] {
        return [];
      }
      var scores: seq<(IntentCentroid, real)> := [];
      for i := 0 to |intentCentroids|
        invariant scores == Scored(query, intentCentroids[..i], norm)
      {
        var centroid := intentCentroids[i];
        var sim := CosineSimilarity(query, centroid.embedding, norm);
        scores := scores + [(centroid, sim)];
      }
      assert intentCentroids[..|intentCentroids|] == intentCentroids;
      scores := SortDesc(scores, ScoreKey);
      SortDescLength(Scored(query, intentCentroids, norm), ScoreKey);
      var e := SliceEnd(|scores|, topK);
      matches := [];
      for i := 0 to e
        invariant |matches| == i
        invariant forall j | 0 <= j < i :: matches[j] == ToMatch(scores[j])
      {
        var (centroid, sim) := scores[i];
        matches := matches + [IntentMatch(centroid.templateId.GetOr(""), centroid.familyId, sim, GetConfidence(sim))];
      }
    }

    /** The ranking is a stable permutation of the scored centroids. */
    lemma RankedSpec(query: Vec, norm: Vec -> real)
      requires forall i | 0 <= i < |intentCentroids| :: |intentCentroids[i].embedding| == |query|
      ensures var ranked := Ranked(query, norm);
              && |ranked| == |intentCentroids|
              && multiset(ranked) == multiset(Scored(query, intentCentroids, norm))
              && forall c :: WithKey(ranked, ScoreKey, c) == WithKey(Scored(query, intentCentroids, norm), ScoreKey, c)
    {
      var scored := Scored(query, intentCentroids, norm);
      SortDescSpec(scored, ScoreKey);
      SortDescLength(scored, ScoreKey);
    }

    /** What `match` promises: nothing without centroids; otherwise
        `min(top_k, n)` matches for `top_k >= 0`, in non-increasing
        similarity, each labelled by its similarity, and no centroid left out
        scores above one returned. */
    lemma MatchesSpec(query: Vec, topK: int, norm: Vec -> real)
      requires forall i | 0 <= i < |intentCentroids| :: |intentCentroids[i].embedding| == |query|
      ensures intentCentroids == [] ==> Matches(query, topK, norm) == []
      ensures intentCentroids != [] && topK >= 0 ==>
                |Matches(query, topK, norm)| == if topK < |intentCentroids| then topK else |intentCentroids|
      ensures var ms := Matches(query, topK, norm);
              forall i, j | 0 <= i < j < |ms| :: ms[i].similarityScore >= ms[j].similarityScore
      ensures var ms := Matches(query, topK, norm);
              forall i | 0 <= i < |ms| :: ms[i].confidence == GetConfidence(ms[i].similarityScore)
      ensures var ms, ranked := Matches(query, topK, norm), Ranked(query, norm);
              forall i, j | 0 <= i < |ms| <= j < |ranked| :: ms[i].similarityScore >= ranked[j].1
    {
      var scored := Scored(query, intentCentroids, norm);
      SortDescSorted(scored, ScoreKey);
      SortDescLength(scored, ScoreKey);
    }

    /** `match_with_text`: `ValueError` without an embedding model, else the
        matches for the embedded query. */
    method MatchWithText(queryText: string, topK: int, norm: Vec -> real) returns (r: Result<seq<IntentMatch>, string>)
      requires embeddingModel.Some? ==>
                 forall i | 0 <= i < |intentCentroids| :: |intentCentroids[i].embedding| == |embeddingModel.value(queryText)|
      ensures r.Err? <==> embeddingModel.None?
      ensures r.Ok? ==> r.value == Matches(embeddingModel.value(queryText), topK, norm)
    {
      if embeddingModel.None? {
        return Err("No embedding model configured. Use match() with pre-computed embeddings.");
      }
      var queryEmbedding := embeddingModel.value(queryText);
      var matches := Match(queryEmbedding, topK, norm);
      return Ok(matches);
    }
  }
}
