/** The running-best scan that several modelled loops share: walk the
    candidates in order and replace the best only on a strictly greater
    score, starting from an initial score. */
module Nearest {
  import opened Wrappers
  import opened Vectors
  import opened PyDict

  /** The position of the best candidate (if any beat the start) and the best score. */
  datatype Pick = Pick(index: Option<nat>, score: real)

  function Best(scores: seq<real>, init: real): Pick
    decreases |scores|
  {
    if scores == [] then Pick(None, init)
    else
      var p := Best(scores[..|scores| - 1], init);
      if scores[|scores| - 1] > p.score then Pick(Some(|scores| - 1), scores[|scores| - 1]) else p
  }

  /** The scan finds the maximum score, or keeps the start when nothing beats
      it; the chosen position is the first that reaches the maximum. */
  lemma {:induction false} BestSpec(scores: seq<real>, init: real)
    ensures Best(scores, init).score >= init
    ensures forall i | 0 <= i < |scores| :: scores[i] <= Best(scores, init).score
    ensures Best(scores, init).index.None? <==> forall i | 0 <= i < |scores| :: scores[i] <= init
    ensures Best(scores, init).index.None? ==> Best(scores, init).score == init
    ensures Best(scores, init).index.Some? ==>
              var k := Best(scores, init).index.value;
              k < |scores| && scores[k] == Best(scores, init).score > init
              && forall j | 0 <= j < k :: scores[j] < scores[k]
    decreases |scores|
  {
    if scores != [] {
      var prefix := scores[..|scores| - 1];
      BestSpec(prefix, init);
      assert forall i | 0 <= i < |prefix| :: prefix[i] == scores[i];
    }
  }

  /** One step of the scan. */
  lemma BestStep(scores: seq<real>, i: nat, init: real)
    requires i < |scores|
    ensures Best(scores[..i + 1], init)
         == if scores[i] > Best(scores[..i], init).score then Pick(Some(i), scores[i])
            else Best(scores[..i], init)
  {
    assert scores[..i + 1][..i] == scores[..i];
  }

  /** The outcome of a nearest-centroid lookup: the chosen key (if any) and
      the best similarity found. */
  datatype Match<K> = Match(key: Option<K>, similarity: real)

  /** The similarity of the embedding to each centroid, in dictionary order. */
  function Scores<K>(embedding: Vec, centroids: seq<(K, Vec)>, sim: (Vec, Vec) -> real): (s: seq<real>)
    ensures |s| == |centroids|
    ensures forall i | 0 <= i < |centroids| :: s[i] == sim(embedding, centroids[i].1)
  {
    seq(|centroids|, i requires 0 <= i < |centroids| => sim(embedding, centroids[i].1))
  }

  /** The key at a position the scan picked, or None. */
  function KeyAt<K>(centroids: seq<(K, Vec)>, index: Option<nat>): Option<K> {
    if index.Some? && index.value < |centroids| then Some(centroids[index.value].0) else None
  }

  /** Nearest centroid with a threshold: nothing for an empty dictionary;
      otherwise the running best starts at -1.0, moves only on a strictly
      greater similarity, and its key is kept only when the best similarity
      reaches the threshold. */
  function NearestKey<K>(embedding: Vec, centroids: seq<(K, Vec)>, threshold: real, sim: (Vec, Vec) -> real): Match<K> {
    if centroids == [] then Match(None, 0.0)
    else
      var p := Best(Scores(embedding, centroids, sim), -1.0);
      Match(if p.score >= threshold then KeyAt(centroids, p.index) else None, p.score)
  }

  /** What the lookup promises: the empty case; the reported similarity is the
      largest one (or the start value -1.0 when nothing beats it); a key is
      returned exactly when some similarity beats -1.0 and the best reaches
      the threshold, and it is the first key of the dictionary with the best
      similarity. */
  lemma NearestKeySpec<K>(embedding: Vec, centroids: seq<(K, Vec)>, threshold: real, sim: (Vec, Vec) -> real)
    ensures centroids == [] ==> NearestKey(embedding, centroids, threshold, sim) == Match(None, 0.0)
    ensures centroids != [] ==>
              var r := NearestKey(embedding, centroids, threshold, sim);
              && r.similarity >= -1.0
              && (forall i | 0 <= i < |centroids| :: sim(embedding, centroids[i].1) <= r.similarity)
              && (r.similarity == -1.0 || exists i | 0 <= i < |centroids| :: sim(embedding, centroids[i].1) == r.similarity)
    ensures var r := NearestKey(embedding, centroids, threshold, sim);
            r.key.Some? <==>
              r.similarity >= threshold && exists i | 0 <= i < |centroids| :: sim(embedding, centroids[i].1) > -1.0
    ensures var r := NearestKey(embedding, centroids, threshold, sim);
            r.key.Some? ==>
              r.key.value in Keys(centroids)
              && exists k | 0 <= k < |centroids| ::
                   && centroids[k].0 == r.key.value
                   && sim(embedding, centroids[k].1) == r.similarity
                   && forall j | 0 <= j < k :: sim(embedding, centroids[j].1) < r.similarity
  {
    if centroids != [] {
      var scores := Scores(embedding, centroids, sim);
      BestSpec(scores, -1.0);
      var p := Best(scores, -1.0);
      if p.index.Some? {
        var k := p.index.value;
        assert Keys(centroids)[k] == centroids[k].0;
        assert sim(embedding, centroids[k].1) == p.score;
      }
    }
  }

  /** Raising the threshold keeps the similarity and can only drop the key. */
  lemma NearestKeyThreshold<K>(embedding: Vec, centroids: seq<(K, Vec)>, t1: real, t2: real, sim: (Vec, Vec) -> real)
    requires t1 <= t2
    ensures NearestKey(embedding, centroids, t2, sim).similarity == NearestKey(embedding, centroids, t1, sim).similarity
    ensures NearestKey(embedding, centroids, t1, sim).key.None? ==> NearestKey(embedding, centroids, t2, sim).key.None?
    ensures NearestKey(embedding, centroids, t2, sim).key.Some? ==>
              NearestKey(embedding, centroids, t2, sim).key == NearestKey(embedding, centroids, t1, sim).key
  {
  }
}
