/** The prompt "DNA" record the clustering and evolution code reads: an id,
    the raw text and its hash, the parsed structure, the detected variables,
    the heuristic instructions, an embedding and free-form metadata. A
    missing embedding and an empty one are both the empty vector, since the
    code only ever tests it for truthiness. */
module PromptDna {
  import opened Wrappers
  import opened Vectors

  datatype PromptStructure = PromptStructure(
    systemMessage: Option<string>,
    userMessage: string,
    assistantPrefill: Option<string>,
    totalTokens: int)

  datatype PromptVariables = PromptVariables(detected: seq<string>, slots: int)

  datatype PromptInstructions = PromptInstructions(
    tone: seq<string>,
    format: Option<string>,
    constraints: seq<string>,
    examplesCount: int)

  datatype PromptDNA = PromptDNA(
    id: string,
    rawText: string,
    hash: string,
    structure: PromptStructure,
    variables: PromptVariables,
    instructions: PromptInstructions,
    embedding: Vec,
    metadata: seq<(string, string)>)
  {
    /** `if dna.embedding`. */
    predicate HasEmbedding() {
      embedding != []
    }
  }

  /** The prompts with an embedding, in order. */
  function WithEmbedding(dnas: seq<PromptDNA>): (r: seq<PromptDNA>)
    ensures |r| <= |dnas|
    decreases |dnas|
  {
    if dnas == [] then []
    else
      var n := |dnas| - 1;
      WithEmbedding(dnas[..n]) + if dnas[n].HasEmbedding() then [dnas[n]] else []
  }

  /** `[dna.embedding for dna in dnas if dna.embedding]`. */
  function Embeddings(dnas: seq<PromptDNA>): (es: seq<Vec>)
    ensures |es| == |WithEmbedding(dnas)|
  {
    var w := WithEmbedding(dnas);
    seq(|w|, i requires 0 <= i < |w| => w[i].embedding)
  }

  function Ids(dnas: seq<PromptDNA>): (ids: seq<string>)
    ensures |ids| == |dnas| && forall i | 0 <= i < |dnas| :: ids[i] == dnas[i].id
  {
    seq(|dnas|, i requires 0 <= i < |dnas| => dnas[i].id)
  }
}
