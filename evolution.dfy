/** Evolution tracking (packages/clustering/evolution.py): classifying a new
    prompt against existing families with the confidence ladder, and naming
    the kind of change between a parent prompt and its child. */
module Evolution {
  import opened Wrappers
  import opened Vectors
  import opened Nearest
  import opened PromptDna
  import opened Engine

  datatype Classification = ExactMatch | Variant | NewFamilyClass
  {
    function Name(): string {
      match this
      case ExactMatch => "exact_match"
      case Variant => "variant"
      case NewFamilyClass => "new_family"
    }

    /** How confident the class is: new family < variant < exact match. */
    function Rank(): nat {
      match this
      case NewFamilyClass => 0
      case Variant => 1
      case ExactMatch => 2
    }
  }

  datatype Outcome = Outcome(classification: Classification, familyId: Option<string>, confidence: real)

  /** `[p.embedding for p in family_prompts if p.embedding]`. */
  function FamilyEmbeddings(family: (string, seq<PromptDNA>)): seq<Vec> {
    Embeddings(family.1)
  }

  /** The confidence of the new prompt for each family; a family without
      embedded members scores 0.0, which never beats the start value. */
  function FamilyScores(newPrompt: PromptDNA, families: seq<(string, seq<PromptDNA>)>, sim: (Vec, Vec) -> real): (s: seq<real>)
    ensures |s| == |families|
    ensures forall i | 0 <= i < |families| :: s[i] == ComputeConfidence(newPrompt, FamilyEmbeddings(families[i]), sim)
  {
    seq(|families|, i requires 0 <= i < |families| => ComputeConfidence(newPrompt, FamilyEmbeddings(families[i]), sim))
  }

  /** The ladder at the end of `classify_new_prompt`. */
  function Ladder(bestConfidence: real, bestFamilyId: Option<string>): Outcome {
    if bestConfidence >= AutoMerge then Outcome(ExactMatch, bestFamilyId, bestConfidence)
    else if bestConfidence >= SuggestMerge then Outcome(Variant, bestFamilyId, bestConfidence)
    else Outcome(NewFamilyClass, None, bestConfidence)
  }

  /** A higher best confidence never gives a less confident class; the
      `new_family` threshold plays no part, so there are three classes. */
  lemma LadderMonotone(c1: real, c2: real, id1: Option<string>, id2: Option<string>)
    requires c1 <= c2
    ensures Ladder(c1, id1).classification.Rank() <= Ladder(c2, id2).classification.Rank()
    ensures Ladder(c1, id1).classification == NewFamilyClass <==> c1 < SuggestMerge
    ensures Ladder(c1, id1).classification == ExactMatch <==> c1 >= AutoMerge
  {
  }

  /** What `classify_new_prompt` returns. */
  function Classify(newPrompt: PromptDNA, families: seq<(string, seq<PromptDNA>)>, sim: (Vec, Vec) -> real): Outcome {
    if !newPrompt.HasEmbedding() then Outcome(NewFamilyClass, None, 0.0)
    else
      var p := Best(FamilyScores(newPrompt, families, sim), 0.0);
      Ladder(p.score, if p.index.Some? && p.index.value < |families| then Some(families[p.index.value].0) else None)
  }

  /** `classify_new_prompt`: the best family moves only on a strictly greater
      confidence, starting from 0.0; families with no embedded members are
      skipped. */
  method ClassifyNewPrompt(newPrompt: PromptDNA, families: seq<(string, seq<PromptDNA>)>, sim: (Vec, Vec) -> real)
    returns (r: Outcome)
    ensures r == Classify(newPrompt, families, sim)
  {
    if !newPrompt.HasEmbedding() {
      return Outcome(NewFamilyClass, None, 0.0);
    }
    ghost var scores := FamilyScores(newPrompt, families, sim);
    var bestConfidence := 0.0;
    var bestFamilyId: Option<string> := None;
    ghost var bestIndex: Option<nat> := None;
    var i := 0;
    while i < |families|
      invariant 0 <= i <= |families|
      invariant Best(scores[..i], 0.0) == Pick(bestIndex, bestConfidence)
      invariant bestFamilyId == if bestIndex.Some? && bestIndex.value < |families| then Some(families[bestIndex.value].0) else None
    {
      BestStep(scores, i, 0.0);
      BestSpec(scores[..i], 0.0);
      var familyId, familyPrompts := families[i].0, families[i].1;
      var familyEmbeddings := Embeddings(familyPrompts);
      if familyEmbeddings == [] {
        i := i + 1;
        continue;
      }
      var confidence := ComputeConfidence(newPrompt, familyEmbeddings, sim);
      if confidence > bestConfidence {
        bestConfidence := confidence;
        bestFamilyId := Some(familyId);
        bestIndex := Some(i);
      }
      i := i + 1;
    }
    assert scores[..i] == scores;
    r := Ladder(bestConfidence, bestFamilyId);
  }

  /** What the classification promises: without an embedding, a new family
      with confidence 0.0; otherwise the confidence is the best family score
      (at least 0.0); a family id comes back exactly for an exact match or a
      variant, and it is the first family reaching the best score, which is
      positive, so a family with no embedded members is never chosen. */
  lemma ClassifySpec(newPrompt: PromptDNA, families: seq<(string, seq<PromptDNA>)>, sim: (Vec, Vec) -> real)
    ensures !newPrompt.HasEmbedding() ==> Classify(newPrompt, families, sim) == Outcome(NewFamilyClass, None, 0.0)
    ensures var r := Classify(newPrompt, families, sim);
            && r.confidence >= 0.0
            && (newPrompt.HasEmbedding() ==>
                 forall i | 0 <= i < |families| ::
                   ComputeConfidence(newPrompt, FamilyEmbeddings(families[i]), sim) <= r.confidence)
            && (r.familyId.Some? <==> r.classification != NewFamilyClass)
            && (r.classification == ExactMatch ==> r.confidence >= AutoMerge)
            && (r.classification == Variant ==> SuggestMerge <= r.confidence < AutoMerge)
            && (r.classification == NewFamilyClass ==> r.confidence < SuggestMerge)
    ensures var r := Classify(newPrompt, families, sim);
            r.familyId.Some? ==>
              exists k | 0 <= k < |families| ::
                && families[k].0 == r.familyId.value
                && FamilyEmbeddings(families[k]) != []
                && ComputeConfidence(newPrompt, FamilyEmbeddings(families[k]), sim) == r.confidence
                && forall j | 0 <= j < k :: ComputeConfidence(newPrompt, FamilyEmbeddings(families[j]), sim) < r.confidence
  {
    if newPrompt.HasEmbedding() {
      var scores := FamilyScores(newPrompt, families, sim);
      BestSpec(scores, 0.0);
      var p := Best(scores, 0.0);
      if p.index.Some? {
        var k := p.index.value;
        assert scores[k] == p.score > 0.0;
        assert FamilyEmbeddings(families[k]) != [];
      } else {
        assert p.score == 0.0;
      }
    }
  }

  datatype MutationType = Unknown | VariableChange | SystemChange | MinorEdit | ModerateChange | MajorChange
  {
    function Name(): string {
      match this
      case Unknown => "unknown"
      case VariableChange => "variable_change"
      case SystemChange => "system_change"
      case MinorEdit => "minor_edit"
      case ModerateChange => "moderate_change"
      case MajorChange => "major_change"
    }
  }

  /** `set(dna.variables.detected)`. */
  function VariableSet(dna: PromptDNA): set<string> {
    set v | v in dna.variables.detected
  }

  /** `detect_mutation_type`. */
  function DetectMutationType(parent: PromptDNA, child: PromptDNA, sim: (Vec, Vec) -> real): MutationType {
    if !parent.HasEmbedding() || !child.HasEmbedding() then Unknown
    else
      var confidence := ComputeConfidence(child, [parent.embedding], sim);
      if VariableSet(parent) != VariableSet(child) then VariableChange
      else if parent.structure.systemMessage != child.structure.systemMessage then SystemChange
      else if confidence >= 0.95 then MinorEdit
      else if confidence >= 0.80 then ModerateChange
      else MajorChange
  }

  /** The mutation kinds: a missing embedding makes it unknown; a different
      variable set comes before a different system message; otherwise the
      similarity of child to parent decides, at 0.95 and 0.80. Order and
      repetition of the variables do not matter. */
  lemma DetectMutationTypeSpec(parent: PromptDNA, child: PromptDNA, sim: (Vec, Vec) -> real)
    ensures var m := DetectMutationType(parent, child, sim);
            && (m == Unknown <==> !parent.HasEmbedding() || !child.HasEmbedding())
            && (m == VariableChange <==>
                  parent.HasEmbedding() && child.HasEmbedding()
                  && exists v :: (v in parent.variables.detected) != (v in child.variables.detected))
            && (m == SystemChange ==> parent.structure.systemMessage != child.structure.systemMessage)
            && (m in {MinorEdit, ModerateChange, MajorChange} ==>
                  VariableSet(parent) == VariableSet(child)
                  && parent.structure.systemMessage == child.structure.systemMessage)
            && (m == MinorEdit ==> sim(child.embedding, parent.embedding) >= 0.95)
            && (m == ModerateChange ==> 0.80 <= sim(child.embedding, parent.embedding) < 0.95)
            && (m == MajorChange ==> sim(child.embedding, parent.embedding) < 0.80)
  {
    if parent.HasEmbedding() && child.HasEmbedding() {
      ComputeConfidenceSingle(child, parent.embedding, sim);
      if VariableSet(parent) != VariableSet(child) {
        var v :| v in VariableSet(parent) - VariableSet(child) || v in VariableSet(child) - VariableSet(parent);
        assert (v in parent.variables.detected) != (v in child.variables.detected);
      } else {
        forall v ensures (v in parent.variables.detected) == (v in child.variables.detected) {
          assert v in parent.variables.detected <==> v in VariableSet(parent);
          assert v in child.variables.detected <==> v in VariableSet(child);
        }
      }
    }
  }
}
