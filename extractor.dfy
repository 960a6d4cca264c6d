/** Rule-based extraction of a prompt's "DNA": its structure, the variable
    placeholders it uses and keyword-based instructions. The SHA-256 hex
    digest is the parameter `sha256`. */
module DnaExtractor {
  import opened Wrappers
  import opened PyStrings
  import opened PyLists
  import opened WordPatterns
  import opened PromptDna

  // ---------------------------------------------------------------------
  // _detect_variables

  /** `VARIABLE_PATTERNS`, each as the literal before and after its `(\w+)`:
      `{{x}}`, `{x}`, `$x`, `[x]`, `<x>` and `__x__`. */
  const VariablePatterns: seq<(string, string)> :=
    [("{{", "}}"), ("{", "}"), ("$", ""), ("[", "]"), ("<", ">"), ("__", "__")]

  /** The matches of the first `n` patterns, pattern by pattern. */
  function PatternMatches(text: string, n: nat): (r: seq<string>)
    requires n <= |VariablePatterns|
    ensures forall i | 0 <= i < |r| :: IsWord(r[i])
    decreases n
  {
    if n == 0 then []
    else PatternMatches(text, n - 1) + FindAll(text, VariablePatterns[n - 1].0, VariablePatterns[n - 1].1)
  }

  /** What `_detect_variables` returns. */
  function Variables(text: string): PromptVariables {
    var detected := Dedupe(PatternMatches(text, |VariablePatterns|));
    PromptVariables(detected, |detected|)
  }

  /** `_detect_variables`. */
  method DetectVariables(text: string) returns (variables: PromptVariables)
    ensures variables == Variables(text)
  {
    var detected: seq<string> := [];
    for n := 0 to |VariablePatterns|
      invariant detected == PatternMatches(text, n)
    {
      var (open, close) := VariablePatterns[n];
      detected := detected + FindAll(text, open, close);
    }
    detected := Dedupe(detected);
    variables := PromptVariables(detected, |detected|);
  }

  /** A name is among the first `n` patterns' matches exactly when one of
      those patterns finds it. */
  lemma {:induction false} PatternMatchesMember(text: string, n: nat, x: string)
    requires n <= |VariablePatterns|
    ensures x in PatternMatches(text, n) <==>
              exists k | 0 <= k < n :: x in FindAll(text, VariablePatterns[k].0, VariablePatterns[k].1)
    decreases n
  {
    if n > 0 {
      PatternMatchesMember(text, n - 1, x);
    }
  }

  /** The detected names are words without repeats, exactly the names some
      pattern finds, in the order in which the patterns, one after the other,
      first find them; and `slots` counts them. */
  lemma VariablesSpec(text: string, x: string)
    ensures var v, all := Variables(text), PatternMatches(text, |VariablePatterns|);
            && NoDuplicates(v.detected)
            && (forall y | y in v.detected :: y in all)
            && (forall i, j | 0 <= i < j < |v.detected| ::
                  FirstIndex(all, v.detected[i]) < FirstIndex(all, v.detected[j]))
            && v.slots == |v.detected|
            && (forall i | 0 <= i < |v.detected| :: IsWord(v.detected[i]))
            && (x in v.detected <==>
                  exists k | 0 <= k < |VariablePatterns| :: x in FindAll(text, VariablePatterns[k].0, VariablePatterns[k].1))
  {
    var all := PatternMatches(text, |VariablePatterns|);
    DedupeSpec(all);
    PatternMatchesMember(text, |VariablePatterns|, x);
    forall i | 0 <= i < |Dedupe(all)| ensures IsWord(Dedupe(all)[i]) {
      assert Dedupe(all)[i] in all;
    }
  }

  // ---------------------------------------------------------------------
  // _extract_structure

  /** `(?i)system` matches at `i`. */
  predicate SystemAt(text: string, i: nat) {
    i + 6 <= |text| && Lower(text[i..i + 6]) == "system"
  }

  /** The leftmost match of `(?i)system` at or after `i`. */
  function FirstSystem(text: string, i: nat): (r: Option<nat>)
    requires i <= |text|
    ensures r.Some? ==> i <= r.value && SystemAt(text, r.value)
    ensures r.Some? ==> forall j | i <= j < r.value :: !SystemAt(text, j)
    ensures r.None? ==> forall j | i <= j <= |text| :: !SystemAt(text, j)
    decreases |text| - i
  {
    if i + 6 > |text| then None
    else if SystemAt(text, i) then Some(i)
    else FirstSystem(text, i + 1)
  }

  /** What follows a match of `system\s*:?\s*` starting at `i`: the
      greedy whitespace, at most one colon, more whitespace. */
  function AfterSystem(text: string, i: nat): string
    requires i + 6 <= |text|
  {
    var rest := LStrip(text[i + 6..]);
    LStrip(if rest != [] && rest[0] == ':' then rest[1..] else rest)
  }

  /** The branch taken when a system prompt marker is present: the first
      line of what follows the marker, and the remaining lines (or the same
      text when it has a single line). */
  function SystemSplit(after: string): (string, string) {
    var lines := Split(after, '\n');
    (lines[0], if |lines| > 1 then JoinWith("\n", lines[1..]) else after)
  }

  /** What `_extract_structure` returns. */
  function StructureOf(text: string): PromptStructure {
    var lower := Lower(text);
    var m := FirstSystem(text, 0);
    var tokens := |text| / 4;
    if (Contains(lower, "system:") || Contains(lower, "system message:")) && m.Some? then
      var (system, user) := SystemSplit(AfterSystem(text, m.value));
      PromptStructure(Some(system), user, None, tokens)
    else PromptStructure(None, text, None, tokens)
  }

  lemma {:induction false} JoinSplit(s: string, sep: char)
    ensures JoinWith([sep], Split(s, sep)) == s
    decreases |s|
  {
    if s != [] {
      var rest := Split(s[1..], sep);
      JoinSplit(s[1..], sep);
      if s[0] != sep && |rest| > 1 {
        assert JoinWith([sep], rest) == rest[0] + [sep] + JoinWith([sep], rest[1..]);
        assert ([[s[0]] + rest[0]] + rest[1..])[1..] == rest[1..];
      }
    }
  }

  /** The system message is the first line after the marker and the user
      message the lines after it; a single line is both. */
  lemma SystemSplitSpec(after: string)
    ensures '\n' !in after ==> SystemSplit(after) == (after, after)
    ensures forall a, b | after == a + "\n" + b && '\n' !in a :: SystemSplit(after) == (a, b)
  {
    if '\n' !in after {
      SplitNoSep(after, '\n');
    }
    forall a, b | after == a + "\n" + b && '\n' !in a ensures SystemSplit(after) == (a, b) {
      SplitAppend(a, b, '\n');
      SplitNoSep(a, '\n');
      JoinSplit(b, '\n');
      assert Split(after, '\n')[1..] == Split(b, '\n');
    }
  }

  /** Lower-casing commutes with slicing. */
  lemma LowerSlice(s: string, i: nat, j: nat)
    requires i <= j <= |s|
    ensures Lower(s)[i..j] == Lower(s[i..j])
  {
  }

  /** An occurrence of `system:` in the lower-cased text is a match of
      `(?i)system`. */
  lemma {:induction false} ContainsSystem(text: string, k: nat, p: string)
    requires k <= |text| && |p| >= 6 && p[..6] == "system" && Contains(Lower(text)[k..], p)
    ensures FirstSystem(text, k).Some?
    decreases |text| - k
  {
    var l := Lower(text)[k..];
    if StartsWith(l, p) {
      assert l[..6] == Lower(text)[k..k + 6];
      LowerSlice(text, k, k + 6);
      assert SystemAt(text, k);
    } else {
      assert l[1..] == Lower(text)[k + 1..];
      ContainsSystem(text, k + 1, p);
      if SystemAt(text, k) {
      }
    }
  }

  /** The token estimate is a quarter of the length, there is never an
      assistant prefill, and without a `system:` or `system message:`
      marker (in any case) the whole text is the user message. With one,
      the system message is the first line after the leftmost `system`. */
  lemma StructureSpec(text: string)
    ensures var s := StructureOf(text);
            && s.totalTokens == |text| / 4
            && s.assistantPrefill.None?
            && (s.systemMessage.None? <==> !Contains(Lower(text), "system:") && !Contains(Lower(text), "system message:"))
            && (s.systemMessage.None? ==> s.userMessage == text)
            && (s.systemMessage.Some? ==> s.systemMessage.value == SystemSplit(AfterSystem(text, FirstSystem(text, 0).value)).0)
  {
    assert Lower(text)[0..] == Lower(text);
    if Contains(Lower(text), "system:") {
      ContainsSystem(text, 0, "system:");
    } else if Contains(Lower(text), "system message:") {
      ContainsSystem(text, 0, "system message:");
    }
  }

  // ---------------------------------------------------------------------
  // _extract_instructions

  /** `tone_keywords`, in its insertion order. */
  const ToneKeywords: seq<(string, seq<string>)> := [
    ("professional", ["professional", "formal", "business"]),
    ("friendly", ["friendly", "casual", "conversational"]),
    ("concise", ["concise", "brief", "short"])]

  /** `any(kw in text_lower for kw in keywords)`. */
  predicate AnyIn(keywords: seq<string>, lower: string) {
    exists k | 0 <= k < |keywords| :: Contains(lower, keywords[k])
  }

  /** The tones found among the first `n` entries. */
  function Tones(lower: string, n: nat): (r: seq<string>)
    requires n <= |ToneKeywords|
    ensures |r| <= n
    decreases n
  {
    if n == 0 then []
    else Tones(lower, n - 1) + if AnyIn(ToneKeywords[n - 1].1, lower) then [ToneKeywords[n - 1].0] else []
  }

  /** The detected format. */
  function FormatOf(lower: string): Option<string> {
    if Contains(lower, "json") then Some("JSON")
    else if Contains(lower, "markdown") then Some("markdown")
    else None
  }

  /** The detected constraints. */
  function ConstraintsOf(lower: string): seq<string> {
    (if Contains(lower, "under") && (Contains(lower, "word") || Contains(lower, "token")) then ["length_limit"] else [])
    + (if Contains(lower, "bullet") || Contains(lower, "list") then ["use_bullet_points"] else [])
  }

  /** What `_extract_instructions` returns. */
  function Instructions(text: string): PromptInstructions {
    var lower := Lower(text);
    PromptInstructions(Tones(lower, |ToneKeywords|), FormatOf(lower), ConstraintsOf(lower),
                       CountOcc(text, "example") + CountOcc(text, "Example"))
  }

  /** `_extract_instructions`. */
  method ExtractInstructions(text: string) returns (instructions: PromptInstructions)
    ensures instructions == Instructions(text)
  {
    var lower := Lower(text);
    var format: Option<string> := None;
    if Contains(lower, "json") {
      format := Some("JSON");
    } else if Contains(lower, "markdown") {
      format := Some("markdown");
    }
    var examplesCount := CountOcc(text, "example") + CountOcc(text, "Example");
    var tone: seq<string> := [];
    for n := 0 to |ToneKeywords|
      invariant tone == Tones(lower, n)
    {
      var (toneName, keywords) := ToneKeywords[n];
      if AnyIn(keywords, lower) {
        tone := tone + [toneName];
      }
    }
    var constraints: seq<string> := [];
    if Contains(lower, "under") && (Contains(lower, "word") || Contains(lower, "token")) {
      constraints := constraints + ["length_limit"];
    }
    if Contains(lower, "bullet") || Contains(lower, "list") {
      constraints := constraints + ["use_bullet_points"];
    }
    instructions := PromptInstructions(tone, format, constraints, examplesCount);
  }

  /** Position of a tone name in `tone_keywords`. */
  function ToneRank(name: string): nat {
    if name == "professional" then 0 else if name == "friendly" then 1 else 2
  }

  /** The tones found among the first `n` entries are listed once each, in
      the order of `tone_keywords`, and exactly those whose keywords occur. */
  lemma {:induction false} TonesSpec(lower: string, n: nat)
    requires n <= |ToneKeywords|
    ensures forall i, j | 0 <= i < j < |Tones(lower, n)| :: ToneRank(Tones(lower, n)[i]) < ToneRank(Tones(lower, n)[j])
    ensures forall i | 0 <= i < |Tones(lower, n)| :: ToneRank(Tones(lower, n)[i]) < n
    ensures forall k | 0 <= k < n :: ToneKeywords[k].0 in Tones(lower, n) <==> AnyIn(ToneKeywords[k].1, lower)
    decreases n
  {
    if n > 0 {
      TonesSpec(lower, n - 1);
      assert ToneRank(ToneKeywords[n - 1].0) == n - 1;
      forall k | 0 <= k < n ensures ToneRank(ToneKeywords[k].0) == k {
      }
    }
  }

  /** The format is JSON when "json" occurs in any case, else markdown when
      "markdown" does; `length_limit` is reported exactly when "under" and
      "word" or "token" occur, `use_bullet_points` exactly when "bullet" or
      "list" does; the example count is at most a seventh of the length. */
  lemma InstructionsSpec(text: string)
    ensures var ins := Instructions(text);
            var lower := Lower(text);
            && (ins.format == Some("JSON") <==> Contains(lower, "json"))
            && (ins.format == Some("markdown") <==> !Contains(lower, "json") && Contains(lower, "markdown"))
            && (ins.format.None? <==> !Contains(lower, "json") && !Contains(lower, "markdown"))
            && ("length_limit" in ins.constraints <==> Contains(lower, "under") && (Contains(lower, "word") || Contains(lower, "token")))
            && ("use_bullet_points" in ins.constraints <==> Contains(lower, "bullet") || Contains(lower, "list"))
            && |ins.constraints| <= 2
            && ins.examplesCount * 7 <= 2 * |text|
            && |ins.tone| <= 3
  {
    CountOccBound(text, "example");
    CountOccBound(text, "Example");
  }

  // ---------------------------------------------------------------------
  // extract_dna

  /** What `extract_dna` returns. */
  function DnaOf(rawText: string, metadata: Option<seq<(string, string)>>, sha256: string -> string): PromptDNA {
    var hash := sha256(rawText);
    PromptDNA("pg-" + hash[..SliceEnd(|hash|, 8)], rawText, hash, StructureOf(rawText), Variables(rawText),
              Instructions(rawText), [], metadata.GetOr([]))
  }

  /** `extract_dna`. */
  method ExtractDna(rawText: string, metadata: Option<seq<(string, string)>>, sha256: string -> string)
    returns (dna: PromptDNA)
    ensures dna == DnaOf(rawText, metadata, sha256)
  {
    var promptHash := sha256(rawText);
    var structure := StructureOf(rawText);
    var variables := DetectVariables(rawText);
    var instructions := ExtractInstructions(rawText);
    var embedding: seq<real> := [];
    dna := PromptDNA("pg-" + promptHash[..SliceEnd(|promptHash|, 8)], rawText, promptHash, structure, variables,
                     instructions, embedding, if metadata.Some? then metadata.value else []);
  }

  /** The id is "pg-" and the first eight characters of the hash of the raw
      text; the text is kept; there is no embedding yet; absent metadata
      is the empty dict. */
  lemma DnaSpec(rawText: string, metadata: Option<seq<(string, string)>>, sha256: string -> string)
    ensures var dna := DnaOf(rawText, metadata, sha256);
            && dna.hash == sha256(rawText)
            && |dna.id| <= 11 && dna.id[..3] == "pg-"
            && (|dna.hash| >= 8 ==> dna.id == "pg-" + dna.hash[..8])
            && dna.id[3..] <= dna.hash
            && dna.rawText == rawText
            && !dna.HasEmbedding()
            && (metadata.None? ==> dna.metadata == [])
  {
  }
}
