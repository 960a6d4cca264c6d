# Evolv prompt-template core, modelled in Dafny

Evolv ingests LLM prompts, groups them into families, and turns each family into a
reusable template. This project models the decision and bookkeeping code between
its numeric libraries:

- **Classification.** Nearest-centroid assignment with a threshold
  (`ml_core/incremental.py`, `ml_core/incremental_worker.py`), the post-processing of
  HDBSCAN/KMeans labels and centroid means (`ml_core/clustering.py`), the family
  grouping and confidence of `clustering/engine.py`, and the confidence ladder of
  `clustering/evolution.py`. The top-k intent matcher is in `template_engine/intent_mapper.py`.
- **Template engine.**
  - Token alignment by longest common subsequence (`alignment.py`).
  - Slot typing, naming and parameter validation (`slot_detector.py`).
  - Template building and its dictionary form (`template_builder.py`).
  - Semantic-version bumps (`versioning.py`).
  - Rendering and the JSON schema of a template API (`exposure.py`).
  - The structure check of an LLM refinement (`refinement.py`).
- **Ingestion text utilities.**
  - SimHash fingerprints and the near-duplicate index (`ingestion/dedup.py`).
  - The whitespace normalisers (`ingestion/normalizer.py`, `ml_core/normalization.py`).
  - Rule-based prompt-DNA extraction (`dna_extractor/extractor.py`).

Each core source file is one Dafny module. Loops that update variables in place are
`method`s with loop invariants. Objects whose fields change are `class`es:
`IncrementalWorker.Worker`, `IntentMapper`, `SlotValidator` and
`SimHashDeduplicator`. `TemplateApi` never changes its fields after construction,
so it is a datatype. Each method is proved against a specification function, and
the properties the code promises are lemmas about those functions.

Shared modules hold the Python built-ins the code relies on:

- `Wrappers`: `Option` and `Result`.
- `PyStrings`: `str.strip`, `split`, `replace`, `count`, `lower`, `int` and `str`.
- `PyLists`: `dict.fromkeys` deduplication and `reversed`.
- `PyDict`: insertion-ordered dictionaries as sequences of pairs.
- `StableSort`: `sorted(..., reverse=True)`, which is stable.
- `WordPatterns`: `re.findall` of `open(\w+)close`.
- `TemplateText`: `{{name}}` placeholders.
- `Grouping`, `Vectors` and `Nearest`: label grouping, component-wise means and the running-best scan.

Similarities, norms, hashes (MD5, SHA-256), uuids, the clustering algorithms, the
embedder and `difflib.SequenceMatcher` are outside the model. They appear as
parameters or inputs: a function, a label per id, or the list of opcodes.

## Model

| member | source | states |
|---|---|---|
| Alignment.Tokenize | packages/template_engine/alignment.py:30-37 | no tokens exactly for the empty text; every token is non-empty and the first starts with the text's first character |
| Alignment.TokenizeConcat | packages/template_engine/alignment.py:36 | joining the tokens gives back the text |
| Alignment.TokenizeRuns | packages/template_engine/alignment.py:36 | each token is all whitespace or all non-whitespace |
| Alignment.TokenizeAlternates | packages/template_engine/alignment.py:36 | neighbouring tokens are of opposite kinds, so the runs are maximal |
| Alignment.RunEnd | packages/template_engine/alignment.py:36 | the leading run ends at the first character of the other kind |
| Alignment.FillRow | packages/template_engine/alignment.py:79-83 | one row of the DP table holds the LCS recurrence's values and the other rows are unchanged |
| Alignment.FillTable | packages/template_engine/alignment.py:74-83 | every table entry `dp[i][j]` is the length of the LCS recurrence at `(i, j)` |
| Alignment.Walk | packages/template_engine/alignment.py:86-96 | the backtracking loop collects, last first, the tokens of the backtrack walk from the corner |
| Alignment.LcsTokens | packages/template_engine/alignment.py:71-98 | `_lcs_tokens` returns the backtracked common subsequence |
| Alignment.BacktrackLength | packages/template_engine/alignment.py:86-96 | the walk collects as many tokens as the table entry it starts from |
| Alignment.BacktrackSpec | packages/template_engine/alignment.py:86-96 | the walk spells out a subsequence of both prefixes, with increasing positions in each |
| Alignment.LcsLengthOptimal | packages/template_engine/alignment.py:76-83 | no common subsequence of two prefixes is longer than the table entry |
| Alignment.LcsSpec | packages/template_engine/alignment.py:71-98 | the result is a common subsequence of both lists, of length `dp[m][n]`, and no common subsequence is longer |
| Alignment.LcsOfEmpty | packages/template_engine/alignment.py:71-98 | an empty first list gives an empty result |
| Alignment.TokenizeAll | packages/template_engine/alignment.py:57 | one token list per text, in order |
| Alignment.CommonTokensEmpty | packages/template_engine/alignment.py:65-66 | once the running common tokens are empty they stay empty, which is why the loop may stop early |
| Alignment.CommonTokensSpec | packages/template_engine/alignment.py:60-66 | the running common tokens are a subsequence of every token list folded in so far |
| Alignment.FoldLcs | packages/template_engine/alignment.py:60-66 | the loop, early exit included, computes the fold of `_lcs_tokens` over all token lists |
| Alignment.FindLcs | packages/template_engine/alignment.py:40-68 | `find_lcs` returns the text of the folded common tokens, with the two early returns |
| Alignment.LcsTextSpec | packages/template_engine/alignment.py:40-68 | no texts give "", one text gives itself, and otherwise the result is the join of tokens that occur in order in every text |
| Alignment.MarkOp | packages/template_engine/alignment.py:171-176 | one non-equal opcode clears the mask over `range(i1, min(i2, n))` and appends the other prompt's text there when `j1 < j2`; other positions are unchanged |
| Alignment.MarkOther | packages/template_engine/alignment.py:167-176 | after one other prompt, a position stays common exactly when none of its opcodes hits it |
| Alignment.MarkAll | packages/template_engine/alignment.py:163-176 | the mask and the variable examples after comparing with every other prompt |
| Alignment.CoveredSpec | packages/template_engine/alignment.py:170-173 | a position is hit by a prompt's opcodes exactly when some non-equal opcode's range holds it |
| Alignment.CommonSpec | packages/template_engine/alignment.py:163-176 | a position is common exactly when no other prompt's opcodes hit it |
| Alignment.RunStop | packages/template_engine/alignment.py:193-196 | the inner loop stops at the first common position or at the end |
| Alignment.AddExamples | packages/template_engine/alignment.py:194-195 | adding to the set keeps each example once, in first-insertion order |
| Alignment.CollectRegion | packages/template_engine/alignment.py:189-196 | the inner loop ends at the end of the variable run and collects the region's examples |
| Alignment.RegionExamplesSpec | packages/template_engine/alignment.py:190-195 | a region's examples are the reference token at its start and every text another prompt had inside it |
| Alignment.BuildStructure | packages/template_engine/alignment.py:179-200 | the outer loop builds the common parts and the regions that the structure function describes |
| Alignment.Mask | packages/template_engine/alignment.py:163-176 | one mask entry per reference token, true exactly when the position is common |
| Alignment.AlignPrompts | packages/template_engine/alignment.py:129-207 | `align_prompts` returns the described alignment for the given opcodes |
| Alignment.BuildLits | packages/template_engine/alignment.py:184-186 | the literal parts are exactly the common reference tokens, in order |
| Alignment.BuildHoles | packages/template_engine/alignment.py:199 | the placeholders are `slot_0, slot_1, ...`, one per region |
| Alignment.BuildRegions | packages/template_engine/alignment.py:188-200 | every region is a maximal non-empty run of variable positions, and its examples start with the reference token and hold no repeats |
| Alignment.BuildOrdered | packages/template_engine/alignment.py:182-200 | regions are strictly increasing and disjoint |
| Alignment.BuildCovers | packages/template_engine/alignment.py:182-200 | every variable position lies in some region |
| Alignment.PlacedCons | packages/template_engine/alignment.py:184-199 | putting one literal, or the placeholder just before the others, in front shifts each placeholder's position by one and keeps what precedes it |
| Alignment.PlacesLit | packages/template_engine/alignment.py:184-186 | a common token in front adds itself to the literals in front of every later placeholder |
| Alignment.PlacesHole | packages/template_engine/alignment.py:188-200 | a region in front becomes `{{slot_k}}` with nothing before it and puts one more placeholder in front of every later one |
| Alignment.BuildPlaces | packages/template_engine/alignment.py:182-200 | placeholder `{{slot_j}}` sits right after `slot_0 .. slot_{j-1}` and exactly the common tokens in front of region j |
| Alignment.BuildSpec | packages/template_engine/alignment.py:179-200 | all of the above for the outer loop |
| Alignment.AlignedSpec | packages/template_engine/alignment.py:129-207 | no prompts give an empty result; one prompt gives itself with no regions; otherwise the regions are maximal, ordered and cover the variable positions, and the structure is the common tokens with `{{slot_k}}` for region k, placed after exactly the common tokens in front of that region |
| SlotDetection.NumericOfInt | packages/template_engine/slot_detector.py:47 | the printed form of every integer matches `^-?\d+\.?\d*$` |
| SlotDetection.NumericChars | packages/template_engine/slot_detector.py:47 | a numeric match is non-empty and holds only digits, `-`, `.` and the final newline `$` lets through |
| SlotDetection.IsoDatePrefix | packages/template_engine/slot_detector.py:48 | the ISO branch of the date pattern is not anchored at the end, so anything may follow an ISO date |
| SlotDetection.EmailHasAt | packages/template_engine/slot_detector.py:49 | every string the email pattern accepts contains `@` |
| SlotDetection.UrlPatterns | packages/template_engine/slot_detector.py:50 | whatever `^https?://` accepts the URL pattern accepts, but `www.example.com` passes detection and fails the URL slot's validation pattern |
| SlotDetection.StripAll | packages/template_engine/slot_detector.py:73 | one stripped example per example |
| SlotDetection.CleanedMembers | packages/template_engine/slot_detector.py:73 | the cleaned examples are exactly the non-blank stripped examples |
| SlotDetection.CleanedStripped | packages/template_engine/slot_detector.py:73 | every cleaned example is non-blank and already stripped |
| SlotDetection.CleanedEmpty | packages/template_engine/slot_detector.py:73-75 | nothing is left exactly when every example is blank |
| SlotDetection.CleanedOfClean | packages/template_engine/slot_detector.py:73 | cleaning leaves stripped, non-blank examples as they are |
| SlotDetection.ClassifySpec | packages/template_engine/slot_detector.py:77-99 | each outcome of the cascade is chosen exactly when its check holds and no earlier check does |
| SlotDetection.DetectSlotTypeSpec | packages/template_engine/slot_detector.py:53-99 | no examples or only blank ones give TEXT; otherwise NUMERIC, DATE, EMAIL, URL in that priority when every cleaned example matches, then ENUM for at least 3 examples with at most 5 distinct values, else TEXT |
| SlotDetection.IntStringsClean | packages/template_engine/slot_detector.py:73 | printed integers are already clean |
| SlotDetection.IntegersAreNumeric | packages/template_engine/slot_detector.py:77-79 | examples that are all printed integers are typed NUMERIC |
| SlotDetection.DetectNumeric | packages/template_engine/slot_detector.py:77-79 | examples whose cleaned forms all match the numeric pattern are typed NUMERIC |
| SlotDetection.EnumBase | packages/template_engine/slot_detector.py:136 | the ENUM name's base is at most 15 characters |
| SlotDetection.NumericSlotName | packages/template_engine/slot_detector.py:115-122 | a NUMERIC slot detected from its own examples is always named `number_<i>`: such examples cannot contain "word" or `%` |
| SlotDetection.StripChars | packages/template_engine/slot_detector.py:73 | every character that `strip` removes is whitespace |
| SlotDetection.NumericExampleChars | packages/template_engine/slot_detector.py:78 | the examples of a NUMERIC slot hold only digits, `-`, `.`, whitespace and newline |
| SlotDetection.SlotsFor | packages/template_engine/slot_detector.py:155-186 | one slot per variable region |
| SlotDetection.SlotsForAt | packages/template_engine/slot_detector.py:157-184 | slot i is the one built for region i |
| SlotDetection.MakeSlot | packages/template_engine/slot_detector.py:158-183 | the loop body builds the slot for region i |
| SlotDetection.DetectSlots | packages/template_engine/slot_detector.py:143-186 | `detect_slots` returns the slots built region by region, in order |
| SlotDetection.SlotOfSpec | packages/template_engine/slot_detector.py:165-182 | a slot sits at its region's start and keeps its first ten examples; ENUM slots (and only they) list each example once; exactly NUMERIC, EMAIL and URL slots carry a pattern; every slot is required with no default |
| SlotDetection.SlotTableDistinct | packages/template_engine/slot_detector.py:193 | the validator's table has one entry per distinct name |
| SlotDetection.SlotTableKeys | packages/template_engine/slot_detector.py:193 | the table's names are exactly the slots' names |
| SlotDetection.SlotTableNames | packages/template_engine/slot_detector.py:193 | every slot is filed under its own name, and the last slot of a name wins |
| SlotDetection.SlotValidator.constructor | packages/template_engine/slot_detector.py:192-193 | the table is built from the slot list |
| SlotDetection.SlotValidator.Validate | packages/template_engine/slot_detector.py:195-255 | `validate` returns the validation result of the two loops |
| SlotDetection.SlotValidator.CheckRequired | packages/template_engine/slot_detector.py:208-214 | the first loop's errors and warnings, slot by slot |
| SlotDetection.SlotValidator.CheckValues | packages/template_engine/slot_detector.py:216-249 | the second loop's errors and warnings, parameter by parameter |
| SlotDetection.SlotValidator.CheckValue | packages/template_engine/slot_detector.py:218-249 | the checks of one parameter |
| SlotDetection.RequiredChecksSpec | packages/template_engine/slot_detector.py:208-214 | the first loop has no errors exactly when every required slot without a default was given; a missing required slot gives an error, or only a warning if it has a default |
| SlotDetection.ValueCheckStep | packages/template_engine/slot_detector.py:217-249 | a parameter has no error exactly when its value passes the type and pattern checks; an unknown name gives exactly one warning |
| SlotDetection.ValueChecksAccepted | packages/template_engine/slot_detector.py:217-249 | the second loop has no errors exactly when no parameter has one |
| SlotDetection.ValueChecksUnknown | packages/template_engine/slot_detector.py:218-220 | every unknown parameter's warning is among the warnings |
| SlotDetection.ValidationSpec | packages/template_engine/slot_detector.py:205-255 | `is_valid` holds exactly when there are no errors, that is, when every required slot without a default is given and every value is accepted; missing required slots and unknown names appear as the right messages |
| SlotDetection.UnknownParameter | packages/template_engine/slot_detector.py:218-220 | adding an unknown parameter adds one warning and no error |
| SlotDetection.RequiredSame | packages/template_engine/slot_detector.py:209-210 | the required-slot loop does not see a parameter that names no slot |
| SlotDetection.ValueChecksPrefix | packages/template_engine/slot_detector.py:217 | the second loop's result over a prefix of the parameters depends only on that prefix |
| TemplateBuilder.BuildTemplate | packages/template_engine/template_builder.py:23-56 | `build_template` returns the text after every renaming round, the slots unchanged, the alignment's prompts, and the slot map |
| TemplateBuilder.SlotMapKeys | packages/template_engine/template_builder.py:49 | the slot map has one entry per distinct slot name, and exactly the slots' names |
| TemplateBuilder.SlotMapLast | packages/template_engine/template_builder.py:49 | a name maps to the position of the last slot that carries it |
| TemplateBuilder.BuildTextPieces | packages/template_engine/template_builder.py:45-48 | on a well-formed text, each round's `str.replace` turns `{{slot_i}}` into `{{<name of slot i>}}` and keeps the text well-formed |
| TemplateBuilder.RenamedHoles | packages/template_engine/template_builder.py:45-48 | renaming maps the placeholder names one by one, in order |
| TemplateBuilder.RenameOther | packages/template_engine/template_builder.py:46-48 | a name that is none of the generic names of the rounds is left alone |
| TemplateBuilder.RenameSlotName | packages/template_engine/template_builder.py:45-48 | when no slot is itself named `slot_k`, `{{slot_j}}` ends up as slot j's name and is never renamed again |
| TemplateBuilder.SlotNameIsWord | packages/template_engine/template_builder.py:46 | `slot_i` is a `\w+` name |
| TemplateBuilder.SlotNameInjective | packages/template_engine/template_builder.py:46 | different rounds rename different placeholders |
| TemplateBuilder.ExtractSlotNames | packages/template_engine/template_builder.py:125-136 | every name found is a `\w+` word |
| TemplateBuilder.BuiltSlotNames | packages/template_engine/template_builder.py:23-56 | for an aligned structure, the built text's placeholders are exactly the slot names, in slot order |
| TemplateBuilder.GeneratedNotGeneric | packages/template_engine/slot_detector.py:102-140 | no name `generate_slot_name` produces is a generic `slot_k` name |
| TemplateBuilder.SlotTypeOfSpec | packages/template_engine/template_builder.py:103 | `SlotType(value)` inverts `.value` |
| TemplateBuilder.SlotRecords | packages/template_engine/template_builder.py:71-84 | one stored record per slot, in order |
| TemplateBuilder.SlotsFromRecords | packages/template_engine/template_builder.py:100-113 | a successful read gives one slot per record |
| TemplateBuilder.SlotRoundTrip | packages/template_engine/template_builder.py:72-111 | reading a stored slot gives back every field |
| TemplateBuilder.SlotsRoundTrip | packages/template_engine/template_builder.py:71-113 | reading the stored slots gives back the slot list |
| TemplateBuilder.RoundTrip | packages/template_engine/template_builder.py:59-122 | `template_from_dict(template_to_dict(t))` keeps the text and every slot field, rebuilds the slot map from the slots and takes the prompts from the caller (`[]` if none); the stored count is the number of source prompts |
| TemplateBuilder.BuiltRoundTrip | packages/template_engine/template_builder.py:23-122 | a built template comes back unchanged when its prompts are given |
| TemplateBuilder.SlotDefaults | packages/template_engine/template_builder.py:100-111 | absent optional keys read as no examples, required, and `None` for the rest; the first absent mandatory key raises |
| Versioning.FromStringOfString | packages/template_engine/versioning.py:28-39 | `from_string(str(v)) == v` for every integer component, negative ones included |
| Versioning.FromStringMajorOnly | packages/template_engine/versioning.py:34-39 | a string without dots gives the major number and the defaults for the rest |
| Versioning.FromStringNoPatch | packages/template_engine/versioning.py:34-39 | two parts give the major and minor numbers and the default patch |
| Versioning.NoDotInInt | packages/template_engine/versioning.py:29 | a printed integer contains no `.`, so splitting the printed version gives back its three parts |
| Versioning.BumpSpec | packages/template_engine/versioning.py:41-49 | only NONE leaves the version unchanged; any other bump makes it strictly greater; only MAJOR changes the major number; and the bumped version is compatible with the old one exactly when the bump is not MAJOR |
| Versioning.NameSet | packages/template_engine/versioning.py:86-87 | exactly the slots' names |
| Versioning.CheckSetChanges | packages/template_engine/versioning.py:89-103 | removed names make the bump MAJOR, added names MINOR unless already MAJOR, with their change lines |
| Versioning.CheckPairs | packages/template_engine/versioning.py:107-114 | the inner loop records every same-named new slot of another type and makes the bump MAJOR if any |
| Versioning.CheckTypeChanges | packages/template_engine/versioning.py:106-114 | the nested loops record every same-named pair whose types differ and make the bump MAJOR if any |
| Versioning.ComputeVersionBump | packages/template_engine/versioning.py:61-128 | `compute_version_bump` returns the described result |
| Versioning.PairChangesEmpty | packages/template_engine/versioning.py:107-114 | the inner loop records nothing exactly when no new slot of that name has another type |
| Versioning.TypeChangesEmpty | packages/template_engine/versioning.py:106-114 | the nested loops record nothing exactly when no slot changes type |
| Versioning.PairChangesSound | packages/template_engine/versioning.py:107-114 | every change the inner loop records is a real type change between same-named slots |
| Versioning.TypeChangesSound | packages/template_engine/versioning.py:106-114 | every recorded type change is a real one between same-named slots |
| Versioning.VersionBumpSpec | packages/template_engine/versioning.py:61-133 | MAJOR exactly when a name is removed or a slot changes type; MINOR exactly when names are only added; PATCH exactly when names and types agree but the text differs; NONE otherwise; the new version is the old one (default 1.0.0) bumped; breaking exactly when MAJOR |
| Versioning.GetCompatibleVersions | packages/template_engine/versioning.py:136-161 | the loop keeps the compatible versions among those seen |
| Versioning.CompatibleMembers | packages/template_engine/versioning.py:154-161 | exactly the versions with the target's major and a minor at least the target's are kept |
| Versioning.CompatibleOrder | packages/template_engine/versioning.py:156-159 | the kept versions are in their original order |
| Versioning.CompatibleCounts | packages/template_engine/versioning.py:156-159 | each compatible version is kept as often as it occurs |
| Exposure.ValidateParams | packages/template_engine/exposure.py:23-38 | `validate_params` is the validator's result over the template's slot table |
| Exposure.Interpolate | packages/template_engine/exposure.py:95-112 | the loop applies the parameters one after the other; with no parameters the text comes back unchanged |
| Exposure.InterpolatePieces | packages/template_engine/exposure.py:106-112 | on a well-formed text with word names and values without `{`, interpolation replaces every `{{name}}` of a given name by its value and leaves every other piece alone |
| Exposure.FilledAt | packages/template_engine/exposure.py:108-110 | after k rounds, a placeholder whose name is among the first k parameters holds that parameter's value; every other piece is unchanged |
| Exposure.Filled | packages/template_engine/exposure.py:108-110 | filling keeps the number of pieces |
| Exposure.InterpolateRefills | packages/template_engine/exposure.py:108-110 | rounds run in sequence, so a value that spells a later placeholder is filled again: `{{a}} {{b}}` with a=`{{b}}`, b=x gives `x x` |
| Exposure.SlotValue | packages/template_engine/exposure.py:72-77 | a slot gets no value exactly when it is not given, has no default and is required |
| Exposure.BuildFinalParams | packages/template_engine/exposure.py:70-77 | the loop builds `final_params` slot by slot |
| Exposure.FinalParamsDistinct | packages/template_engine/exposure.py:70-77 | `final_params` holds each name once |
| Exposure.FinalParamsKey | packages/template_engine/exposure.py:70-77 | a name is in `final_params` exactly when some slot of that name is given, has a default or is optional |
| Exposure.FinalParamsGiven | packages/template_engine/exposure.py:72-73 | a given value beats any default |
| Exposure.FinalParamsDefault | packages/template_engine/exposure.py:74-77 | a slot that is not given gets its default, or "" when it has none and is optional |
| Exposure.RenderTemplate | packages/template_engine/exposure.py:41-92 | `render_template` returns the described result |
| Exposure.RenderedSpec | packages/template_engine/exposure.py:57-86 | rendering succeeds exactly when not strict or there are no validation errors; a failure carries exactly the validation errors and no text; a success carries a text, no errors, and the validation only in strict mode |
| Exposure.RenderTemplateSafe | packages/template_engine/exposure.py:115-139 | a template built from the text and slots, with no prompts and the slot map, rendered strictly |
| Exposure.SlotProperty | packages/template_engine/exposure.py:166-183 | the loop body builds the slot's property |
| Exposure.PropertyOfSpec | packages/template_engine/exposure.py:166-183 | a property is "number" exactly for NUMERIC slots and "string" otherwise; it has `enum` exactly for ENUM slots with values; at most the first three examples; the slot's default |
| Exposure.AddSlotSchema | packages/template_engine/exposure.py:185-188 | the property is stored under the slot's name and a required slot's name is appended |
| Exposure.SchemaStep | packages/template_engine/exposure.py:165-188 | one more slot adds its property and, if required, its name |
| Exposure.TemplateApi.GetSchema | packages/template_engine/exposure.py:155-195 | the schema is an object with the slots' properties, the required names and no additional properties |
| Exposure.RequiredNamesSpec | packages/template_engine/exposure.py:187-188 | `required` holds exactly the names of required slots, no more entries than slots, and all names in slot order when every slot is required |
| Exposure.RequiredPositions | packages/template_engine/exposure.py:187-188 | the positions of the required slots: strictly increasing, each one required, and every required position listed |
| Exposure.RequiredNamesAt | packages/template_engine/exposure.py:187-194 | entry t of `required` is the name of the t-th required slot, so required names keep slot order and a name shared by two required slots appears twice |
| Exposure.PropertiesDistinct | packages/template_engine/exposure.py:185 | `properties` holds each name once |
| Exposure.PropertiesKey | packages/template_engine/exposure.py:185 | exactly the slots' names have properties |
| Exposure.PropertiesLast | packages/template_engine/exposure.py:185 | a name's property is that of the last slot of the name |
| Exposure.TemplateApi.Render | packages/template_engine/exposure.py:197-207 | `render` is strict rendering of the template |
| Exposure.TemplateApi.Call | packages/template_engine/exposure.py:209-219 | `__call__` raises `ValueError` exactly when rendering fails, with the errors in the message, and returns the rendered text otherwise |
| Refinement.SlotSet | packages/template_engine/refinement.py:141-143 | exactly the placeholder names found |
| Refinement.ValidateRefinement | packages/template_engine/refinement.py:123-161 | valid exactly when no error was reported; at most three errors |
| Refinement.ValidIffSameSlots | packages/template_engine/refinement.py:141-161 | a refinement is valid exactly when both texts have the same sequence of placeholder names; when it is not, the order error is reported |
| Refinement.RemovedSlots | packages/template_engine/refinement.py:145-148 | the removal error appears exactly when an original placeholder name is gone, and it names exactly those |
| Refinement.AddedSlots | packages/template_engine/refinement.py:150-153 | the addition error appears exactly when the refined text has a new name, and it names exactly those |
| Refinement.ApplyRefinement | packages/template_engine/refinement.py:164-188 | `ValueError` with the errors exactly when the refinement is invalid; otherwise only the text is replaced |
| Refinement.ApplyKeepsSlots | packages/template_engine/refinement.py:178-188 | an applied refinement keeps the template's placeholder names in order and its slots |
| Refinement.ApplySame | packages/template_engine/refinement.py:178-188 | a text with the template's own placeholder sequence is always accepted |
| Dedup.Masked | packages/ingestion/dedup.py:40 | a token's masked hash is below `2^num_bits` |
| Dedup.AddVotes | packages/ingestion/dedup.py:42-44 | the inner loop adds +1 at every set bit and -1 at every clear bit of one token's hash |
| Dedup.VotesSnoc | packages/ingestion/dedup.py:39-44 | one more token adds its vote at every position |
| Dedup.Tally | packages/ingestion/dedup.py:37-44 | the vote vector has `num_bits` entries, each the sum of the tokens' votes there |
| Dedup.VotesOnes | packages/ingestion/dedup.py:39-44 | each vote is the set bits minus the clear ones |
| Dedup.FingerprintBits | packages/ingestion/dedup.py:46-49 | after the final loop's first n positions the fingerprint is below `2^n` and bit i is set exactly when vote i is positive |
| Dedup.SimHash | packages/ingestion/dedup.py:15-51 | `simhash` returns the fingerprint the votes describe, and 0 for a text with no tokens |
| Dedup.SimHashSpec | packages/ingestion/dedup.py:15-51 | the fingerprint is below `2^num_bits`; bit i is set exactly when more tokens have hash bit i set than clear; an all-whitespace text gives 0 |
| Dedup.OneTokenVotes | packages/ingestion/dedup.py:39-44 | with one token, every vote is that token's bit |
| Dedup.SimHashOneToken | packages/ingestion/dedup.py:15-51 | a text of one token has that token's masked hash as fingerprint |
| Dedup.BitAddPow | packages/ingestion/dedup.py:49 | setting bit i of a number below `2^i` keeps its lower bits |
| Dedup.XorBit | packages/ingestion/dedup.py:65 | bit i of `a ^ b` is set exactly where `a` and `b` differ |
| Dedup.XorZero | packages/ingestion/dedup.py:65 | `a ^ b` is 0 exactly when `a == b` |
| Dedup.PopCountZero | packages/ingestion/dedup.py:65 | no set bits exactly for 0 |
| Dedup.HammingSpec | packages/ingestion/dedup.py:54-65 | the distance is symmetric, 0 exactly for equal fingerprints, and at most n for fingerprints below `2^n` |
| Dedup.FindWithin | packages/ingestion/dedup.py:106-111 | the loop returns the first indexed entry within the threshold |
| Dedup.FirstWithinSpec | packages/ingestion/dedup.py:104-111 | a match is the earliest entry, in insertion order, within the threshold; no match means no entry is within it |
| Dedup.Within | packages/ingestion/dedup.py:143-148 | the collected list has no more entries than the index |
| Dedup.WithinMember | packages/ingestion/dedup.py:145-148 | an id with its distance is collected exactly when the distance is within the bound |
| Dedup.SimilarOrder | packages/ingestion/dedup.py:150 | `get_similar` lists ids by ascending distance, ties in insertion order |
| Dedup.SimilarMembers | packages/ingestion/dedup.py:143-150 | the sorted list is a permutation of the collected list, so it holds every id within the bound with its distance, and nothing else |
| Dedup.SimHashDeduplicator.constructor | packages/ingestion/dedup.py:79-88 | the index starts empty with the given threshold |
| Dedup.SimHashDeduplicator.ComputeFingerprint | packages/ingestion/dedup.py:90-92 | the 64-bit SimHash of the text |
| Dedup.SimHashDeduplicator.IsNearDuplicate | packages/ingestion/dedup.py:94-111 | `(True, id, d)` for the first indexed id within the threshold, else `(False, None, None)` |
| Dedup.SimHashDeduplicator.Add | packages/ingestion/dedup.py:113-126 | the id's fingerprint is stored or overwritten and returned; the ids stay distinct |
| Dedup.SimHashDeduplicator.GetSimilar | packages/ingestion/dedup.py:128-150 | the sorted ids within `max_distance`, or within `threshold` when none is given |
| Dedup.SimHashDeduplicator.Size | packages/ingestion/dedup.py:152-154 | the number of distinct indexed ids |
| Dedup.DistinctCount | packages/ingestion/dedup.py:154 | with distinct keys there are as many ids as entries |
| Dedup.AreSimilar | packages/ingestion/dedup.py:157-172 | similar exactly when the distance is within the threshold; the distance is at most 64 |
| Dedup.AreSimilarSpec | packages/ingestion/dedup.py:157-172 | similarity is symmetric, and texts with the same tokens, however spaced, are at distance 0 |
| Normalizer.CollapseWs | packages/ingestion/normalizer.py:20 | the result is single-spaced, empty exactly for the empty text, and starts with whitespace exactly when the text does |
| Normalizer.NormalizeTextSpec | packages/ingestion/normalizer.py:10-24 | the output has no whitespace at either end and its only whitespace is single spaces; the `\r` rewrites never fire |
| Normalizer.CollapseSingleSpaced | packages/ingestion/normalizer.py:20 | a single-spaced text has nothing to collapse |
| Normalizer.NormalizeTextIdempotent | packages/ingestion/normalizer.py:10-24 | a normalized text is left alone, so `normalize_text` is idempotent |
| Normalizer.ComputeHashNormalized | packages/ingestion/normalizer.py:27-38 | a text hashes as its normalized form does |
| Normalizer.Lookup | packages/ingestion/normalizer.py:54-57 | a value found is stored under the key |
| Normalizer.MetadataCandidates | packages/ingestion/normalizer.py:52-58 | five candidate fields, in the literal's order |
| Normalizer.DropNone | packages/ingestion/normalizer.py:60 | exactly the entries whose value is not None |
| Normalizer.ExtractMetadata | packages/ingestion/normalizer.py:41-60 | `source` comes first; no value is None and every key is one of the five |
| Normalizer.MetadataField | packages/ingestion/normalizer.py:52-60 | a field is present with a value exactly when the literal gives it that value and it is not None |
| Normalizer.TimestampField | packages/ingestion/normalizer.py:54 | `timestamp` falls back to `created_at` when falsy |
| Normalizer.UserIdField | packages/ingestion/normalizer.py:55 | `user_id` falls back to `user` when falsy |
| Normalizer.ModelField | packages/ingestion/normalizer.py:56 | `model` is copied when not None |
| Normalizer.OriginalFileField | packages/ingestion/normalizer.py:57 | `original_file` comes from `file_path`, or from `file` when that is falsy |
| PromptNormalization.BreaksToSpaces | packages/ml_core/normalization.py:8 | the result has no `\r` or `\n`, is no longer, is empty exactly for the empty text, and keeps a first character that is not a break |
| PromptNormalization.SqueezeSpaces | packages/ml_core/normalization.py:9 | the result has no two adjacent spaces, is empty exactly for the empty text, and keeps the first character |
| PromptNormalization.SqueezeAbsent | packages/ml_core/normalization.py:9 | squeezing only drops characters |
| PromptNormalization.NormalizePromptQuotes | packages/ml_core/normalization.py:10-11 | the quote replacements map a character to itself, so they change nothing |
| PromptNormalization.SqueezedEnds | packages/ml_core/normalization.py:7-9 | the squeezed text neither starts nor ends with whitespace |
| PromptNormalization.NormalizePromptSpec | packages/ml_core/normalization.py:6-13 | no whitespace at either end, no `\r` or `\n`, no two adjacent spaces (tabs are kept), and no upper-case letter |
| PromptNormalization.NormalizePromptIdempotent | packages/ml_core/normalization.py:6-13 | normalising twice is normalising once |
| PromptNormalization.NormalizeAndId | packages/ml_core/normalization.py:20-23 | the first component is `normalize_prompt(text)`, the second the given id |
| DnaExtractor.PatternMatches | packages/dna_extractor/extractor.py:91-93 | every match of the variable patterns is a `\w+` name |
| DnaExtractor.DetectVariables | packages/dna_extractor/extractor.py:87-101 | `_detect_variables` returns the described variables |
| DnaExtractor.PatternMatchesMember | packages/dna_extractor/extractor.py:91-93 | a name is among the matches exactly when one of the patterns finds it |
| DnaExtractor.VariablesSpec | packages/dna_extractor/extractor.py:87-101 | the detected names are words without repeats, exactly the names some pattern finds, ordered by where each first occurs in the patterns' concatenated matches, and `slots` counts them |
| DnaExtractor.FirstSystem | packages/dna_extractor/extractor.py:71 | the leftmost case-insensitive match of `system` |
| DnaExtractor.JoinSplit | packages/dna_extractor/extractor.py:73-74 | joining the lines of a split gives back the text |
| DnaExtractor.SystemSplitSpec | packages/dna_extractor/extractor.py:73-74 | the system message is the first line after the marker and the user message the lines after it; a single line is both |
| DnaExtractor.ContainsSystem | packages/dna_extractor/extractor.py:69-71 | a `system:` or `system message:` found by the guard is also found by the split pattern, so the split always has two parts |
| DnaExtractor.StructureSpec | packages/dna_extractor/extractor.py:59-84 | `total_tokens` is `len(text) // 4` and there is never an assistant prefill; without a marker, in any case, there is no system message and the user message is the text; with one, the system message is the first line after the leftmost `system` |
| DnaExtractor.Tones | packages/dna_extractor/extractor.py:128-130 | at most one tone per table entry |
| DnaExtractor.TonesSpec | packages/dna_extractor/extractor.py:121-130 | each tone is listed at most once, in the table's order, and exactly the tones whose keywords occur |
| DnaExtractor.ExtractInstructions | packages/dna_extractor/extractor.py:104-143 | `_extract_instructions` returns the described instructions |
| DnaExtractor.InstructionsSpec | packages/dna_extractor/extractor.py:111-136 | JSON exactly when "json" occurs in any case, else markdown exactly when "markdown" does, else no format; `length_limit` exactly when "under" and "word" or "token" occur; `use_bullet_points` exactly when "bullet" or "list" does; the example count is at most `2 * len(text) / 7` |
| DnaExtractor.ExtractDna | packages/dna_extractor/extractor.py:21-56 | `extract_dna` returns the described record |
| DnaExtractor.DnaSpec | packages/dna_extractor/extractor.py:32-56 | the id is "pg-" and the hash's first eight characters; the text is kept; the embedding is empty; absent metadata is `{}` |
| Nearest.BestSpec | packages/ml_core/incremental.py:16-25 | the running-best scan with strict `>` reports the maximum score, or the start value when nothing beats it, and the first position reaching the maximum |
| Nearest.Scores | packages/ml_core/incremental.py:19-21 | one similarity per centroid, in dictionary order |
| Nearest.NearestKeySpec | packages/ml_core/incremental.py:11-30 | no centroids give `(None, 0.0)`; otherwise the similarity is the best one (or -1.0), and an id is returned exactly when the best similarity reaches the threshold; that id is a key, the first with the best similarity |
| Nearest.NearestKeyThreshold | packages/ml_core/incremental.py:27-30 | raising the threshold keeps the similarity and can only turn an id into `None` |
| Incremental.AssignToCluster | packages/ml_core/incremental.py:6-30 | the loop computes the nearest-centroid lookup (default threshold 0.75) |
| IncrementalWorker.DefaultsDisagree | packages/ml_core/incremental.py:9 | the default threshold of `assign_to_cluster` (0.75) is stricter than the worker's (0.60): a best similarity between them is assigned by the worker and not by `assign_to_cluster`, with the same reported similarity |
| Incremental.AssignBatch | packages/ml_core/incremental.py:33-44 | the result has exactly the keys of `embeddings`, each value the lookup of that embedding |
| IncrementalWorker.Updates | packages/ml_core/incremental_worker.py:186-203 | at most one update per pending prompt |
| IncrementalWorker.UpdatesStep | packages/ml_core/incremental_worker.py:186-203 | a prompt without text is skipped; any other adds one update with its nearest family |
| IncrementalWorker.CountAssigned | packages/ml_core/incremental_worker.py:205-206 | no more assigned prompts than updates |
| IncrementalWorker.CountAssignedSnoc | packages/ml_core/incremental_worker.py:205-210 | an update counts as assigned exactly when its family id is truthy |
| IncrementalWorker.Worker.constructor | packages/ml_core/incremental_worker.py:42-56 | the worker keeps the given threshold and batch size |
| IncrementalWorker.Worker.Default | packages/ml_core/incremental_worker.py:45-46 | the defaults are threshold 0.60 and batch size 500 |
| IncrementalWorker.Worker.FindNearestFamily | packages/ml_core/incremental_worker.py:63-96 | the loop computes the nearest-centroid lookup with the worker's threshold |
| IncrementalWorker.Worker.RunCycle | packages/ml_core/incremental_worker.py:98-243 | below 50 classified prompts the full classifier's counters are reported; fewer pending prompts than the batch size skip the cycle; no centroids make every fetched prompt unclustered; otherwise prompts without text are skipped uncounted, each other prompt is written once, `assigned + unclustered == processed <= len(pending)`, templates are counted only when something was assigned, and no mode or `clusters_created` is reported |
| Vectors.MeanBounds | packages/clustering/engine.py:95 | a mean lies between any lower and upper bound of its terms |
| Vectors.MeanVec | packages/ml_core/clustering.py:104 | the component-wise mean has the dimension of the vectors |
| Vectors.MeanVecBounds | packages/ml_core/clustering.py:104 | each component of the mean lies between the members' smallest and largest value there |
| Vectors.MeanVecOfCopies | packages/ml_core/clustering.py:104 | the mean of copies of one vector is that vector |
| Grouping.Append | packages/ml_core/clustering.py:40-43 | `if l not in d: d[l] = []` then `d[l].append(v)` is one grouping step |
| Grouping.AddToSpec | packages/ml_core/clustering.py:40-43 | a step keeps the labels distinct, adds a new label at the end, and appends the value to the label's list |
| Grouping.GroupByKeys | packages/clustering/engine.py:65-70 | grouping gives one entry per distinct label, in order of first appearance |
| Grouping.GroupByGet | packages/clustering/engine.py:65-70 | each label's list holds exactly its values, in order |
| MlClustering.UniformOfValues | packages/ml_core/clustering.py:18 | the values of a dictionary whose embeddings share one dimension form a matrix |
| MlClustering.Normalize | packages/ml_core/clustering.py:20-21 | L2 normalisation keeps a row's dimension |
| MlClustering.NormalizedRows | packages/ml_core/clustering.py:17-21 | the normalised matrix has one row per prompt, in key order, each the normalised embedding |
| MlClustering.RowsWithLabel | packages/ml_core/clustering.py:48 | `matrix[labels == l]` selects only rows of the matrix |
| MlClustering.RowsWithLabelHas | packages/ml_core/clustering.py:48 | a row is among the rows selected by its own label |
| MlClustering.RowsWithLabelUniform | packages/ml_core/clustering.py:48-49 | the rows sharing a row's label are non-empty and of one dimension, so their mean exists |
| MlClustering.NonNoiseStep | packages/ml_core/clustering.py:38-43 | one more position adds its (label, id) pair exactly when the label is not -1 |
| MlClustering.NonNoiseKeys | packages/ml_core/clustering.py:39-43 | a label is grouped exactly when it is not -1 and occurs |
| MlClustering.NonNoiseSelect | packages/ml_core/clustering.py:39-43 | the ids appended under a non-noise label are the ids with that label, in input order |
| MlClustering.ClustersSpec | packages/ml_core/clustering.py:38-54 | the cluster dictionary has distinct keys, never -1, and maps each occurring non-noise label to exactly its ids in input order |
| MlClustering.MembersSpec | packages/ml_core/clustering.py:38-43 | with distinct ids, a member list holds only input ids, repeats none, and holds an id exactly when the id carries that label |
| MlClustering.LoopStep | packages/ml_core/clustering.py:38-54 | one iteration extends the three dictionaries by the next prompt |
| MlClustering.LoopDone | packages/ml_core/clustering.py:38-56 | after the last iteration the dictionaries are the returned result |
| MlClustering.HdbscanConfidences | packages/ml_core/clustering.py:45-54 | one confidence per prompt: 0.0 for noise, the probability when one exists at that position, else the similarity of the normalised row to its cluster's mean |
| MlClustering.ClusterHdbscan | packages/ml_core/clustering.py:8-56 | the loop produces the specified result: three empty dictionaries below two embeddings |
| MlClustering.HdbscanPrompt | packages/ml_core/clustering.py:39-54 | one prompt is recorded with its label, added to its cluster unless it is noise, and recorded with its confidence |
| MlClustering.HdbscanResultSpec | packages/ml_core/clustering.py:38-56 | with two or more embeddings every prompt is in both per-prompt dictionaries, noise has label -1 and confidence 0.0, -1 is never a cluster key, and each other prompt is listed under its label |
| MlClustering.MaxOf | packages/ml_core/clustering.py:84 | `np.max` is an element of the list and bounds all of them |
| MlClustering.Clamp | packages/ml_core/clustering.py:86 | `max(0.0, min(1.0, x))` lies in [0, 1] and leaves values in [0, 1] alone |
| MlClustering.Distances | packages/ml_core/clustering.py:84 | one distance per cluster member, to the cluster's centre |
| MlClustering.ClusterMaxDistance | packages/ml_core/clustering.py:84 | the largest member distance is at least the prompt's own distance |
| MlClustering.KMeansConfidence | packages/ml_core/clustering.py:82-86 | a KMeans confidence always lies in [0, 1] |
| MlClustering.KMeansConfidenceUnclamped | packages/ml_core/clustering.py:83-86 | for a non-negative distance the clamp never changes `1 - distance / max_distance` (or 1.0) |
| MlClustering.DivAtMostOne | packages/ml_core/clustering.py:85 | a distance over a larger positive maximum lies in [0, 1] |
| MlClustering.KMeansConfidences | packages/ml_core/clustering.py:76-86 | one KMeans confidence per prompt |
| MlClustering.ClusterKMeans | packages/ml_core/clustering.py:59-88 | fewer than `k` embeddings fall back to `cluster_hdbscan`; otherwise every prompt keeps its label (noise included), the clusters group all prompts, and every confidence lies in [0, 1] |
| MlClustering.MemberEmbeddings | packages/ml_core/clustering.py:101 | the comprehension only yields stored embeddings |
| MlClustering.ComputeClusterCentroids | packages/ml_core/clustering.py:91-106 | the loop computes the centroid dictionary of all clusters |
| MlClustering.CentroidsSpec | packages/ml_core/clustering.py:97-104 | the centroid dictionary has distinct keys; a cluster gets an entry exactly when it is not -1 and has a member with a stored embedding, and the entry is the mean of those embeddings |
| Engine.ThresholdsOrdered | packages/clustering/engine.py:20-24 | the thresholds form a ladder: auto merge above suggest merge above new family |
| Engine.ClusterPromptsUnfiltered | packages/clustering/engine.py:33-72 | `cluster_prompts` as written: the label at position `idx` among the embedded prompts is attributed to `prompt_dnas[idx]` |
| Engine.ClusterPromptsMisattributes | packages/clustering/engine.py:47-70 | prompts "a" (no embedding), "b", "c" with "b" and "c" in family 0 are reported as family ["a", "b"] |
| Engine.ClusterPrompts | packages/clustering/engine.py:33-72 | the loop computes the intended grouping, with label positions among the embedded prompts |
| Engine.GroupStep | packages/clustering/engine.py:65-70 | one step of the grouping loop adds the position's id under its label unless the label is -1 |
| Engine.ClusterPromptsSpec | packages/clustering/engine.py:43-70 | fewer than two prompts or embeddings give no families; families have distinct ids, never -1, and each holds exactly the embedded prompts with its label, in order |
| Engine.ClusterPromptsAgree | packages/clustering/engine.py:47-70 | when every prompt has an embedding, the code as written and the intended reading agree |
| Engine.WithEmbeddingAll | packages/clustering/engine.py:47 | filtering by embedding keeps every prompt when all have one |
| Engine.GroupPair | packages/clustering/engine.py:65-70 | two prompts labelled 0 form the single family 0 |
| Engine.Similarities | packages/clustering/engine.py:90-93 | one similarity per family member, to the prompt's embedding |
| Engine.ComputeConfidenceBounds | packages/clustering/engine.py:75-95 | 0.0 without an embedding or without members; otherwise the mean lies between any bounds of the member similarities |
| Engine.ComputeConfidenceSingle | packages/clustering/engine.py:90-95 | against one member the confidence is the similarity to it |
| Evolution.FamilyScores | packages/clustering/evolution.py:34-40 | one score per family: the confidence against its embedded members |
| Evolution.LadderMonotone | packages/clustering/evolution.py:47-52 | a higher best confidence never gives a less confident class; `exact_match` exactly at or above 0.85, `new_family` exactly below 0.70 |
| Evolution.ClassifyNewPrompt | packages/clustering/evolution.py:10-52 | the loop computes the specified classification |
| Evolution.ClassifySpec | packages/clustering/evolution.py:27-52 | no embedding gives ("new_family", None, 0.0); the confidence is non-negative and at least every family's; a family id is returned exactly when the class is not `new_family`; each class lies in its threshold band; the returned family is the first with the best score and has embedded members |
| Evolution.DetectMutationTypeSpec | packages/clustering/evolution.py:55-89 | `unknown` exactly when an embedding is missing; `variable_change` exactly when both have embeddings and the variable sets differ; `system_change` only for different system messages; the edit classes only for equal variables and system messages, in the bands 0.95 and 0.80 of the similarity |
| IntentMapping.LoadablePrefix | packages/template_engine/intent_mapper.py:86-92 | the records before the first one missing a required key all load, and that record does not |
| IntentMapping.Centroids | packages/template_engine/intent_mapper.py:87-92 | one centroid per record, built from its fields |
| IntentMapping.CosineSimilaritySpec | packages/template_engine/intent_mapper.py:94-106 | cosine similarity is symmetric and 0.0 against a zero-norm vector |
| IntentMapping.Scored | packages/template_engine/intent_mapper.py:127-130 | one (centroid, similarity) pair per centroid, in order |
| IntentMapping.IntentMapper.constructor | packages/template_engine/intent_mapper.py:37-54 | the mapper keeps the model and thresholds and starts with no centroids |
| IntentMapping.IntentMapper.Default | packages/template_engine/intent_mapper.py:37-54 | the defaults are no model, threshold 0.7 and fallback threshold 0.5 |
| IntentMapping.IntentMapper.AddIntent | packages/template_engine/intent_mapper.py:56-77 | one centroid is appended at the end |
| IntentMapping.IntentMapper.LoadIntents | packages/template_engine/intent_mapper.py:79-92 | the records before the first incomplete one are appended in order; the call fails exactly when some record is incomplete |
| IntentMapping.IntentMapper.GetConfidenceMonotone | packages/template_engine/intent_mapper.py:148-154 | a higher similarity never gives a lower confidence; "high" exactly at or above the threshold, "low" exactly below the fallback threshold |
| IntentMapping.IntentMapper.Match | packages/template_engine/intent_mapper.py:108-146 | the loops compute the specified matches |
| IntentMapping.IntentMapper.RankedSpec | packages/template_engine/intent_mapper.py:132-133 | the ranking is a stable permutation of the scored centroids |
| IntentMapping.IntentMapper.MatchesSpec | packages/template_engine/intent_mapper.py:123-146 | no centroids give no matches; `min(top_k, n)` matches for `top_k >= 0`, in non-increasing similarity, each with the confidence of its score, and none left out scores above one returned |
| IntentMapping.IntentMapper.MatchWithText | packages/template_engine/intent_mapper.py:156-178 | `ValueError` exactly when no embedding model is set, else the matches for the embedded query |
| StableSort.SortDescSpec | packages/template_engine/intent_mapper.py:133 | `sort(key=..., reverse=True)` gives non-increasing keys, a permutation, and keeps the input order among equal keys |
| StableSort.SortDescLength | packages/template_engine/intent_mapper.py:133 | sorting keeps the length |
| PyStrings.StripIdempotent | packages/ingestion/normalizer.py:21 | `str.strip()` is idempotent |
| PyStrings.ParseIntOfString | packages/template_engine/versioning.py:36-38 | `int(str(n)) == n` for every integer |
| PyLists.FirstIndex | packages/dna_extractor/extractor.py:96 | the position of a value's first occurrence: it holds the value and no earlier position does |
| PyLists.DedupeOrder | packages/dna_extractor/extractor.py:96 | every value of the deduplicated list is in the input, and the values appear in the order of their first occurrence |
| PyLists.DedupeSpec | packages/dna_extractor/extractor.py:96 | `list(dict.fromkeys(xs))` repeats nothing, keeps exactly the input's values, and lists them in the order of their first occurrence |
| WordPatterns.FindAll | packages/template_engine/template_builder.py:136 | `re.findall` of a `\w+` capture returns only words |
| WordPatterns.FindAllAbsent | packages/template_engine/template_builder.py:136 | a text without the opener has no matches |

## Left out

- Numeric libraries: HDBSCAN, KMeans, numpy and sklearn are not modelled. Their labels, probabilities and cluster centres are inputs, and cosine similarity, norms and distances are function parameters.
- Floating point: every float is a `real`, so rounding in `np.mean`, in divisions and in threshold comparisons is not modelled.
- MD5, SHA-256, `uuid4` and the embedding model are function parameters or inputs: their values are opaque.
- `difflib.SequenceMatcher` is not modelled: `align_prompts` takes its opcode list per prompt as an input. `compute_diff` (alignment.py), which only wraps it, is left out.
- `refine_template_async`, `refine_template_sync` and `IntentMapper.match_with_llm_fallback` call an LLM over the network and are left out. `validate_refinement` and `apply_refinement` are modelled.
- `run_worker` (an asyncio sleep loop with a state file) is left out. In `run_cycle` the database reads and writes, prints and logging are abstracted: what the repositories return is an input, and each write is recorded as an update.
- The full classifier that `run_cycle` falls back to is not modelled: its counters are an input.
- Unicode: `\w`, `\d` and `str.lower()` are modelled for ASCII only. `str.isspace`/`\s` use the whitespace characters Python recognises.
- Python set iteration order is modelled as first-insertion order for the alignment examples and `enum_values`. CPython's string hashing makes the real order vary between runs.
- Versioning.ComputeVersionBump: the change messages that print a Python set are modelled as a `Change` value holding the set, because the set's printed order is not determined. The message text is not modelled.
- Refinement.ValidateRefinement: the error messages that print a Python set are modelled as a `RefinementError` value holding the set, for the same reason.
- SlotDetection.ListRepr: the `str()` of a list of strings in the enum error message is modelled without `repr`'s quote escaping.
- `_interpolate` and `render_template` take parameter values as the strings `str(value)` would give. Values that are not strings are out of the model.
- `render_template`'s `except` branch cannot be reached because `str()` and `str.replace` do not raise on strings, so it is left out.
- `create_template_api` only calls the `TemplateApi` constructor; the datatype's constructor stands in for it.
- The slot-name pattern `slot_format` is modelled only with its default `{{{{{name}}}}}`.
- SlotDetection.ValueCheck: validation patterns other than the detector's own (numeric, email, URL) are decided by a function parameter `other`, because general regular expressions are not modelled.
- IntentMapping.CosineSimilarity: vectors of different lengths are excluded by requires. The `ValueError` that `np.dot` raises on them (intent_mapper.py:96-99) is not modelled.
- IntentMapping.Scored: centroid embeddings whose length differs from the query's are excluded by requires. The `ValueError` from `np.dot` is not modelled. The same requires sits on `IntentMapper.Ranked`, `IntentMapper.Matches`, `IntentMapper.RankedSpec` and `IntentMapper.MatchesSpec`.
- IntentMapping.IntentMapper.Match: centroid embeddings whose length differs from the query's are excluded by requires. The `ValueError` from `np.dot` is not modelled.
- IntentMapping.IntentMapper.MatchWithText: when a model is present, its embedding of the query must have every centroid's length (requires). The `ValueError` from `np.dot` otherwise is not modelled. The `ValueError` for a missing model is modelled.
- MlClustering.ClusterHdbscan: embeddings of unequal length are excluded by `SameDimension` in requires. The `ValueError` that `np.array` and `normalize` raise on ragged rows (clustering.py:18-21) is not modelled. `MlClustering.HdbscanResultSpec` shares the requires.
- MlClustering.ClusterKMeans: two inputs are excluded by requires, and the `ValueError` each one raises is not modelled:
  - embeddings of unequal length, which `np.array` rejects (clustering.py:67);
  - `k <= 0`, which `KMeans(n_clusters=k)` rejects (clustering.py:69). With `k <= 0`, `len(embeddings) < k` never holds, so the source always reaches KMeans.
- MlClustering.ComputeClusterCentroids: all stored embeddings must share one length (`SameDimension` in requires). This is stronger than the source needs: `np.mean(..., axis=0)` (clustering.py:103) only needs the embeddings stored for each one cluster's members to agree. The `ValueError` on a ragged cluster is not modelled.
- In `dedup.py`, `num_bits` is a natural number. A negative `num_bits`, which makes Python's shifts raise, is left out.
- PyStrings.ParseInt: `int()` also accepts underscores between digits and non-ASCII digits. These are not modelled, so such strings are parse errors in the model.
- In `extract_metadata`, metadata values are abstracted as a `Value` datatype (None, booleans, integers, strings, and containers by their length), which is all that truthiness and the None test need.
- `template_from_dict`'s `KeyError` and `ValueError` are modelled as a `DictError` result naming the key or the value.
- The `PromptDNA`, `PromptStructure`, `PromptVariables` and `PromptInstructions` classes are not defined in `packages/core/models.py`. The model defines them with the fields `extractor.py` and `evolution.py` use.
- FAISS retrieval (`ml_core/retrieval.py`), embedding generation, storage, the pipelines, the ingestion worker, the CLI and API, and configuration parsing are I/O or orchestration and are not part of this model.

## Findings

| source | as written | input that shows it | evidently intended | confidence | as-written member | corrected member |
|---|---|---|---|---|---|---|
| packages/clustering/engine.py:47-70 | HDBSCAN labels the filtered list of prompts that have an embedding, but `clusters[label].append(prompt_dnas[idx].id)` takes the id from the unfiltered list | prompts "a" (no embedding), "b" and "c", with "b" and "c" labelled 0: family 0 is reported as ["a", "b"] | family 0 is ["b", "c"] | not executed | Engine.ClusterPromptsMisattributes | Engine.ClusterPromptsSpec |
