/** The structure check applied to a refined template text: a refinement
    may reword a template but must keep its placeholders, in order. */
module Refinement {
  import opened Wrappers
  import opened TemplateBuilder

  /** `RefinementResult`; the diff is carried as given. */
  datatype RefinementResult = RefinementResult(
    originalText: string,
    refinedText: string,
    diff: string,
    accepted: bool,
    refinementNotes: Option<string>)

  /** The errors of `validate_refinement`, with the slot sets they report. */
  datatype RefinementError =
    | SlotsRemoved(missing: set<string>)
    | SlotsAdded(added: set<string>)
    | OrderChanged

  /** `set(re.findall(slot_pattern, text))`. */
  function SlotSet(text: string): (s: set<string>)
    ensures forall name :: name in s <==> name in ExtractSlotNames(text)
  {
    set name | name in ExtractSlotNames(text)
  }

  /** `validate_refinement`: the removed, added and order checks, in that
      order; valid exactly when no check fired. */
  function ValidateRefinement(original: CanonicalTemplate, refinedText: string): (r: (bool, seq<RefinementError>))
    ensures r.0 <==> r.1 == []
    ensures |r.1| <= 3
  {
    var originalSlots, refinedSlots := SlotSet(original.text), SlotSet(refinedText);
    var missing, added := originalSlots - refinedSlots, refinedSlots - originalSlots;
    var errors :=
      (if missing != {} then [SlotsRemoved(missing)] else [])
      + (if added != {} then [SlotsAdded(added)] else [])
      + (if ExtractSlotNames(original.text) != ExtractSlotNames(refinedText) then [OrderChanged] else []);
    (errors == [], errors)
  }

  /** A refinement is valid exactly when both texts have the same sequence
      of placeholder names; whenever it is not, the order error is among
      the errors. */
  lemma ValidIffSameSlots(original: CanonicalTemplate, refinedText: string)
    ensures ValidateRefinement(original, refinedText).0 <==> ExtractSlotNames(original.text) == ExtractSlotNames(refinedText)
    ensures !ValidateRefinement(original, refinedText).0 ==> OrderChanged in ValidateRefinement(original, refinedText).1
  {
    var a, b := ExtractSlotNames(original.text), ExtractSlotNames(refinedText);
    if a == b {
      assert SlotSet(original.text) == SlotSet(refinedText);
    }
  }

  /** The removal error is reported exactly when some placeholder name of
      the original no longer occurs, and it carries exactly those names. */
  lemma RemovedSlots(original: CanonicalTemplate, refinedText: string)
    ensures var errors := ValidateRefinement(original, refinedText).1;
            var a, b := ExtractSlotNames(original.text), ExtractSlotNames(refinedText);
            && ((exists s :: SlotsRemoved(s) in errors) <==> exists name :: name in a && name !in b)
            && (forall s | SlotsRemoved(s) in errors :: forall name :: name in s <==> name in a && name !in b)
  {
    var a, b := ExtractSlotNames(original.text), ExtractSlotNames(refinedText);
    var missing := SlotSet(original.text) - SlotSet(refinedText);
    var errors := ValidateRefinement(original, refinedText).1;
    assert forall s | SlotsRemoved(s) in errors :: s == missing;
    if exists name :: name in a && name !in b {
      var name :| name in a && name !in b;
      assert name in missing;
      assert errors[0] == SlotsRemoved(missing);
    }
  }

  /** The addition error is reported exactly when the refined text has a
      placeholder name the original lacks, and it carries exactly those
      names. */
  lemma AddedSlots(original: CanonicalTemplate, refinedText: string)
    ensures var errors := ValidateRefinement(original, refinedText).1;
            var a, b := ExtractSlotNames(original.text), ExtractSlotNames(refinedText);
            && ((exists s :: SlotsAdded(s) in errors) <==> exists name :: name in b && name !in a)
            && (forall s | SlotsAdded(s) in errors :: forall name :: name in s <==> name in b && name !in a)
  {
    var a, b := ExtractSlotNames(original.text), ExtractSlotNames(refinedText);
    var added := SlotSet(refinedText) - SlotSet(original.text);
    var errors := ValidateRefinement(original, refinedText).1;
    assert forall s | SlotsAdded(s) in errors :: s == added;
    if exists name :: name in b && name !in a {
      var name :| name in b && name !in a;
      assert name in added;
      assert SlotsAdded(added) in errors;
    }
  }

  /** `apply_refinement`: the `ValueError` with the errors when the
      refinement is invalid, otherwise the template with only its text
      replaced. */
  function ApplyRefinement(template: CanonicalTemplate, result: RefinementResult): (r: Result<CanonicalTemplate, seq<RefinementError>>)
    ensures r.Err? <==> !ValidateRefinement(template, result.refinedText).0
    ensures r.Err? ==> r.error == ValidateRefinement(template, result.refinedText).1 && r.error != []
    ensures r.Ok? ==> r.value == template.(text := result.refinedText)
  {
    var (isValid, errors) := ValidateRefinement(template, result.refinedText);
    if !isValid then Err(errors)
    else Ok(CanonicalTemplate(result.refinedText, template.slots, template.sourcePrompts, template.slotMap))
  }

  /** An applied refinement keeps the placeholder names of the template, in
      order, and with them the slots they name. */
  lemma ApplyKeepsSlots(template: CanonicalTemplate, result: RefinementResult)
    requires ApplyRefinement(template, result).Ok?
    ensures ExtractSlotNames(ApplyRefinement(template, result).value.text) == ExtractSlotNames(template.text)
    ensures ApplyRefinement(template, result).value.slots == template.slots
  {
    ValidIffSameSlots(template, result.refinedText);
  }

  /** A text with the template's own placeholder sequence is always
      accepted, in particular the unchanged text. */
  lemma ApplySame(template: CanonicalTemplate, result: RefinementResult)
    requires ExtractSlotNames(result.refinedText) == ExtractSlotNames(template.text)
    ensures ApplyRefinement(template, result) == Ok(template.(text := result.refinedText))
  {
    ValidIffSameSlots(template, result.refinedText);
  }
}
