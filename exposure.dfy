/** Rendering templates with parameter values, and the callable API view of
    a template with its JSON schema. Parameter values are given as their
    `str()`. */
module Exposure {
  import opened Wrappers
  import opened PyStrings
  import opened PyDict
  import opened TemplateText
  import opened SlotDetection
  import opened TemplateBuilder

  datatype RenderResult = RenderResult(
    success: bool,
    renderedText: Option<string>,
    validation: Option<SlotValidationResult>,
    errors: seq<string>)

  /** `validate_params`. */
  method ValidateParams(template: CanonicalTemplate, params: seq<(string, string)>, other: (string, string) -> bool)
    returns (r: SlotValidationResult)
    ensures r == Validation(SlotTable(template.slots), params, other)
  {
    var validator := new SlotValidator(template.slots);
    r := validator.Validate(params, other);
  }

  // ---------------------------------------------------------------------
  // _interpolate

  /** The text after the first `k` rounds of `_interpolate`: each round
      replaces every `{{name}}` by the value. */
  function InterpolateText(text: string, params: seq<(string, string)>, k: nat): string
    requires k <= |params|
    decreases k
  {
    if k == 0 then text
    else ReplaceAll(InterpolateText(text, params, k - 1), Placeholder(params[k - 1].0), params[k - 1].1)
  }

  /** `_interpolate`. */
  method Interpolate(text: string, params: seq<(string, string)>) returns (result: string)
    ensures result == InterpolateText(text, params, |params|)
    ensures params == [] ==> result == text
  {
    result := text;
    for k := 0 to |params|
      invariant result == InterpolateText(text, params, k)
    {
      var (name, value) := params[k];
      result := ReplaceAll(result, Placeholder(name), value);
    }
  }

  /** Rounds run one after the other, so a value that itself spells a
      later placeholder is filled in again: with `a` set to the placeholder
      of `b` and `b` to `x`, the text "{{a}} {{b}}" becomes "x x". */
  lemma InterpolateRefills(a: string, b: string, x: string)
    requires IsWord(a) && IsWord(b) && a != b && '{' !in x
    ensures InterpolateText(Placeholder(a) + " " + Placeholder(b), [(a, Placeholder(b)), (b, x)], 2) == x + " " + x
  {
    var text, params := Placeholder(a) + " " + Placeholder(b), [(a, Placeholder(b)), (b, x)];
    var middle := Placeholder(b) + " " + Placeholder(b);
    assert WellFormed([Hole(a), Lit(" "), Hole(b)]);
    ReplaceInPair(Hole(a), Hole(b), a, Hole(b));
    assert InterpolateText(text, params, 1) == middle;
    assert WellFormed([Hole(b), Lit(" "), Hole(b)]);
    ReplaceInPair(Hole(b), Hole(b), b, Lit(x));
  }

  /** Filling `name` in the text of two pieces around a space. */
  lemma ReplaceInPair(p: Piece, q: Piece, name: string, with: Piece)
    requires WellFormed([p, Lit(" "), q]) && IsWord(name)
    ensures ReplaceAll(Render(p) + " " + Render(q), Placeholder(name), Render(with))
         == Render(if p == Hole(name) then with else p) + " " + Render(if q == Hole(name) then with else q)
  {
    var ps := [p, Lit(" "), q];
    PiecesText3(ps);
    ReplaceHole(ps, name, with);
    PiecesText3(Subst(ps, name, with));
  }

  /** The text of three pieces. */
  lemma PiecesText3(ps: seq<Piece>)
    requires |ps| == 3
    ensures Text(ps) == Render(ps[0]) + Render(ps[1]) + Render(ps[2])
  {
    TextCons(ps);
    TextCons(ps[1..]);
    TextCons(ps[2..]);
  }

  /** The pieces after the first `k` rounds: each round fills the
      placeholders of one name with its value. */
  function Filled(ps: seq<Piece>, params: seq<(string, string)>, k: nat): (r: seq<Piece>)
    requires k <= |params|
    ensures |r| == |ps|
    decreases k
  {
    if k == 0 then ps else Subst(Filled(ps, params, k - 1), params[k - 1].0, Lit(params[k - 1].1))
  }

  /** On a well-formed text, interpolation with word names and values
      holding no `{` is the filling of placeholders, and the text stays
      well-formed. */
  lemma {:induction false} InterpolatePieces(ps: seq<Piece>, params: seq<(string, string)>, k: nat)
    requires k <= |params| && WellFormed(ps)
    requires forall i | 0 <= i < |params| :: IsWord(params[i].0) && '{' !in params[i].1
    ensures WellFormed(Filled(ps, params, k))
    ensures InterpolateText(Text(ps), params, k) == Text(Filled(ps, params, k))
    decreases k
  {
    if k > 0 {
      var prev, with := Filled(ps, params, k - 1), Lit(params[k - 1].1);
      InterpolatePieces(ps, params, k - 1);
      ReplaceHole(prev, params[k - 1].0, with);
      SubstWellFormed(prev, params[k - 1].0, with);
    }
  }

  /** After `k` rounds a placeholder whose name is among the first `k`
      parameters holds the value of the first of them; every other piece is
      unchanged. */
  lemma {:induction false} FilledAt(ps: seq<Piece>, params: seq<(string, string)>, k: nat, i: nat)
    requires k <= |params| && i < |ps|
    ensures Filled(ps, params, k)[i]
         == if ps[i].Hole? && ps[i].name in Keys(params[..k]) then Lit(Get(params[..k], ps[i].name).value) else ps[i]
    decreases k
  {
    if k > 0 {
      FilledAt(ps, params, k - 1, i);
      var d := params[..k];
      assert d[..k - 1] == params[..k - 1];
      GetSnoc(d);
      KeysSnoc(d);
    }
  }

  // ---------------------------------------------------------------------
  // render_template

  /** The value `render_template` passes on for one slot: the given one,
      else the default, else "" for an optional slot; none for a required
      slot without a value. */
  function SlotValue(slot: Slot, params: seq<(string, string)>): (v: Option<string>)
    ensures v.None? <==> slot.name !in Keys(params) && slot.defaultValue.None? && slot.required
  {
    if slot.name in Keys(params) then Get(params, slot.name)
    else if slot.defaultValue.Some? then slot.defaultValue
    else if !slot.required then Some("")
    else None
  }

  /** `final_params` after the first `n` slots. */
  function FinalParams(slots: seq<Slot>, params: seq<(string, string)>, n: nat): seq<(string, string)>
    requires n <= |slots|
    decreases n
  {
    if n == 0 then []
    else
      var acc, v := FinalParams(slots, params, n - 1), SlotValue(slots[n - 1], params);
      if v.Some? then Put(acc, slots[n - 1].name, v.value) else acc
  }

  /** What `render_template` returns. Converting a value with `str()` never
      fails here, so the rendering-error branch is not reachable. */
  function Rendered(template: CanonicalTemplate, params: seq<(string, string)>, strict: bool,
                    other: (string, string) -> bool): RenderResult
  {
    var validation := Validation(SlotTable(template.slots), params, other);
    if strict && !validation.isValid then RenderResult(false, None, Some(validation), validation.errors)
    else
      var finalParams := FinalParams(template.slots, params, |template.slots|);
      RenderResult(true, Some(InterpolateText(template.text, finalParams, |finalParams|)),
                   if strict then Some(validation) else None, [])
  }

  /** The loop of `render_template` that fills in defaults. */
  method BuildFinalParams(slots: seq<Slot>, params: seq<(string, string)>) returns (finalParams: seq<(string, string)>)
    ensures finalParams == FinalParams(slots, params, |slots|)
  {
    finalParams := [];
    for n := 0 to |slots|
      invariant finalParams == FinalParams(slots, params, n)
    {
      var slot := slots[n];
      if slot.name in Keys(params) {
        finalParams := Put(finalParams, slot.name, Get(params, slot.name).value);
      } else if slot.defaultValue.Some? {
        finalParams := Put(finalParams, slot.name, slot.defaultValue.value);
      } else if !slot.required {
        finalParams := Put(finalParams, slot.name, "");
      }
    }
  }

  /** `render_template`. */
  method RenderTemplate(template: CanonicalTemplate, params: seq<(string, string)>, strict: bool,
                        other: (string, string) -> bool) returns (r: RenderResult)
    ensures r == Rendered(template, params, strict, other)
  {
    var validation: Option<SlotValidationResult> := None;
    if strict {
      var v := ValidateParams(template, params, other);
      if !v.isValid {
        return RenderResult(false, None, Some(v), v.errors);
      }
      validation := Some(v);
    }
    var finalParams := BuildFinalParams(template.slots, params);
    var rendered := Interpolate(template.text, finalParams);
    r := RenderResult(true, Some(rendered), validation, []);
  }

  /** In strict mode invalid parameters give a failure carrying exactly the
      validation errors and no text; otherwise rendering succeeds with the
      text interpolated from the final parameters. */
  lemma RenderedSpec(template: CanonicalTemplate, params: seq<(string, string)>, strict: bool,
                     other: (string, string) -> bool)
    ensures var r := Rendered(template, params, strict, other);
            var v := Validation(SlotTable(template.slots), params, other);
            && (r.success <==> !strict || v.errors == [])
            && (!r.success ==> r.renderedText.None? && r.errors == v.errors && r.validation == Some(v))
            && (r.success ==> r.errors == [] && r.renderedText.Some? && (r.validation.Some? <==> strict))
  {
    ValidationSpec(SlotTable(template.slots), params, other);
  }

  /** `final_params` never holds a name twice. */
  lemma {:induction false} FinalParamsDistinct(slots: seq<Slot>, params: seq<(string, string)>, n: nat)
    requires n <= |slots|
    ensures DistinctKeys(FinalParams(slots, params, n))
    decreases n
  {
    if n > 0 {
      FinalParamsDistinct(slots, params, n - 1);
      PutDistinct(FinalParams(slots, params, n - 1), slots[n - 1].name, SlotValue(slots[n - 1], params).GetOr(""));
    }
  }

  /** A name is in `final_params` exactly when some slot of that name is
      given, has a default or is optional. */
  lemma {:induction false} FinalParamsKey(slots: seq<Slot>, params: seq<(string, string)>, n: nat, name: string)
    requires n <= |slots|
    ensures name in Keys(FinalParams(slots, params, n)) <==>
              exists i | 0 <= i < n :: slots[i].name == name
                && (name in Keys(params) || slots[i].defaultValue.Some? || !slots[i].required)
    decreases n
  {
    if n > 0 {
      FinalParamsKey(slots, params, n - 1, name);
    }
  }

  /** A slot that is given gets the given value, whatever its default. */
  lemma {:induction false} FinalParamsGiven(slots: seq<Slot>, params: seq<(string, string)>, n: nat, i: nat)
    requires i < n <= |slots| && slots[i].name in Keys(params)
    ensures Get(FinalParams(slots, params, n), slots[i].name) == Get(params, slots[i].name)
    decreases n
  {
    var acc := FinalParams(slots, params, n - 1);
    var v := SlotValue(slots[n - 1], params);
    if i < n - 1 {
      FinalParamsGiven(slots, params, n - 1, i);
    }
    if v.Some? {
      PutGet(acc, slots[n - 1].name, v.value);
    }
  }

  /** For a slot that is not given and is the last of its name, the final
      value is its default, or "" when it has none and is optional. */
  lemma {:induction false} FinalParamsDefault(slots: seq<Slot>, params: seq<(string, string)>, n: nat, j: nat)
    requires j < n <= |slots| && slots[j].name !in Keys(params)
    requires forall k | j < k < n :: slots[k].name != slots[j].name
    ensures slots[j].defaultValue.Some? ==> Get(FinalParams(slots, params, n), slots[j].name) == slots[j].defaultValue
    ensures slots[j].defaultValue.None? && !slots[j].required ==>
              Get(FinalParams(slots, params, n), slots[j].name) == Some("")
    decreases n
  {
    var acc := FinalParams(slots, params, n - 1);
    var v := SlotValue(slots[n - 1], params);
    if j < n - 1 {
      FinalParamsDefault(slots, params, n - 1, j);
    }
    if v.Some? {
      PutGet(acc, slots[n - 1].name, v.value);
    }
  }

  /** `render_template_safe`: a template assembled from text and slots,
      rendered strictly. */
  method RenderTemplateSafe(text: string, slots: seq<Slot>, params: seq<(string, string)>,
                            other: (string, string) -> bool) returns (r: RenderResult)
    ensures r == Rendered(CanonicalTemplate(text, slots, [], SlotMapOf(slots, |slots|)), params, true, other)
  {
    var template := CanonicalTemplate(text, slots, [], SlotMapOf(slots, |slots|));
    r := RenderTemplate(template, params, true, other);
  }

  // ---------------------------------------------------------------------
  // TemplateAPI

  /** One entry of the schema's `properties`. */
  datatype Property = Property(
    description: string,
    typeName: string,
    enumValues: Option<seq<string>>,
    examples: Option<seq<string>>,
    default: Option<string>)

  /** The JSON schema of `get_schema`; `type` is always "object". */
  datatype Schema = Schema(
    typeName: string,
    properties: seq<(string, Property)>,
    required: seq<string>,
    additionalProperties: bool)

  /** The property of one slot. */
  function PropertyOf(slot: Slot): Property {
    var description := if slot.description.Some? && slot.description.value != "" then slot.description.value
                       else "Value for " + slot.name;
    var typeName := if slot.slotType == Numeric then "number" else "string";
    var enumValues := if slot.slotType == Enum && slot.enumValues.Some? && slot.enumValues.value != []
                      then slot.enumValues else None;
    var examples := if slot.examples != [] then Some(slot.examples[..SliceEnd(|slot.examples|, 3)]) else None;
    Property(description, typeName, enumValues, examples, slot.defaultValue)
  }

  /** `properties` after the first `n` slots. */
  function Properties(slots: seq<Slot>, n: nat): seq<(string, Property)>
    requires n <= |slots|
  {
    PutEach(slots, n, NameOf, PropertyOf)
  }

  function NameOf(slot: Slot): string {
    slot.name
  }

  /** `required` after the first `n` slots. */
  function RequiredNames(slots: seq<Slot>, n: nat): seq<string>
    requires n <= |slots|
    decreases n
  {
    if n == 0 then [] else RequiredNames(slots, n - 1) + if slots[n - 1].required then [slots[n - 1].name] else []
  }

  /** The body of the `get_schema` loop for one slot. */
  method SlotProperty(slot: Slot) returns (prop: Property)
    ensures prop == PropertyOf(slot)
  {
    prop := Property(if slot.description.Some? && slot.description.value != "" then slot.description.value
                     else "Value for " + slot.name, "", None, None, None);
    if slot.slotType == Numeric {
      prop := prop.(typeName := "number");
    } else if slot.slotType == Enum {
      prop := prop.(typeName := "string");
      if slot.enumValues.Some? && slot.enumValues.value != [] {
        prop := prop.(enumValues := slot.enumValues);
      }
    } else {
      prop := prop.(typeName := "string");
    }
    if slot.examples != [] {
      prop := prop.(examples := Some(slot.examples[..SliceEnd(|slot.examples|, 3)]));
    }
    if slot.defaultValue.Some? {
      prop := prop.(default := slot.defaultValue);
    }
  }

  /** One more slot, spelled out. */
  lemma SchemaStep(slots: seq<Slot>, n: nat)
    requires n < |slots|
    ensures Properties(slots, n + 1) == Put(Properties(slots, n), slots[n].name, PropertyOf(slots[n]))
    ensures RequiredNames(slots, n + 1) == RequiredNames(slots, n) + if slots[n].required then [slots[n].name] else []
  {
  }

  /** The body of the `get_schema` loop: the slot's property is stored under
      its name and a required slot's name is appended. */
  method AddSlotSchema(properties: seq<(string, Property)>, required: seq<string>, slot: Slot)
    returns (properties': seq<(string, Property)>, required': seq<string>)
    ensures properties' == Put(properties, slot.name, PropertyOf(slot))
    ensures required' == required + if slot.required then [slot.name] else []
  {
    var prop := SlotProperty(slot);
    properties' := Put(properties, slot.name, prop);
    required' := required;
    if slot.required {
      required' := required + [slot.name];
    }
  }

  datatype TemplateApi = TemplateApi(
    templateId: string,
    familyId: string,
    version: string,
    template: CanonicalTemplate,
    description: Option<string>)
  {
    /** `get_schema`. */
    method GetSchema() returns (schema: Schema)
      ensures schema == Schema("object", Properties(template.slots, |template.slots|),
                               RequiredNames(template.slots, |template.slots|), false)
    {
      var properties: seq<(string, Property)> := [];
      var required: seq<string> := [];
      for n := 0 to |template.slots|
        invariant properties == Properties(template.slots, n)
        invariant required == RequiredNames(template.slots, n)
      {
        properties, required := AddSlotSchema(properties, required, template.slots[n]);
        SchemaStep(template.slots, n);
      }
      schema := Schema("object", properties, required, false);
    }

    /** `render`: strict rendering of the template. */
    method Render(params: seq<(string, string)>, other: (string, string) -> bool) returns (r: RenderResult)
      ensures r == Rendered(template, params, true, other)
    {
      r := RenderTemplate(template, params, true, other);
    }

    /** `__call__`: the rendered text, or the `ValueError` raised when
        rendering fails. */
    method Call(kwargs: seq<(string, string)>, other: (string, string) -> bool) returns (r: Result<string, string>)
      ensures var rendered := Rendered(template, kwargs, true, other);
              && (r.Err? <==> !rendered.success)
              && (r.Err? ==> r.error == "Template rendering failed: " + ListRepr(rendered.errors))
              && (r.Ok? ==> Some(r.value) == rendered.renderedText)
    {
      var result := Render(kwargs, other);
      if !result.success {
        return Err("Template rendering failed: " + ListRepr(result.errors));
      }
      r := Ok(result.renderedText.value);
    }
  }

  /** The positions below `n` of the required slots, in increasing order. */
  function RequiredPositions(slots: seq<Slot>, n: nat): (ks: seq<nat>)
    requires n <= |slots|
    ensures forall t | 0 <= t < |ks| :: ks[t] < n && slots[ks[t]].required
    ensures forall t, u | 0 <= t < u < |ks| :: ks[t] < ks[u]
    ensures forall i | 0 <= i < n && slots[i].required :: i in ks
    decreases n
  {
    if n == 0 then [] else RequiredPositions(slots, n - 1) + if slots[n - 1].required then [n - 1] else []
  }

  /** `required` lists exactly the required slots' names, and is all of them
      in slot order when every slot is required (`RequiredNamesAt` gives the
      order in general). */
  lemma {:induction false} RequiredNamesSpec(slots: seq<Slot>, n: nat)
    requires n <= |slots|
    ensures forall name :: name in RequiredNames(slots, n) <==> exists i | 0 <= i < n :: slots[i].required && slots[i].name == name
    ensures |RequiredNames(slots, n)| <= n
    ensures (forall i | 0 <= i < n :: slots[i].required) ==>
              RequiredNames(slots, n) == seq(n, i requires 0 <= i < n => slots[i].name)
    decreases n
  {
    if n > 0 {
      RequiredNamesSpec(slots, n - 1);
    }
  }

  /** Entry `t` of `required` is the name of the `t`-th required slot, so the
      names keep slot order and a name shared by two required slots appears
      twice. */
  lemma {:induction false} RequiredNamesAt(slots: seq<Slot>, n: nat)
    requires n <= |slots|
    ensures var ks := RequiredPositions(slots, n);
            |RequiredNames(slots, n)| == |ks| &&
            forall t | 0 <= t < |ks| :: RequiredNames(slots, n)[t] == slots[ks[t]].name
    decreases n
  {
    if n > 0 {
      RequiredNamesAt(slots, n - 1);
      var names, ks := RequiredNames(slots, n - 1), RequiredPositions(slots, n - 1);
      if slots[n - 1].required {
        assert RequiredNames(slots, n) == names + [slots[n - 1].name];
        assert RequiredPositions(slots, n) == ks + [n - 1];
      } else {
        assert RequiredNames(slots, n) == names;
        assert RequiredPositions(slots, n) == ks;
      }
    }
  }

  /** `properties` never holds a name twice. */
  lemma {:induction false} PropertiesDistinct(slots: seq<Slot>, n: nat)
    requires n <= |slots|
    ensures DistinctKeys(Properties(slots, n))
    decreases n
  {
    if n > 0 {
      PropertiesDistinct(slots, n - 1);
      PutDistinct(Properties(slots, n - 1), slots[n - 1].name, PropertyOf(slots[n - 1]));
    }
  }

  /** Every slot name, and nothing else, has a property. */
  lemma PropertiesKey(slots: seq<Slot>, n: nat, name: string)
    requires n <= |slots|
    ensures name in Keys(Properties(slots, n)) <==> exists i | 0 <= i < n :: slots[i].name == name
  {
    PutEachKey(slots, n, NameOf, PropertyOf, name);
    assert forall i | 0 <= i < n :: NameOf(slots[i]) == slots[i].name;
  }

  /** The property of a name is that of the last slot of the name. */
  lemma PropertiesLast(slots: seq<Slot>, n: nat, j: nat)
    requires j < n <= |slots|
    requires forall k | j < k < n :: slots[k].name != slots[j].name
    ensures Get(Properties(slots, n), slots[j].name) == Some(PropertyOf(slots[j]))
  {
    assert forall i | j < i < n :: NameOf(slots[i]) != NameOf(slots[j]);
    PutEachLast(slots, n, NameOf, PropertyOf, j);
  }

  /** A property is a number exactly for a NUMERIC slot and a string
      otherwise; it lists `enum` values only for an ENUM slot that has
      some; at most the first three examples; the slot's default. */
  lemma PropertyOfSpec(slot: Slot)
    ensures var p := PropertyOf(slot);
            && (p.typeName == "number" <==> slot.slotType == Numeric)
            && (p.typeName != "number" ==> p.typeName == "string")
            && (p.enumValues.Some? <==> slot.slotType == Enum && slot.enumValues.Some? && slot.enumValues.value != [])
            && (p.enumValues.Some? ==> p.enumValues == slot.enumValues)
            && (p.examples.Some? <==> slot.examples != [])
            && (p.examples.Some? ==> |p.examples.value| <= 3 && p.examples.value == slot.examples[..|p.examples.value|])
            && p.default == slot.defaultValue
  {
  }
}
