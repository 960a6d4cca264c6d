/** Canonical templates: the aligned common structure with its generic
    `{{slot_i}}` placeholders renamed after the detected slots, and the
    dictionary form in which templates are stored. */
module TemplateBuilder {
  import opened Wrappers
  import opened PyStrings
  import opened PyDict
  import opened WordPatterns
  import opened TemplateText
  import opened Alignment
  import opened SlotDetection

  /** `CanonicalTemplate`; `slot_map` is an insertion-ordered dict from slot
      name to position. */
  datatype CanonicalTemplate = CanonicalTemplate(
    text: string,
    slots: seq<Slot>,
    sourcePrompts: seq<string>,
    slotMap: seq<(string, int)>)

  // ---------------------------------------------------------------------
  // build_template

  /** The template text after the first `n` rounds of the `build_template`
      loop: each round replaces every `{{slot_i}}` by `{{<name of slot i>}}`. */
  function BuildText(common: string, slots: seq<Slot>, n: nat): string
    requires n <= |slots|
    decreases n
  {
    if n == 0 then common
    else ReplaceAll(BuildText(common, slots, n - 1), Placeholder(SlotName(n - 1)), Placeholder(slots[n - 1].name))
  }

  /** `slot_map` after the first `n` rounds: `slot_map[slot.name] = slot.position`. */
  function SlotMapOf(slots: seq<Slot>, n: nat): seq<(string, int)>
    requires n <= |slots|
    decreases n
  {
    if n == 0 then [] else Put(SlotMapOf(slots, n - 1), slots[n - 1].name, slots[n - 1].position)
  }

  /** What `build_template` returns (with the default `{{name}}` format). */
  function Built(alignment: AlignmentResult, slots: seq<Slot>): CanonicalTemplate {
    CanonicalTemplate(BuildText(alignment.commonStructure, slots, |slots|), slots, alignment.prompts,
                      SlotMapOf(slots, |slots|))
  }

  /** `build_template`. */
  method BuildTemplate(alignment: AlignmentResult, slots: seq<Slot>) returns (t: CanonicalTemplate)
    ensures t == Built(alignment, slots)
  {
    var text := alignment.commonStructure;
    var slotMap: seq<(string, int)> := [];
    for i := 0 to |slots|
      invariant text == BuildText(alignment.commonStructure, slots, i)
      invariant slotMap == SlotMapOf(slots, i)
    {
      var slot := slots[i];
      text := ReplaceAll(text, Placeholder(SlotName(i)), Placeholder(slot.name));
      slotMap := Put(slotMap, slot.name, slot.position);
    }
    t := CanonicalTemplate(text, slots, alignment.prompts, slotMap);
  }

  /** The slot map has one entry per distinct slot name. */
  lemma {:induction false} SlotMapKeys(slots: seq<Slot>, n: nat)
    requires n <= |slots|
    ensures DistinctKeys(SlotMapOf(slots, n))
    ensures forall name :: name in Keys(SlotMapOf(slots, n)) <==> exists i | 0 <= i < n :: slots[i].name == name
    decreases n
  {
    if n > 0 {
      var m, last := SlotMapOf(slots, n - 1), slots[n - 1];
      SlotMapKeys(slots, n - 1);
      PutDistinct(m, last.name, last.position);
      assert Keys(SlotMapOf(slots, n)) == Keys(m) || Keys(SlotMapOf(slots, n)) == Keys(m) + [last.name];
    }
  }

  /** A name maps to the position of the last slot that carries it. */
  lemma {:induction false} SlotMapLast(slots: seq<Slot>, n: nat)
    requires n <= |slots|
    ensures forall j | 0 <= j < n && (forall k | j < k < n :: slots[k].name != slots[j].name) ::
              Get(SlotMapOf(slots, n), slots[j].name) == Some(slots[j].position)
    decreases n
  {
    if n > 0 {
      var m, last := SlotMapOf(slots, n - 1), slots[n - 1];
      SlotMapLast(slots, n - 1);
      PutGet(m, last.name, last.position);
    }
  }

  /** The pieces after renaming the first `n` generic placeholders. */
  function Renamed(ps: seq<Piece>, slots: seq<Slot>, n: nat): seq<Piece>
    requires n <= |slots|
    decreases n
  {
    if n == 0 then ps else Subst(Renamed(ps, slots, n - 1), SlotName(n - 1), Hole(slots[n - 1].name))
  }

  /** What a placeholder name becomes after the first `n` rounds. */
  function RenameName(h: string, slots: seq<Slot>, n: nat): string
    requires n <= |slots|
    decreases n
  {
    if n == 0 then h
    else
      var p := RenameName(h, slots, n - 1);
      if p == SlotName(n - 1) then slots[n - 1].name else p
  }

  lemma SlotNameIsWord(k: nat)
    ensures IsWord(SlotName(k))
  {
    var s := SlotName(k);
    forall i | 0 <= i < |s| ensures IsWordChar(s[i]) {
      if i >= 5 {
        assert s[i] == NatToString(k)[i - 5];
      }
    }
  }

  lemma SlotNameInjective(j: nat, k: nat)
    ensures SlotName(j) == SlotName(k) ==> j == k
  {
    if SlotName(j) == SlotName(k) {
      assert NatToString(j) == SlotName(j)[5..] == SlotName(k)[5..] == NatToString(k);
      DigitsOfNat(j);
      DigitsOfNat(k);
    }
  }

  /** On a well-formed text, whose slot names are words, the `build_template`
      loop is the renaming of placeholders: each round substitutes the piece
      `{{<name>}}` for `{{slot_i}}`, and the text stays well-formed. */
  lemma {:induction false} BuildTextPieces(ps: seq<Piece>, slots: seq<Slot>, n: nat)
    requires n <= |slots| && WellFormed(ps)
    requires forall i | 0 <= i < |slots| :: IsWord(slots[i].name)
    ensures WellFormed(Renamed(ps, slots, n))
    ensures BuildText(Text(ps), slots, n) == Text(Renamed(ps, slots, n))
    decreases n
  {
    if n > 0 {
      var r, with := Renamed(ps, slots, n - 1), Hole(slots[n - 1].name);
      BuildTextPieces(ps, slots, n - 1);
      SlotNameIsWord(n - 1);
      ReplaceHole(r, SlotName(n - 1), with);
      SubstWellFormed(r, SlotName(n - 1), with);
    }
  }

  /** Renaming maps the placeholder names one by one, keeping their order. */
  lemma {:induction false} RenamedHoles(ps: seq<Piece>, slots: seq<Slot>, n: nat)
    requires n <= |slots|
    ensures Holes(Renamed(ps, slots, n))
         == seq(|Holes(ps)|, i requires 0 <= i < |Holes(ps)| => RenameName(Holes(ps)[i], slots, n))
    decreases n
  {
    if n > 0 {
      var r := Renamed(ps, slots, n - 1);
      RenamedHoles(ps, slots, n - 1);
      HolesSubst(r, SlotName(n - 1), slots[n - 1].name);
    }
  }

  /** A name that is none of the first `n` generic names is left alone. */
  lemma {:induction false} RenameOther(h: string, slots: seq<Slot>, n: nat)
    requires n <= |slots| && forall i | 0 <= i < n :: h != SlotName(i)
    ensures RenameName(h, slots, n) == h
    decreases n
  {
    if n > 0 {
      RenameOther(h, slots, n - 1);
    }
  }

  /** No slot is itself named like a generic placeholder. */
  ghost predicate NoGenericNames(slots: seq<Slot>) {
    forall i, k | 0 <= i < |slots| :: slots[i].name != SlotName(k)
  }

  /** When no slot name is itself generic, `{{slot_j}}` ends up as the name
      of slot `j`: a renamed placeholder is never renamed again. */
  lemma {:induction false} RenameSlotName(slots: seq<Slot>, n: nat, j: nat)
    requires j < n <= |slots| && NoGenericNames(slots)
    ensures RenameName(SlotName(j), slots, n) == slots[j].name
    decreases n
  {
    if n - 1 == j {
      forall i | 0 <= i < j ensures SlotName(j) != SlotName(i) {
        SlotNameInjective(i, j);
      }
      RenameOther(SlotName(j), slots, j);
    } else {
      RenameSlotName(slots, n - 1, j);
    }
  }

  /** `extract_slot_names`: `re.findall(r'\{\{(\w+)\}\}', text)`. */
  function ExtractSlotNames(text: string): (names: seq<string>)
    ensures forall i | 0 <= i < |names| :: IsWord(names[i])
  {
    FindAll(text, "{{", "}}")
  }

  /** The end-to-end property of `build_template`: when the common structure
      is a well-formed text whose placeholders are `{{slot_0}}`, ...,
      `{{slot_<k-1>}}` in order (as alignment produces them) and the `k`
      slot names are words that are not themselves generic, the built text
      has exactly the slot names as its placeholders, in slot order. */
  lemma BuiltSlotNames(alignment: AlignmentResult, slots: seq<Slot>, ps: seq<Piece>)
    requires alignment.commonStructure == Text(ps) && WellFormed(ps) && Holes(ps) == SlotNames(0, |slots|)
    requires forall i | 0 <= i < |slots| :: IsWord(slots[i].name)
    requires NoGenericNames(slots)
    ensures ExtractSlotNames(Built(alignment, slots).text) == seq(|slots|, i requires 0 <= i < |slots| => slots[i].name)
  {
    var n := |slots|;
    BuildTextPieces(ps, slots, n);
    FindHoles(Renamed(ps, slots, n));
    RenamedHoles(ps, slots, n);
    forall j | 0 <= j < n ensures RenameName(Holes(ps)[j], slots, n) == slots[j].name {
      RenameSlotName(slots, n, j);
    }
  }

  /** The names `generate_slot_name` produces are never generic: each ends
      in a letter, or starts with a letter other than `s`. */
  lemma GeneratedNotGeneric(position: nat, examples: seq<string>, t: SlotType, k: nat)
    ensures GenerateSlotName(position, examples, t) != SlotName(k)
  {
    var g, s := GenerateSlotName(position, examples, t), SlotName(k);
    assert IsDigit(s[|s| - 1]) by {
      assert s[|s| - 1] == NatToString(k)[|NatToString(k)| - 1];
    }
    match t
    case Numeric =>
      if !MentionsWord(examples) && !MentionsPercent(examples) {
        assert g[0] == 'n' && s[0] == 's';
      } else {
        assert !IsDigit(g[|g| - 1]);
      }
    case Enum =>
      if examples != [] {
        assert g[|g| - 1] == 'n';
      } else {
        assert g[0] == 'o' && s[0] == 's';
      }
    case TextSlot =>
      assert g[0] == 't' && s[0] == 's';
    case Date =>
    case Email =>
    case Url =>
  }

  // ---------------------------------------------------------------------
  // template_to_dict / template_from_dict

  /** A stored slot: each field is `None` when its key is absent, so the
      optional values of the slot are doubly wrapped. */
  datatype SlotRecord = SlotRecord(
    name: Option<string>,
    typeValue: Option<string>,
    position: Option<int>,
    examples: Option<seq<string>>,
    enumValues: Option<Option<seq<string>>>,
    validationPattern: Option<Option<string>>,
    description: Option<Option<string>>,
    required: Option<bool>,
    defaultValue: Option<Option<string>>)

  /** A stored template; `None` again stands for an absent key. */
  datatype TemplateRecord = TemplateRecord(
    text: Option<string>,
    slots: Option<seq<SlotRecord>>,
    sourcePromptCount: Option<int>)

  /** The exceptions `template_from_dict` raises: a `KeyError` for a missing
      mandatory key, a `ValueError` for an unknown slot type. */
  datatype DictError = MissingKey(key: string) | UnknownSlotType(value: string)

  /** `d.get(key)` of a key whose stored value may itself be `None`. */
  function Flatten<T>(o: Option<Option<T>>): Option<T> {
    if o.Some? then o.value else None
  }

  /** `SlotType(value)`. */
  function SlotTypeOf(v: string): Option<SlotType> {
    if v == "numeric" then Some(Numeric)
    else if v == "enum" then Some(Enum)
    else if v == "text" then Some(TextSlot)
    else if v == "date" then Some(Date)
    else if v == "email" then Some(Email)
    else if v == "url" then Some(Url)
    else None
  }

  /** Looking a type up by its value inverts `.value`. */
  lemma SlotTypeOfSpec(v: string, t: SlotType)
    ensures SlotTypeOf(t.Value()) == Some(t)
    ensures SlotTypeOf(v) == Some(t) ==> t.Value() == v
  {
  }

  function SlotToRecord(s: Slot): SlotRecord {
    SlotRecord(Some(s.name), Some(s.slotType.Value()), Some(s.position), Some(s.examples), Some(s.enumValues),
               Some(s.validationPattern), Some(s.description), Some(s.required), Some(s.defaultValue))
  }

  function SlotRecords(slots: seq<Slot>): (rs: seq<SlotRecord>)
    ensures |rs| == |slots| && forall i | 0 <= i < |slots| :: rs[i] == SlotToRecord(slots[i])
  {
    seq(|slots|, i requires 0 <= i < |slots| => SlotToRecord(slots[i]))
  }

  /** `template_to_dict`. */
  function ToDict(t: CanonicalTemplate): TemplateRecord {
    TemplateRecord(Some(t.text), Some(SlotRecords(t.slots)), Some(|t.sourcePrompts|))
  }

  /** One `Slot(...)` of `template_from_dict`; the keyword arguments are
      evaluated in order, so the first missing key is the one reported. */
  function SlotFromRecord(r: SlotRecord): Result<Slot, DictError> {
    if r.name.None? then Err(MissingKey("name"))
    else if r.typeValue.None? then Err(MissingKey("type"))
    else if SlotTypeOf(r.typeValue.value).None? then Err(UnknownSlotType(r.typeValue.value))
    else if r.position.None? then Err(MissingKey("position"))
    else Ok(Slot(r.name.value, SlotTypeOf(r.typeValue.value).value, r.position.value, r.examples.GetOr([]),
                 Flatten(r.enumValues), Flatten(r.validationPattern), Flatten(r.description), r.required.GetOr(true),
                 Flatten(r.defaultValue)))
  }

  /** The slot list comprehension: the first failing record raises. */
  function SlotsFromRecords(rs: seq<SlotRecord>): (r: Result<seq<Slot>, DictError>)
    ensures r.Ok? ==> |r.value| == |rs|
    decreases |rs|
  {
    if rs == [] then Ok([])
    else
      match SlotFromRecord(rs[0])
      case Err(e) => Err(e)
      case Ok(s) =>
        match SlotsFromRecords(rs[1..])
        case Err(e) => Err(e)
        case Ok(rest) => Ok([s] + rest)
  }

  /** `template_from_dict`: the slots are read first, then the text. */
  function FromDict(data: TemplateRecord, sourcePrompts: Option<seq<string>>): Result<CanonicalTemplate, DictError> {
    match SlotsFromRecords(data.slots.GetOr([]))
    case Err(e) => Err(e)
    case Ok(slots) =>
      if data.text.None? then Err(MissingKey("text"))
      else Ok(CanonicalTemplate(data.text.value, slots, sourcePrompts.GetOr([]), SlotMapOf(slots, |slots|)))
  }

  lemma SlotRoundTrip(s: Slot)
    ensures SlotFromRecord(SlotToRecord(s)) == Ok(s)
  {
    SlotTypeOfSpec(s.slotType.Value(), s.slotType);
  }

  lemma {:induction false} SlotsRoundTrip(slots: seq<Slot>)
    ensures SlotsFromRecords(SlotRecords(slots)) == Ok(slots)
    decreases |slots|
  {
    if slots != [] {
      SlotRoundTrip(slots[0]);
      SlotsRoundTrip(slots[1..]);
      assert SlotRecords(slots)[1..] == SlotRecords(slots[1..]);
      assert [slots[0]] + slots[1..] == slots;
    }
  }

  /** Storing and reading back keeps the text and every field of every
      slot, rebuilds the slot map from the slots, and takes the source
      prompts from the caller (`source_prompts or []`); the stored count is
      the number of source prompts. */
  lemma RoundTrip(t: CanonicalTemplate, sourcePrompts: Option<seq<string>>)
    ensures ToDict(t).sourcePromptCount == Some(|t.sourcePrompts|)
    ensures FromDict(ToDict(t), sourcePrompts)
         == Ok(CanonicalTemplate(t.text, t.slots, sourcePrompts.GetOr([]), SlotMapOf(t.slots, |t.slots|)))
  {
    SlotsRoundTrip(t.slots);
  }

  /** A built template comes back whole, given its prompts. */
  lemma BuiltRoundTrip(alignment: AlignmentResult, slots: seq<Slot>)
    ensures FromDict(ToDict(Built(alignment, slots)), Some(alignment.prompts)) == Ok(Built(alignment, slots))
  {
    RoundTrip(Built(alignment, slots), Some(alignment.prompts));
  }

  /** Absent optional keys read as: no examples, required, and `None` for
      the rest; absent mandatory keys raise, in argument order. */
  lemma SlotDefaults(name: string, t: SlotType, position: int)
    ensures var r := SlotRecord(Some(name), Some(t.Value()), Some(position), None, None, None, None, None, None);
            SlotFromRecord(r) == Ok(Slot(name, t, position, [], None, None, None, true, None))
    ensures forall r: SlotRecord :: r.name.None? ==> SlotFromRecord(r) == Err(MissingKey("name"))
    ensures forall r: SlotRecord :: r.name.Some? && r.typeValue.None? ==> SlotFromRecord(r) == Err(MissingKey("type"))
    ensures forall r: SlotRecord ::
              (r.name.Some? && r.typeValue.Some? && SlotTypeOf(r.typeValue.value).Some? && r.position.None?)
              ==> SlotFromRecord(r) == Err(MissingKey("position"))
  {
    SlotTypeOfSpec(t.Value(), t);
  }
}
