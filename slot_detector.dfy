/** Typing the variable regions of an alignment as template slots, naming
    them, and checking parameter values against them. The four regular
    expressions the detector uses are written out as the languages they
    accept under Python's `re.match`: anchored at the start, with
    backtracking, and with `$` matching at the end or before a final
    newline. */
module SlotDetection {
  import opened Wrappers
  import opened PyStrings
  import opened PyLists
  import opened PyDict
  import opened Alignment

  datatype SlotType = Numeric | Enum | TextSlot | Date | Email | Url {
    /** The enum member's value. */
    function Value(): string {
      match this
      case Numeric => "numeric"
      case Enum => "enum"
      case TextSlot => "text"
      case Date => "date"
      case Email => "email"
      case Url => "url"
    }
  }

  datatype Slot = Slot(
    name: string,
    slotType: SlotType,
    position: int,
    examples: seq<string>,
    enumValues: Option<seq<string>>,
    validationPattern: Option<string>,
    description: Option<string>,
    required: bool,
    defaultValue: Option<string>)

  // ---------------------------------------------------------------------
  // The detection patterns

  /** `$` at position `p`: the end, or just before a final newline. */
  predicate AtEnd(s: string, p: nat) {
    p == |s| || (p + 1 == |s| && s[p] == '\n')
  }

  /** `^-?\d+\.?\d*$`. */
  predicate NumericMatch(s: string) {
    var a := if s != [] && s[0] == '-' then 1 else 0;
    exists k | a < k <= |s| ::
      && AllDigits(s[a..k])
      && (|| AtEnd(s, k)
          || (k < |s| && s[k] == '.' && exists m | k + 1 <= m <= |s| :: AllDigits(s[k + 1..m]) && AtEnd(s, m)))
  }

  /** `^\d{4}-\d{2}-\d{2}|\d{1,2}/\d{1,2}/\d{2,4}$`: the alternation binds
      loosest, so the first branch needs only a prefix and the second is
      anchored at both ends. */
  predicate DateMatch(s: string) {
    || (|s| >= 10 && AllDigits(s[..4]) && s[4] == '-' && AllDigits(s[5..7]) && s[7] == '-' && AllDigits(s[8..10]))
    || exists a, b, c | 1 <= a <= 2 && a + 2 <= b <= a + 3 && b + 3 <= c <= b + 5 ::
         && c <= |s|
         && AllDigits(s[..a]) && s[a] == '/'
         && AllDigits(s[a + 1..b]) && s[b] == '/'
         && AllDigits(s[b + 1..c]) && AtEnd(s, c)
  }

  /** `[\w\.-]`. */
  predicate IsEmailChar(c: char) { IsWordChar(c) || c == '.' || c == '-' }

  predicate AllEmailChars(s: string) { forall i | 0 <= i < |s| :: IsEmailChar(s[i]) }

  /** `^[\w\.-]+@[\w\.-]+\.\w+$`. */
  predicate EmailMatch(s: string) {
    exists i, j, m | 0 < i && i + 1 < j && j + 1 < m <= |s| ::
      && s[i] == '@' && AllEmailChars(s[..i])
      && s[j] == '.' && AllEmailChars(s[i + 1..j])
      && AllWordChars(s[j + 1..m]) && AtEnd(s, m)
  }

  /** `^https?://|www\.` under `re.match`: both branches are tried at the
      start only. */
  predicate UrlMatch(s: string) {
    StartsWith(s, "http://") || StartsWith(s, "https://") || StartsWith(s, "www.")
  }

  /** `^https?://`, the pattern URL slots are validated with. */
  predicate HttpMatch(s: string) {
    StartsWith(s, "http://") || StartsWith(s, "https://")
  }

  const NumericRegex: string := "^-?\\d+\\.?\\d*$"
  const EmailRegex: string := "^[\\w\\.-]+@[\\w\\.-]+\\.\\w+$"
  const HttpRegex: string := "^https?://"

  /** `re.match(pattern, s)`: the three patterns the detector assigns are
      interpreted here; any other pattern (one read back from a stored
      template, say) is decided by `other`. */
  predicate PatternMatch(pattern: string, s: string, other: (string, string) -> bool) {
    if pattern == NumericRegex then NumericMatch(s)
    else if pattern == EmailRegex then EmailMatch(s)
    else if pattern == HttpRegex then HttpMatch(s)
    else other(pattern, s)
  }

  /** `str(n)` of every integer is numeric. */
  lemma NumericOfInt(n: int)
    ensures NumericMatch(IntToString(n))
  {
    var s := IntToString(n);
    var a := if s != [] && s[0] == '-' then 1 else 0;
    if n < 0 {
      assert s == "-" + NatToString(-n);
      assert a == 1 && s[1..] == NatToString(-n);
    } else {
      assert s == NatToString(n);
      assert IsDigit(s[0]) && a == 0;
    }
    assert a < |s| && AllDigits(s[a..|s|]) && AtEnd(s, |s|);
  }

  /** A numeric string holds only digits, the sign, the point and the final
      newline `$` lets through. */
  lemma NumericChars(s: string)
    requires NumericMatch(s)
    ensures s != [] && forall i | 0 <= i < |s| :: IsDigit(s[i]) || s[i] in "-.\n"
  {
    var a := if s != [] && s[0] == '-' then 1 else 0;
    var k :| a < k <= |s| && AllDigits(s[a..k])
             && (AtEnd(s, k) || (k < |s| && s[k] == '.' && exists m | k + 1 <= m <= |s| :: AllDigits(s[k + 1..m]) && AtEnd(s, m)));
    var m := k;
    if !AtEnd(s, k) {
      m :| k + 1 <= m <= |s| && AllDigits(s[k + 1..m]) && AtEnd(s, m);
    }
    forall i | 0 <= i < |s| ensures IsDigit(s[i]) || s[i] in "-.\n" {
      if i < a {
        assert s[i] == '-';
      } else if i < k {
        SliceDigit(s, a, k, i);
      } else if i >= m {
        assert s[i] == '\n';
      } else if i == k {
        assert s[i] == '.';
      } else {
        SliceDigit(s, k + 1, m, i);
      }
    }
  }

  lemma SliceDigit(s: string, a: nat, b: nat, i: nat)
    requires a <= i < b <= |s| && AllDigits(s[a..b])
    ensures IsDigit(s[i])
  {
    assert s[i] == s[a..b][i - a];
  }

  /** The first date branch is not anchored at the end: anything may follow
      an ISO date. */
  lemma IsoDatePrefix(d: string, rest: string)
    requires |d| == 10 && AllDigits(d[..4]) && d[4] == '-' && AllDigits(d[5..7]) && d[7] == '-' && AllDigits(d[8..10])
    ensures DateMatch(d + rest)
  {
    var s := d + rest;
    assert s[..4] == d[..4] && s[5..7] == d[5..7] && s[8..10] == d[8..10];
  }

  /** Every address the email pattern accepts has an `@`. */
  lemma EmailHasAt(s: string)
    requires EmailMatch(s)
    ensures '@' in s
  {
    var i, j, m :| 0 < i && i + 1 < j && j + 1 < m <= |s| && s[i] == '@'
                  && AllEmailChars(s[..i]) && s[j] == '.' && AllEmailChars(s[i + 1..j])
                  && AllWordChars(s[j + 1..m]) && AtEnd(s, m);
  }

  /** The validation pattern of URL slots accepts only part of what the
      detection pattern accepts: `www.` addresses are detected as URLs but
      fail the `^https?://` check. */
  lemma UrlPatterns(s: string)
    ensures HttpMatch(s) ==> UrlMatch(s)
    ensures UrlMatch("www.example.com") && !HttpMatch("www.example.com")
  {
    var w := "www.example.com";
    assert w[..7][0] == 'w' && w[..8][0] == 'w';
  }

  // ---------------------------------------------------------------------
  // detect_slot_type

  /** `[ex.strip() for ex in examples]`. */
  function StripAll(examples: seq<string>): (r: seq<string>)
    ensures |r| == |examples| && forall i | 0 <= i < |examples| :: r[i] == Strip(examples[i])
  {
    seq(|examples|, i requires 0 <= i < |examples| => Strip(examples[i]))
  }

  /** The non-empty strings, in order. */
  function NonBlank(ys: seq<string>): (r: seq<string>)
    ensures |r| <= |ys|
    decreases |ys|
  {
    if ys == [] then []
    else NonBlank(ys[..|ys| - 1]) + if ys[|ys| - 1] != "" then [ys[|ys| - 1]] else []
  }

  /** `[ex.strip() for ex in examples if ex.strip()]`. */
  function Cleaned(examples: seq<string>): seq<string> {
    NonBlank(StripAll(examples))
  }

  lemma {:induction false} NonBlankMembers(ys: seq<string>, x: string)
    ensures x in NonBlank(ys) <==> x != "" && x in ys
    decreases |ys|
  {
    if ys != [] {
      var n := |ys| - 1;
      NonBlankMembers(ys[..n], x);
      assert ys == ys[..n] + [ys[n]];
    }
  }

  lemma {:induction false} NonBlankOfClean(ys: seq<string>)
    requires forall i | 0 <= i < |ys| :: ys[i] != ""
    ensures NonBlank(ys) == ys
    decreases |ys|
  {
    if ys != [] {
      var n := |ys| - 1;
      NonBlankOfClean(ys[..n]);
      assert ys[..n] + [ys[n]] == ys;
    }
  }

  /** The cleaned examples are exactly the non-blank stripped examples. */
  lemma CleanedMembers(examples: seq<string>, x: string)
    ensures x in Cleaned(examples) <==> x != "" && exists i | 0 <= i < |examples| :: Strip(examples[i]) == x
  {
    var ys := StripAll(examples);
    NonBlankMembers(ys, x);
    if x in ys {
      var i :| 0 <= i < |ys| && ys[i] == x;
    }
  }

  /** Every cleaned example is already stripped and non-blank. */
  lemma CleanedStripped(examples: seq<string>)
    ensures forall x | x in Cleaned(examples) :: x != "" && Strip(x) == x
  {
    forall x | x in Cleaned(examples) ensures x != "" && Strip(x) == x {
      CleanedMembers(examples, x);
      var i :| 0 <= i < |examples| && Strip(examples[i]) == x;
      StripIdempotent(examples[i]);
    }
  }

  /** Nothing is left exactly when every example is blank. */
  lemma CleanedEmpty(examples: seq<string>)
    ensures Cleaned(examples) == [] <==> forall i | 0 <= i < |examples| :: Strip(examples[i]) == ""
  {
    if Cleaned(examples) != [] {
      CleanedMembers(examples, Cleaned(examples)[0]);
    }
    if exists i | 0 <= i < |examples| :: Strip(examples[i]) != "" {
      var i :| 0 <= i < |examples| && Strip(examples[i]) != "";
      CleanedMembers(examples, Strip(examples[i]));
    }
  }

  /** Examples that are already stripped and non-blank are their own
      cleaning. */
  lemma CleanedOfClean(examples: seq<string>)
    requires forall i | 0 <= i < |examples| :: examples[i] != "" && Strip(examples[i]) == examples[i]
    ensures Cleaned(examples) == examples
  {
    assert StripAll(examples) == examples;
    NonBlankOfClean(examples);
  }

  /** Every cleaned example passes the check of `t` (for the four pattern
      types). */
  predicate AllMatch(cleaned: seq<string>, t: SlotType) {
    forall i | 0 <= i < |cleaned| :: Matches(cleaned[i], t)
  }

  /** The detection check of `t` on one cleaned example. */
  predicate Matches(s: string, t: SlotType) {
    match t
    case Numeric => NumericMatch(s)
    case Date => DateMatch(s)
    case Email => EmailMatch(s)
    case Url => UrlMatch(s)
    case _ => false
  }

  /** The cascade of `detect_slot_type` over the outcomes of its checks, in
      the order it makes them. */
  function Classify(numeric: bool, date: bool, email: bool, url: bool, fewDistinct: bool): SlotType {
    if numeric then Numeric
    else if date then Date
    else if email then Email
    else if url then Url
    else if fewDistinct then Enum
    else TextSlot
  }

  /** Each outcome of the cascade is chosen exactly when its check holds
      and no earlier one does. */
  lemma ClassifySpec(numeric: bool, date: bool, email: bool, url: bool, fewDistinct: bool)
    ensures var t := Classify(numeric, date, email, url, fewDistinct);
            && (t == Numeric <==> numeric)
            && (t == Date <==> !numeric && date)
            && (t == Email <==> !numeric && !date && email)
            && (t == Url <==> !numeric && !date && !email && url)
            && (t == Enum <==> !numeric && !date && !email && !url && fewDistinct)
  {
  }

  function DetectSlotType(examples: seq<string>): SlotType {
    var cleaned := Cleaned(examples);
    if examples == [] || cleaned == [] then TextSlot
    else Classify(AllMatch(cleaned, Numeric), AllMatch(cleaned, Date), AllMatch(cleaned, Email),
                  AllMatch(cleaned, Url), |Dedupe(cleaned)| <= 5 && |cleaned| >= 3)
  }

  /** No (non-blank) examples give TEXT; otherwise the first of NUMERIC,
      DATE, EMAIL, URL that every cleaned example satisfies wins, then ENUM
      for at least three examples with at most five distinct values, then
      TEXT. */
  lemma DetectSlotTypeSpec(examples: seq<string>)
    ensures (forall i | 0 <= i < |examples| :: Strip(examples[i]) == "") ==> DetectSlotType(examples) == TextSlot
    ensures var c := Cleaned(examples);
            c != [] ==>
              var t := DetectSlotType(examples);
              && (t == Numeric <==> AllMatch(c, Numeric))
              && (t == Date <==> !AllMatch(c, Numeric) && AllMatch(c, Date))
              && (t == Email <==> !AllMatch(c, Numeric) && !AllMatch(c, Date) && AllMatch(c, Email))
              && (t == Url <==> !AllMatch(c, Numeric) && !AllMatch(c, Date) && !AllMatch(c, Email) && AllMatch(c, Url))
              && (t == Enum <==>
                    && !AllMatch(c, Numeric) && !AllMatch(c, Date) && !AllMatch(c, Email) && !AllMatch(c, Url)
                    && |Dedupe(c)| <= 5 && |c| >= 3)
    ensures DetectSlotType(examples) == Enum ==> |Cleaned(examples)| >= 3
  {
    CleanedEmpty(examples);
    var c := Cleaned(examples);
    ClassifySpec(AllMatch(c, Numeric), AllMatch(c, Date), AllMatch(c, Email), AllMatch(c, Url), |Dedupe(c)| <= 5 && |c| >= 3);
  }

  /** `str` of integers: `[str(v) for v in values]`. */
  function IntStrings(values: seq<int>): (r: seq<string>)
    ensures |r| == |values| && forall i | 0 <= i < |values| :: r[i] == IntToString(values[i])
  {
    seq(|values|, i requires 0 <= i < |values| => IntToString(values[i]))
  }

  /** Printed integers are already clean. */
  lemma IntStringsClean(values: seq<int>)
    ensures Cleaned(IntStrings(values)) == IntStrings(values)
  {
    var exs := IntStrings(values);
    forall i | 0 <= i < |exs| ensures exs[i] != "" && Strip(exs[i]) == exs[i] {
      StripOfStripped(exs[i]);
    }
    CleanedOfClean(exs);
  }

  /** Examples that are all printed integers are typed NUMERIC. */
  lemma IntegersAreNumeric(values: seq<int>)
    requires values != []
    ensures DetectSlotType(IntStrings(values)) == Numeric
  {
    var exs := IntStrings(values);
    IntStringsClean(values);
    IntStringsNumeric(values);
    DetectNumeric(exs);
  }

  lemma IntStringsNumeric(values: seq<int>)
    ensures AllMatch(IntStrings(values), Numeric)
  {
    var exs := IntStrings(values);
    forall i | 0 <= i < |exs| ensures NumericMatch(exs[i]) {
      NumericOfInt(values[i]);
    }
  }

  lemma DetectNumeric(examples: seq<string>)
    requires Cleaned(examples) != [] && AllMatch(Cleaned(examples), Numeric)
    ensures DetectSlotType(examples) == Numeric
  {
  }

  // ---------------------------------------------------------------------
  // generate_slot_name

  /** `ex.lower().replace(' ', '_')[:15]`. */
  function EnumBase(ex: string): (b: string)
    ensures |b| <= 15
  {
    var t := ReplaceAll(Lower(ex), " ", "_");
    t[..SliceEnd(|t|, 15)]
  }

  /** Some example mentions "word", ignoring case. */
  predicate MentionsWord(examples: seq<string>) {
    exists i | 0 <= i < |examples| :: Contains(Lower(examples[i]), "word")
  }

  /** Some example holds a `%`. */
  predicate MentionsPercent(examples: seq<string>) {
    exists i | 0 <= i < |examples| :: '%' in examples[i]
  }

  function GenerateSlotName(position: nat, examples: seq<string>, t: SlotType): string {
    match t
    case Numeric =>
      if MentionsWord(examples) then "word_count"
      else if MentionsPercent(examples) then "percentage"
      else "number_" + NatToString(position)
    case Date => "date"
    case Email => "email"
    case Url => "url"
    case Enum => if examples != [] then EnumBase(examples[0]) + "_option" else "option_" + NatToString(position)
    case TextSlot => "text_" + NatToString(position)
  }

  lemma {:induction false} LStripChars(s: string)
    ensures forall i | 0 <= i < |s| :: IsSpace(s[i]) || s[i] in LStrip(s)
    decreases |s|
  {
    if s != [] && IsSpace(s[0]) {
      LStripChars(s[1..]);
      forall i | 1 <= i < |s| ensures IsSpace(s[i]) || s[i] in LStrip(s) {
        assert s[i] == s[1..][i - 1];
      }
    }
  }

  lemma {:induction false} RStripChars(s: string)
    ensures forall i | 0 <= i < |s| :: IsSpace(s[i]) || s[i] in RStrip(s)
    decreases |s|
  {
    if s != [] && IsSpace(s[|s| - 1]) {
      RStripChars(s[..|s| - 1]);
      forall i | 0 <= i < |s| - 1 ensures IsSpace(s[i]) || s[i] in RStrip(s) {
        assert s[i] == s[..|s| - 1][i];
      }
    }
  }

  /** What `strip` removes is whitespace. */
  lemma StripChars(s: string)
    ensures forall i | 0 <= i < |s| :: IsSpace(s[i]) || s[i] in Strip(s)
  {
    LStripChars(s);
    RStripChars(LStrip(s));
  }

  /** A string without the first character of `p` does not contain `p`. */
  lemma {:induction false} NotContains(s: string, p: string)
    requires p != [] && p[0] !in s
    ensures !Contains(s, p)
    decreases |s|
  {
    if s != [] {
      assert s[0] != p[0];
      NotContains(s[1..], p);
    }
  }

  /** The characters an example of a NUMERIC slot can hold. */
  predicate NumericExampleChar(c: char) { IsSpace(c) || IsDigit(c) || c in "-.\n" }

  lemma NumericExampleChars(examples: seq<string>, i: nat)
    requires AllMatch(Cleaned(examples), Numeric) && i < |examples|
    ensures forall k | 0 <= k < |examples[i]| :: NumericExampleChar(examples[i][k])
  {
    var e := examples[i];
    var c := Cleaned(examples);
    StripChars(e);
    if Strip(e) != "" {
      CleanedMembers(examples, Strip(e));
      var j :| 0 <= j < |c| && c[j] == Strip(e);
      assert AllMatch(c, Numeric);
      NumericChars(c[j]);
    }
  }

  lemma NoWordNoPercent(e: string)
    requires forall k | 0 <= k < |e| :: NumericExampleChar(e[k])
    ensures !Contains(Lower(e), "word") && '%' !in e
  {
    forall k | 0 <= k < |e| ensures Lower(e)[k] != 'w' {
      assert NumericExampleChar(e[k]);
    }
    NotContains(Lower(e), "word");
  }

  /** A slot whose cleaned examples all look numeric is always named
      `number_<i>`: its examples hold no letter and no `%`, so the
      `word_count` and `percentage` names are never produced. */
  lemma NumericSlotName(position: nat, examples: seq<string>)
    requires AllMatch(Cleaned(examples), Numeric)
    ensures GenerateSlotName(position, examples, Numeric) == "number_" + NatToString(position)
  {
    forall i | 0 <= i < |examples| ensures !Contains(Lower(examples[i]), "word") && '%' !in examples[i] {
      NumericExampleChars(examples, i);
      NoWordNoPercent(examples[i]);
    }
  }

  // ---------------------------------------------------------------------
  // detect_slots

  /** The validation pattern each type gets. */
  function PatternFor(t: SlotType): Option<string> {
    match t
    case Numeric => Some(NumericRegex)
    case Email => Some(EmailRegex)
    case Url => Some(HttpRegex)
    case _ => None
  }

  /** The slot built for region `i` once its type `t` is known. */
  function SlotOf(i: nat, region: Region, t: SlotType): Slot {
    Slot(GenerateSlotName(i, region.examples, t), t, region.start,
         region.examples[..SliceEnd(|region.examples|, 10)],
         if t == Enum then Some(Dedupe(region.examples)) else None,
         PatternFor(t), None, true, None)
  }

  /** The slot built for region `i`. */
  function SlotFor(i: nat, region: Region): Slot {
    SlotOf(i, region, DetectSlotType(region.examples))
  }

  /** The slots of `detect_slots`, one per region, built in order. */
  function SlotsFor(regions: seq<Region>): (slots: seq<Slot>)
    ensures |slots| == |regions|
    decreases |regions|
  {
    if regions == [] then []
    else SlotsFor(regions[..|regions| - 1]) + [SlotFor(|regions| - 1, regions[|regions| - 1])]
  }

  /** Slot `i` is the one built for region `i`. */
  lemma {:induction false} SlotsForAt(regions: seq<Region>, i: nat)
    requires i < |regions|
    ensures SlotsFor(regions)[i] == SlotFor(i, regions[i])
    decreases |regions|
  {
    var n := |regions| - 1;
    if i < n {
      SlotsForAt(regions[..n], i);
      assert regions[..n][i] == regions[i];
    }
  }

  /** The body of the `detect_slots` loop for region `i`. */
  method MakeSlot(i: nat, region: Region) returns (slot: Slot)
    ensures slot == SlotFor(i, region)
  {
    var slotType := DetectSlotType(region.examples);
    var name := GenerateSlotName(i, region.examples, slotType);
    slot := Slot(name, slotType, region.start, region.examples[..SliceEnd(|region.examples|, 10)],
                 None, None, None, true, None);
    if slotType == Enum {
      slot := slot.(enumValues := Some(Dedupe(region.examples)));
    }
    if slotType == Numeric {
      slot := slot.(validationPattern := Some(NumericRegex));
    } else if slotType == Email {
      slot := slot.(validationPattern := Some(EmailRegex));
    } else if slotType == Url {
      slot := slot.(validationPattern := Some(HttpRegex));
    }
  }

  /** `detect_slots`. */
  method DetectSlots(alignment: AlignmentResult) returns (slots: seq<Slot>)
    ensures slots == SlotsFor(alignment.variableRegions)
  {
    var regions := alignment.variableRegions;
    slots := [];
    var i := 0;
    while i < |regions|
      invariant 0 <= i <= |regions|
      invariant slots == SlotsFor(regions[..i])
    {
      var slot := MakeSlot(i, regions[i]);
      assert regions[..i + 1][..i] == regions[..i];
      slots := slots + [slot];
      i := i + 1;
    }
    assert regions[..i] == regions;
  }

  /** The slot for a region of type `t` sits at the region's start and keeps its first
      ten examples; an ENUM slot lists each example once and exactly those;
      the three pattern types carry their pattern and no other slot has one;
      and every slot is required, with no default and no description. */
  lemma SlotOfSpec(i: nat, r: Region, t: SlotType)
    ensures var s := SlotOf(i, r, t);
            && s.position == r.start
            && s.slotType == t
            && |s.examples| <= 10 && s.examples == r.examples[..|s.examples|]
            && (|r.examples| <= 10 ==> s.examples == r.examples)
            && (s.enumValues.Some? <==> s.slotType == Enum)
            && (s.enumValues.Some? ==>
                  NoDuplicates(s.enumValues.value)
                  && forall x :: x in s.enumValues.value <==> x in r.examples)
            && (s.validationPattern.Some? <==> s.slotType in {Numeric, Email, Url})
            && s.required && s.defaultValue.None? && s.description.None?
  {
    DedupeSpec(r.examples);
  }

  // ---------------------------------------------------------------------
  // SlotValidator

  datatype SlotValidationResult = SlotValidationResult(isValid: bool, errors: seq<string>, warnings: seq<string>)

  /** `{slot.name: slot for slot in slots}`: a later slot with the same name
      replaces an earlier one, keeping the first one's place. */
  function SlotTable(slots: seq<Slot>): (t: seq<(string, Slot)>)
    decreases |slots|
  {
    if slots == [] then []
    else
      var last := slots[|slots| - 1];
      Put(SlotTable(slots[..|slots| - 1]), last.name, last)
  }

  /** The table has one entry per distinct name. */
  lemma {:induction false} SlotTableDistinct(slots: seq<Slot>)
    ensures DistinctKeys(SlotTable(slots))
    decreases |slots|
  {
    if slots != [] {
      var p, last := slots[..|slots| - 1], slots[|slots| - 1];
      SlotTableDistinct(p);
      PutDistinct(SlotTable(p), last.name, last);
    }
  }

  /** The names in the table are exactly the names of the slots. */
  lemma {:induction false} SlotTableKeys(slots: seq<Slot>)
    ensures forall n :: n in Keys(SlotTable(slots)) <==> exists i | 0 <= i < |slots| :: slots[i].name == n
    decreases |slots|
  {
    if slots != [] {
      var p, last := slots[..|slots| - 1], slots[|slots| - 1];
      SlotTableKeys(p);
      var t, r := SlotTable(p), SlotTable(slots);
      assert Keys(r) == Keys(t) || Keys(r) == Keys(t) + [last.name];
      forall n ensures n in Keys(r) <==> exists i | 0 <= i < |slots| :: slots[i].name == n {
        if exists i | 0 <= i < |p| :: p[i].name == n {
          var i :| 0 <= i < |p| && p[i].name == n;
          assert slots[i] == p[i];
        }
        if exists i | 0 <= i < |slots| :: slots[i].name == n {
          var i :| 0 <= i < |slots| && slots[i].name == n;
          if i < |p| { assert p[i] == slots[i]; }
        }
      }
    }
  }

  /** Every slot is filed under its own name, and the last slot of a list is
      the one kept for its name. */
  lemma {:induction false} SlotTableNames(slots: seq<Slot>)
    ensures forall i | 0 <= i < |SlotTable(slots)| :: SlotTable(slots)[i].1.name == SlotTable(slots)[i].0
    ensures slots != [] ==> Get(SlotTable(slots), slots[|slots| - 1].name) == Some(slots[|slots| - 1])
    decreases |slots|
  {
    if slots != [] {
      var p, last := slots[..|slots| - 1], slots[|slots| - 1];
      SlotTableNames(p);
      SlotTableDistinct(slots);
      PutGet(SlotTable(p), last.name, last);
      var r := SlotTable(slots);
      forall i | 0 <= i < |r| ensures r[i].1.name == r[i].0 {
        if r[i].0 == last.name {
          GetAt(r, i);
        }
      }
    }
  }

  function Quoted(s: string): string { "'" + s + "'" }

  /** `str(list)` of strings: `['a', 'b']` (quote escaping is not modelled). */
  function ListRepr(xs: seq<string>): string {
    "[" + JoinWith(", ", seq(|xs|, i requires 0 <= i < |xs| => Quoted(xs[i]))) + "]"
  }

  function MissingMessage(name: string): string { "Missing required slot: " + Quoted(name) }
  function DefaultMessage(name: string): string { "Using default value for " + Quoted(name) }
  function UnknownMessage(name: string): string { "Unknown slot: " + Quoted(name) }

  /** The errors and warnings of the first loop for one slot. */
  function RequiredCheck(name: string, slot: Slot, params: seq<(string, string)>): (seq<string>, seq<string>) {
    if slot.required && name !in Keys(params) then
      if slot.defaultValue.Some? then ([], [DefaultMessage(name)]) else ([MissingMessage(name)], [])
    else ([], [])
  }

  /** The type check of one value. */
  function TypeErrors(name: string, slot: Slot, value: string): seq<string> {
    match slot.slotType
    case Numeric =>
      if !NumericMatch(value) then ["Slot " + Quoted(name) + " must be numeric, got: " + Quoted(value)] else []
    case Enum =>
      if slot.enumValues.Some? && slot.enumValues.value != [] && value !in slot.enumValues.value then
        ["Slot " + Quoted(name) + " must be one of " + ListRepr(slot.enumValues.value) + ", got: " + Quoted(value)]
      else []
    case Email =>
      if !EmailMatch(value) then ["Slot " + Quoted(name) + " must be a valid email, got: " + Quoted(value)] else []
    case Url =>
      if !UrlMatch(value) then ["Slot " + Quoted(name) + " must be a valid URL, got: " + Quoted(value)] else []
    case _ => []
  }

  /** The custom-pattern check of one value (an empty pattern is skipped). */
  function PatternErrors(name: string, slot: Slot, value: string, other: (string, string) -> bool): seq<string> {
    if slot.validationPattern.Some? && slot.validationPattern.value != "" && !PatternMatch(slot.validationPattern.value, value, other)
    then ["Slot " + Quoted(name) + " failed pattern validation: " + Quoted(value)]
    else []
  }

  /** The errors and warnings of the second loop for one parameter. */
  function ValueCheck(table: seq<(string, Slot)>, name: string, value: string, other: (string, string) -> bool)
    : (seq<string>, seq<string>)
  {
    match Get(table, name)
    case None => ([], [UnknownMessage(name)])
    case Some(slot) => (TypeErrors(name, slot, value) + PatternErrors(name, slot, value, other), [])
  }

  /** The first loop over the first `n` table entries. */
  function RequiredChecks(table: seq<(string, Slot)>, params: seq<(string, string)>, n: nat): (seq<string>, seq<string>)
    requires n <= |table|
    decreases n
  {
    if n == 0 then ([], [])
    else
      var acc := RequiredChecks(table, params, n - 1);
      var step := RequiredCheck(table[n - 1].0, table[n - 1].1, params);
      (acc.0 + step.0, acc.1 + step.1)
  }

  /** The check of one parameter against `table`. */
  function Checker(table: seq<(string, Slot)>, other: (string, string) -> bool): ((string, string)) -> (seq<string>, seq<string>) {
    (p: (string, string)) => ValueCheck(table, p.0, p.1, other)
  }

  /** The errors and warnings of `check` over the first `n` parameters,
      each parameter's after those of the parameters before it. */
  function Joined(check: ((string, string)) -> (seq<string>, seq<string>), params: seq<(string, string)>, n: nat)
    : (seq<string>, seq<string>)
    requires n <= |params|
    decreases n
  {
    if n == 0 then ([], [])
    else
      var acc := Joined(check, params, n - 1);
      var step := check(params[n - 1]);
      (acc.0 + step.0, acc.1 + step.1)
  }

  /** The errors of one parameter are among the errors of all of them. */
  lemma {:induction false} JoinedCover(check: ((string, string)) -> (seq<string>, seq<string>), params: seq<(string, string)>,
                                       n: nat, i: nat)
    requires i < n <= |params|
    ensures |check(params[i]).0| <= |Joined(check, params, n).0|
    ensures forall x | x in check(params[i]).1 :: x in Joined(check, params, n).1
    decreases n
  {
    if i < n - 1 {
      JoinedCover(check, params, n - 1, i);
    }
  }

  /** Parameters without errors give no errors together. */
  lemma {:induction false} JoinedClean(check: ((string, string)) -> (seq<string>, seq<string>), params: seq<(string, string)>, n: nat)
    requires n <= |params|
    requires forall i | 0 <= i < n :: check(params[i]).0 == []
    ensures Joined(check, params, n).0 == []
    decreases n
  {
    if n > 0 {
      JoinedClean(check, params, n - 1);
    }
  }

  /** The second loop over the first `n` parameters. */
  function ValueChecks(table: seq<(string, Slot)>, params: seq<(string, string)>, n: nat, other: (string, string) -> bool)
    : (seq<string>, seq<string>)
    requires n <= |params|
  {
    Joined(Checker(table, other), params, n)
  }

  /** One more parameter, spelled out. */
  lemma ValueChecksStep(table: seq<(string, Slot)>, params: seq<(string, string)>, n: nat, other: (string, string) -> bool)
    requires n < |params|
    ensures var acc, step := ValueChecks(table, params, n, other), ValueCheck(table, params[n].0, params[n].1, other);
            ValueChecks(table, params, n + 1, other) == (acc.0 + step.0, acc.1 + step.1)
  {
  }

  /** What `validate` returns. */
  function Validation(table: seq<(string, Slot)>, params: seq<(string, string)>, other: (string, string) -> bool)
    : SlotValidationResult
  {
    var req := RequiredChecks(table, params, |table|);
    var val := ValueChecks(table, params, |params|, other);
    SlotValidationResult(req.0 + val.0 == [], req.0 + val.0, req.1 + val.1)
  }

  class SlotValidator {
    var slots: seq<(string, Slot)>

    constructor(slotList: seq<Slot>)
      ensures slots == SlotTable(slotList)
    {
      slots := SlotTable(slotList);
    }

    /** `validate`: parameter values are given as their `str()`; patterns
        other than the detector's own are decided by `other`. */
    method Validate(params: seq<(string, string)>, other: (string, string) -> bool) returns (r: SlotValidationResult)
      ensures r == Validation(slots, params, other)
    {
      var errors, warnings := CheckRequired(params);
      var valueErrors, valueWarnings := CheckValues(params, other);
      errors := errors + valueErrors;
      warnings := warnings + valueWarnings;
      r := SlotValidationResult(|errors| == 0, errors, warnings);
    }

    /** The first loop of `validate`: required slots that were not given. */
    method CheckRequired(params: seq<(string, string)>) returns (errors: seq<string>, warnings: seq<string>)
      ensures (errors, warnings) == RequiredChecks(slots, params, |slots|)
    {
      errors, warnings := [], [];
      var i := 0;
      while i < |slots|
        invariant 0 <= i <= |slots|
        invariant errors == RequiredChecks(slots, params, i).0 && warnings == RequiredChecks(slots, params, i).1
      {
        var (name, slot) := slots[i];
        assert RequiredCheck(name, slot, params) == RequiredCheck(slots[i].0, slots[i].1, params);
        if slot.required && name !in Keys(params) {
          if slot.defaultValue.Some? {
            warnings := warnings + [DefaultMessage(name)];
          } else {
            errors := errors + [MissingMessage(name)];
          }
        }
        i := i + 1;
      }
    }

    /** The second loop of `validate`: each given value against its slot. */
    method CheckValues(params: seq<(string, string)>, other: (string, string) -> bool)
      returns (errors: seq<string>, warnings: seq<string>)
      ensures (errors, warnings) == ValueChecks(slots, params, |params|, other)
    {
      errors, warnings := [], [];
      var j := 0;
      while j < |params|
        invariant 0 <= j <= |params|
        invariant errors == ValueChecks(slots, params, j, other).0 && warnings == ValueChecks(slots, params, j, other).1
      {
        var stepErrors, stepWarnings := CheckValue(params[j].0, params[j].1, other);
        ValueChecksStep(slots, params, j, other);
        errors, warnings := errors + stepErrors, warnings + stepWarnings;
        j := j + 1;
      }
    }

    /** The body of the second loop for one parameter. */
    method CheckValue(name: string, value: string, other: (string, string) -> bool)
      returns (errors: seq<string>, warnings: seq<string>)
      ensures (errors, warnings) == ValueCheck(slots, name, value, other)
    {
      errors, warnings := [], [];
      var found := Get(slots, name);
      if found.None? {
        warnings := [UnknownMessage(name)];
      } else {
        var slot := found.value;
        errors := TypeErrors(name, slot, value) + PatternErrors(name, slot, value, other);
      }
    }
  }

  lemma {:induction false} RequiredChecksSpec(table: seq<(string, Slot)>, params: seq<(string, string)>, n: nat)
    requires n <= |table|
    ensures var c := RequiredChecks(table, params, n);
            (c.0 == [] <==> forall i | 0 <= i < n :: !(table[i].1.required && table[i].1.defaultValue.None? && table[i].0 !in Keys(params)))
    ensures var c := RequiredChecks(table, params, n);
            forall i | 0 <= i < n && table[i].1.required && table[i].0 !in Keys(params) ::
              if table[i].1.defaultValue.None? then MissingMessage(table[i].0) in c.0 else DefaultMessage(table[i].0) in c.1
    decreases n
  {
    if n > 0 {
      RequiredChecksSpec(table, params, n - 1);
    }
  }

  /** A value is accepted by its slot: it passes the type check and the
      custom pattern. */
  predicate Accepted(table: seq<(string, Slot)>, name: string, value: string, other: (string, string) -> bool) {
    Get(table, name).None?
    || (TypeErrors(name, Get(table, name).value, value) == [] && PatternErrors(name, Get(table, name).value, value, other) == [])
  }

  /** One parameter's check: no error exactly when the value is accepted,
      and an unknown name gives the one warning. */
  lemma ValueCheckStep(table: seq<(string, Slot)>, name: string, value: string, other: (string, string) -> bool)
    ensures (ValueCheck(table, name, value, other).0 == []) == Accepted(table, name, value, other)
    ensures name !in Keys(table) ==> ValueCheck(table, name, value, other).1 == [UnknownMessage(name)]
  {
  }

  lemma ValueChecksAccepted(table: seq<(string, Slot)>, params: seq<(string, string)>, n: nat,
                            other: (string, string) -> bool)
    requires n <= |params|
    ensures (ValueChecks(table, params, n, other).0 == [])
         == forall i | 0 <= i < n :: ValueCheck(table, params[i].0, params[i].1, other).0 == []
  {
    var check := Checker(table, other);
    if Joined(check, params, n).0 == [] {
      forall i | 0 <= i < n ensures ValueCheck(table, params[i].0, params[i].1, other).0 == [] {
        JoinedCover(check, params, n, i);
        assert check(params[i]) == ValueCheck(table, params[i].0, params[i].1, other);
      }
    } else if forall i | 0 <= i < n :: ValueCheck(table, params[i].0, params[i].1, other).0 == [] {
      forall i | 0 <= i < n ensures check(params[i]).0 == [] {
        assert check(params[i]) == ValueCheck(table, params[i].0, params[i].1, other);
      }
      JoinedClean(check, params, n);
    }
  }

  lemma ValueChecksUnknown(table: seq<(string, Slot)>, params: seq<(string, string)>, n: nat,
                           other: (string, string) -> bool)
    requires n <= |params|
    ensures forall i | 0 <= i < n && params[i].0 !in Keys(table) :: UnknownMessage(params[i].0) in ValueChecks(table, params, n, other).1
  {
    var check := Checker(table, other);
    forall i | 0 <= i < n && params[i].0 !in Keys(table)
      ensures UnknownMessage(params[i].0) in Joined(check, params, n).1
    {
      ValueCheckStep(table, params[i].0, params[i].1, other);
      assert check(params[i]) == ValueCheck(table, params[i].0, params[i].1, other);
      JoinedCover(check, params, n, i);
    }
  }

  /** `validate` accepts exactly when every required slot without a default
      is given and every value for a known slot passes its checks; a missing
      required slot is an error, or only a warning when it has a default; an
      unknown parameter is a warning. */
  lemma ValidationSpec(table: seq<(string, Slot)>, params: seq<(string, string)>, other: (string, string) -> bool)
    ensures var r := Validation(table, params, other);
            && (r.isValid <==> r.errors == [])
            && (r.isValid <==>
                  && (forall i | 0 <= i < |table| ::
                        table[i].1.required && table[i].1.defaultValue.None? ==> table[i].0 in Keys(params))
                  && (forall i | 0 <= i < |params| :: Accepted(table, params[i].0, params[i].1, other)))
    ensures var r := Validation(table, params, other);
            && (forall i | 0 <= i < |table| && table[i].1.required && table[i].0 !in Keys(params) ::
                  if table[i].1.defaultValue.None? then MissingMessage(table[i].0) in r.errors
                  else DefaultMessage(table[i].0) in r.warnings)
            && (forall i | 0 <= i < |params| && params[i].0 !in Keys(table) :: UnknownMessage(params[i].0) in r.warnings)
  {
    RequiredChecksSpec(table, params, |table|);
    ValueChecksAccepted(table, params, |params|, other);
    ValueChecksUnknown(table, params, |params|, other);
    forall i | 0 <= i < |params|
      ensures (ValueCheck(table, params[i].0, params[i].1, other).0 == []) == Accepted(table, params[i].0, params[i].1, other)
    {
      ValueCheckStep(table, params[i].0, params[i].1, other);
    }
  }

  /** An unknown parameter adds one warning and never an error. */
  lemma UnknownParameter(table: seq<(string, Slot)>, params: seq<(string, string)>, name: string, value: string,
                         other: (string, string) -> bool)
    requires name !in Keys(table)
    ensures Validation(table, params + [(name, value)], other).errors
         == Validation(table, params, other).errors
    ensures Validation(table, params + [(name, value)], other).warnings
         == Validation(table, params, other).warnings + [UnknownMessage(name)]
  {
    var ps := params + [(name, value)];
    assert ps[..|params|] == params;
    assert Keys(ps) == Keys(params) + [name];
    RequiredSame(table, params, ps, name, |table|);
    ValueChecksPrefix(table, params, ps, |params|, other);
  }

  lemma ValueChecksPrefix(table: seq<(string, Slot)>, a: seq<(string, string)>, b: seq<(string, string)>,
                          n: nat, other: (string, string) -> bool)
    requires n <= |a| <= |b| && b[..|a|] == a
    ensures ValueChecks(table, b, n, other) == ValueChecks(table, a, n, other)
  {
    JoinedPrefix(Checker(table, other), a, b, n);
  }

  /** Parameters past the first `n` do not matter. */
  lemma {:induction false} JoinedPrefix(check: ((string, string)) -> (seq<string>, seq<string>), a: seq<(string, string)>,
                                        b: seq<(string, string)>, n: nat)
    requires n <= |a| <= |b| && b[..|a|] == a
    ensures Joined(check, b, n) == Joined(check, a, n)
    decreases n
  {
    if n > 0 {
      JoinedPrefix(check, a, b, n - 1);
      assert b[n - 1] == b[..|a|][n - 1];
    }
  }

  /** The first loop does not see a parameter that names no slot. */
  lemma {:induction false} RequiredSame(table: seq<(string, Slot)>, params: seq<(string, string)>, ps: seq<(string, string)>,
                                        name: string, n: nat)
    requires n <= |table| && name !in Keys(table)
    requires forall k :: k in Keys(ps) <==> k in Keys(params) || k == name
    ensures RequiredChecks(table, ps, n) == RequiredChecks(table, params, n)
    decreases n
  {
    if n > 0 {
      RequiredSame(table, params, ps, name, n - 1);
      assert table[n - 1].0 in Keys(table);
    }
  }
}
