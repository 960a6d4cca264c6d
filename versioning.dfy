/** Semantic versions of templates (MAJOR.MINOR.PATCH) and the rules that
    decide how far a template change moves the version. */
module Versioning {
  import opened Wrappers
  import opened PyStrings
  import opened SlotDetection
  import opened TemplateBuilder

  datatype BumpKind = NoBump | Patch | Minor | Major

  /** `TemplateVersion`; the dataclass default is 1.0.0. */
  datatype TemplateVersion = TemplateVersion(major: int, minor: int, patch: int) {
    /** `str(version)`. */
    function ToString(): string {
      IntToString(major) + "." + IntToString(minor) + "." + IntToString(patch)
    }

    /** `bump`. */
    function Bump(kind: BumpKind): TemplateVersion {
      match kind
      case Major => TemplateVersion(major + 1, 0, 0)
      case Minor => TemplateVersion(major, minor + 1, 0)
      case Patch => TemplateVersion(major, minor, patch + 1)
      case NoBump => this
    }

    /** Lexicographic order on (major, minor, patch). */
    predicate Before(other: TemplateVersion) {
      major < other.major
      || (major == other.major && minor < other.minor)
      || (major == other.major && minor == other.minor && patch < other.patch)
    }

    /** The compatibility rule of `get_compatible_versions`: same major,
        and a minor at least the target's. */
    predicate CompatibleWith(target: TemplateVersion) {
      major == target.major && minor >= target.minor
    }
  }

  const DefaultVersion := TemplateVersion(1, 0, 0)

  /** `TemplateVersion.from_string`: missing parts default to 1, 0 and 0;
      extra parts are ignored; a part `int` rejects raises `ValueError`,
      here `None`. */
  function FromString(s: string): Option<TemplateVersion> {
    var parts := Split(s, '.');
    var major := ParseInt(parts[0]);
    var minor := if |parts| > 1 then ParseInt(parts[1]) else Some(0);
    var patch := if |parts| > 2 then ParseInt(parts[2]) else Some(0);
    if major.None? || minor.None? || patch.None? then None
    else Some(TemplateVersion(major.value, minor.value, patch.value))
  }

  lemma NoDotInInt(n: int)
    ensures '.' !in IntToString(n)
  {
    var r := IntToString(n);
    forall i | 0 <= i < |r| ensures r[i] != '.' {
      assert r[i] == '-' || IsDigit(r[i]);
    }
  }

  /** Parsing the printed version gives the version back, for every
      integer component. */
  lemma FromStringOfString(v: TemplateVersion)
    ensures FromString(v.ToString()) == Some(v)
  {
    var a, b, c := IntToString(v.major), IntToString(v.minor), IntToString(v.patch);
    NoDotInInt(v.major);
    NoDotInInt(v.minor);
    NoDotInInt(v.patch);
    SplitAppend(a + "." + b, c, '.');
    SplitAppend(a, b, '.');
    SplitNoSep(a, '.');
    SplitNoSep(b, '.');
    SplitNoSep(c, '.');
    assert v.ToString() == (a + "." + b) + ['.'] + c;
    assert Split(v.ToString(), '.') == [a, b, c];
    ParseIntOfString(v.major);
    ParseIntOfString(v.minor);
    ParseIntOfString(v.patch);
  }

  /** A string without dots is the major number, with the defaults for
      the rest. */
  lemma FromStringMajorOnly(m: int)
    ensures FromString(IntToString(m)) == Some(TemplateVersion(m, 0, 0))
  {
    NoDotInInt(m);
    SplitNoSep(IntToString(m), '.');
    ParseIntOfString(m);
  }

  /** Two parts give the major and minor numbers and the default patch. */
  lemma FromStringNoPatch(m: int, n: int)
    ensures FromString(IntToString(m) + "." + IntToString(n)) == Some(TemplateVersion(m, n, 0))
  {
    var a, b := IntToString(m), IntToString(n);
    NoDotInInt(m);
    NoDotInInt(n);
    SplitNoSep(a, '.');
    SplitNoSep(b, '.');
    SplitAppend(a, b, '.');
    assert Split(a + "." + b, '.') == [a, b];
    ParseIntOfString(m);
    ParseIntOfString(n);
  }

  /** Every bump but NONE moves the version strictly forward; NONE keeps
      it; only MAJOR changes the major number, and only MAJOR leaves the
      old version's compatibility range. */
  lemma BumpSpec(v: TemplateVersion, kind: BumpKind)
    ensures kind == NoBump <==> v.Bump(kind) == v
    ensures kind != NoBump ==> v.Before(v.Bump(kind))
    ensures v.Bump(kind).major != v.major <==> kind == Major
    ensures v.Bump(kind).CompatibleWith(v) <==> kind != Major
  {
  }

  // ---------------------------------------------------------------------
  // compute_version_bump

  /** One entry of `changes`; the set-valued entries are printed with
      Python's set repr, whose order is not modelled. */
  datatype Change =
    | RemovedSlots(names: set<string>)
    | AddedSlots(names: set<string>)
    | TypeChanged(name: string, oldType: SlotType, newType: SlotType)
    | WordingChanged

  datatype VersionBumpResult = VersionBumpResult(
    bumpType: BumpKind,
    oldVersion: TemplateVersion,
    newVersion: TemplateVersion,
    changes: seq<Change>)

  /** `set(s.name for s in slots)`. */
  function NameSet(slots: seq<Slot>): (names: set<string>)
    ensures forall n :: n in names <==> exists i | 0 <= i < |slots| :: slots[i].name == n
  {
    set i | 0 <= i < |slots| :: slots[i].name
  }

  /** The type changes the inner loop finds for `o` among the first `m` new
      slots. */
  function PairChanges(o: Slot, news: seq<Slot>, m: nat): seq<Change>
    requires m <= |news|
    decreases m
  {
    if m == 0 then []
    else
      PairChanges(o, news, m - 1)
      + if o.name == news[m - 1].name && o.slotType != news[m - 1].slotType
        then [TypeChanged(o.name, o.slotType, news[m - 1].slotType)] else []
  }

  /** The type changes the nested loops find for the first `n` old slots. */
  function TypeChanges(olds: seq<Slot>, news: seq<Slot>, n: nat): seq<Change>
    requires n <= |olds|
    decreases n
  {
    if n == 0 then [] else TypeChanges(olds, news, n - 1) + PairChanges(olds[n - 1], news, |news|)
  }

  /** Some slot keeps its name but changes its type. */
  ghost predicate HasTypeChange(olds: seq<Slot>, news: seq<Slot>) {
    exists i, j | 0 <= i < |olds| && 0 <= j < |news| ::
      olds[i].name == news[j].name && olds[i].slotType != news[j].slotType
  }

  /** The bump before the nested loops: removal gives MAJOR, addition MINOR. */
  function SetBump(olds: seq<Slot>, news: seq<Slot>): BumpKind {
    if NameSet(olds) - NameSet(news) != {} then Major
    else if NameSet(news) - NameSet(olds) != {} then Minor
    else NoBump
  }

  /** The changes recorded before the nested loops. */
  function SetChanges(olds: seq<Slot>, news: seq<Slot>): seq<Change> {
    var removed, added := NameSet(olds) - NameSet(news), NameSet(news) - NameSet(olds);
    (if removed != {} then [RemovedSlots(removed)] else [])
    + (if added != {} then [AddedSlots(added)] else [])
  }

  /** What `compute_version_bump` returns. */
  function VersionBump(oldTemplate: CanonicalTemplate, newTemplate: CanonicalTemplate,
                       oldVersion: Option<TemplateVersion>): VersionBumpResult
  {
    var olds, news := oldTemplate.slots, newTemplate.slots;
    var typeChanges := TypeChanges(olds, news, |olds|);
    var kind := if typeChanges != [] then Major else SetBump(olds, news);
    var wording := oldTemplate.text != newTemplate.text && kind == NoBump;
    var finalKind := if wording then Patch else kind;
    var base := oldVersion.GetOr(DefaultVersion);
    VersionBumpResult(finalKind, base, base.Bump(finalKind),
                      SetChanges(olds, news) + typeChanges + if wording then [WordingChanged] else [])
  }

  /** `compute_version_bump`. */
  method ComputeVersionBump(oldTemplate: CanonicalTemplate, newTemplate: CanonicalTemplate,
                            oldVersion: Option<TemplateVersion>) returns (r: VersionBumpResult)
    ensures r == VersionBump(oldTemplate, newTemplate, oldVersion)
  {
    var base := if oldVersion.None? then DefaultVersion else oldVersion.value;
    var olds, news := oldTemplate.slots, newTemplate.slots;
    var bumpType, changes := CheckSetChanges(olds, news);
    bumpType, changes := CheckTypeChanges(olds, news, bumpType, changes);
    if oldTemplate.text != newTemplate.text && bumpType == NoBump {
      bumpType := Patch;
      changes := changes + [WordingChanged];
    }
    r := VersionBumpResult(bumpType, base, base.Bump(bumpType), changes);
  }

  /** The removed and added names of `compute_version_bump`. */
  method CheckSetChanges(olds: seq<Slot>, news: seq<Slot>) returns (bumpType: BumpKind, changes: seq<Change>)
    ensures bumpType == SetBump(olds, news) && changes == SetChanges(olds, news)
  {
    var oldNames, newNames := NameSet(olds), NameSet(news);
    changes := [];
    bumpType := NoBump;
    var removed := oldNames - newNames;
    if removed != {} {
      bumpType := Major;
      changes := changes + [RemovedSlots(removed)];
    }
    var added := newNames - oldNames;
    if added != {} {
      if bumpType != Major {
        bumpType := Minor;
      }
      changes := changes + [AddedSlots(added)];
    }
  }

  /** The nested loops of `compute_version_bump`: every same-named pair
      whose types differ is recorded and makes the bump MAJOR. */
  method CheckTypeChanges(olds: seq<Slot>, news: seq<Slot>, bumpType0: BumpKind, changes0: seq<Change>)
    returns (bumpType: BumpKind, changes: seq<Change>)
    ensures changes == changes0 + TypeChanges(olds, news, |olds|)
    ensures bumpType == if TypeChanges(olds, news, |olds|) != [] then Major else bumpType0
  {
    bumpType, changes := bumpType0, changes0;
    for i := 0 to |olds|
      invariant changes == changes0 + TypeChanges(olds, news, i)
      invariant bumpType == if TypeChanges(olds, news, i) != [] then Major else bumpType0
    {
      var oldSlot := olds[i];
      bumpType, changes := CheckPairs(oldSlot, news, bumpType, changes);
      assert TypeChanges(olds, news, i + 1) == TypeChanges(olds, news, i) + PairChanges(oldSlot, news, |news|);
    }
  }

  /** The inner loop: `oldSlot` against every new slot. */
  method CheckPairs(oldSlot: Slot, news: seq<Slot>, bumpType0: BumpKind, changes0: seq<Change>)
    returns (bumpType: BumpKind, changes: seq<Change>)
    ensures changes == changes0 + PairChanges(oldSlot, news, |news|)
    ensures bumpType == if PairChanges(oldSlot, news, |news|) != [] then Major else bumpType0
  {
    bumpType, changes := bumpType0, changes0;
    for j := 0 to |news|
      invariant changes == changes0 + PairChanges(oldSlot, news, j)
      invariant bumpType == if PairChanges(oldSlot, news, j) != [] then Major else bumpType0
    {
      var newSlot := news[j];
      if oldSlot.name == newSlot.name && oldSlot.slotType != newSlot.slotType {
        bumpType := Major;
        changes := changes + [TypeChanged(oldSlot.name, oldSlot.slotType, newSlot.slotType)];
      }
    }
  }

  lemma {:induction false} PairChangesEmpty(o: Slot, news: seq<Slot>, m: nat)
    requires m <= |news|
    ensures PairChanges(o, news, m) == [] <==>
            forall j | 0 <= j < m :: !(o.name == news[j].name && o.slotType != news[j].slotType)
    decreases m
  {
    if m > 0 {
      PairChangesEmpty(o, news, m - 1);
    }
  }

  /** The nested loops record nothing exactly when no slot changes type. */
  lemma {:induction false} TypeChangesEmpty(olds: seq<Slot>, news: seq<Slot>, n: nat)
    requires n <= |olds|
    ensures TypeChanges(olds, news, n) == [] <==>
            forall i, j | 0 <= i < n && 0 <= j < |news| ::
              !(olds[i].name == news[j].name && olds[i].slotType != news[j].slotType)
    decreases n
  {
    if n > 0 {
      TypeChangesEmpty(olds, news, n - 1);
      PairChangesEmpty(olds[n - 1], news, |news|);
    }
  }

  /** The bump rules: MAJOR exactly when a slot name disappears or a slot
      changes type; MINOR exactly when names are only added; PATCH exactly
      when names and types agree but the wording differs; NONE otherwise.
      The new version is the old one (1.0.0 by default) bumped by that kind,
      and the change is breaking exactly when it is MAJOR. */
  lemma VersionBumpSpec(oldTemplate: CanonicalTemplate, newTemplate: CanonicalTemplate,
                        oldVersion: Option<TemplateVersion>)
    ensures var r := VersionBump(oldTemplate, newTemplate, oldVersion);
            var olds, news := oldTemplate.slots, newTemplate.slots;
            var removed, added := NameSet(olds) - NameSet(news), NameSet(news) - NameSet(olds);
            var typeChange := HasTypeChange(olds, news);
            && (r.bumpType == Major <==> removed != {} || typeChange)
            && (r.bumpType == Minor <==> removed == {} && added != {} && !typeChange)
            && (r.bumpType == Patch <==>
                  removed == {} && added == {} && !typeChange && oldTemplate.text != newTemplate.text)
            && (r.bumpType == NoBump <==>
                  removed == {} && added == {} && !typeChange && oldTemplate.text == newTemplate.text)
            && r.oldVersion == oldVersion.GetOr(TemplateVersion(1, 0, 0))
            && r.newVersion == r.oldVersion.Bump(r.bumpType)
            && (IsBreakingChange(r) <==> r.bumpType == Major)
  {
    TypeChangesEmpty(oldTemplate.slots, newTemplate.slots, |oldTemplate.slots|);
  }

  /** `c` is the change recorded for the slot pair `o`, `nw`. */
  predicate ChangeOf(c: Change, o: Slot, nw: Slot) {
    c == TypeChanged(o.name, o.slotType, nw.slotType) && o.name == nw.name && o.slotType != nw.slotType
  }

  lemma {:induction false} PairChangesSound(o: Slot, news: seq<Slot>, m: nat)
    requires m <= |news|
    ensures forall c | c in PairChanges(o, news, m) :: exists j | 0 <= j < m :: ChangeOf(c, o, news[j])
    decreases m
  {
    if m > 0 {
      PairChangesSound(o, news, m - 1);
    }
  }

  /** Every type change found is a real one, between two same-named slots. */
  lemma {:induction false} TypeChangesSound(olds: seq<Slot>, news: seq<Slot>, n: nat)
    requires n <= |olds|
    ensures forall c | c in TypeChanges(olds, news, n) ::
              exists i, j | 0 <= i < n && 0 <= j < |news| :: ChangeOf(c, olds[i], news[j])
    decreases n
  {
    if n > 0 {
      TypeChangesSound(olds, news, n - 1);
      PairChangesSound(olds[n - 1], news, |news|);
      forall c | c in TypeChanges(olds, news, n)
        ensures exists i, j | 0 <= i < n && 0 <= j < |news| :: ChangeOf(c, olds[i], news[j])
      {
        if c in TypeChanges(olds, news, n - 1) {
          var i, j :| 0 <= i < n - 1 && 0 <= j < |news| && ChangeOf(c, olds[i], news[j]);
        } else {
          assert c in PairChanges(olds[n - 1], news, |news|);
          var j :| 0 <= j < |news| && ChangeOf(c, olds[n - 1], news[j]);
        }
      }
    }
  }

  /** `is_breaking_change`. */
  predicate IsBreakingChange(r: VersionBumpResult) {
    r.bumpType == Major
  }

  // ---------------------------------------------------------------------
  // get_compatible_versions

  /** The compatible versions among the first `n`, in their order. */
  function Compatible(versions: seq<TemplateVersion>, target: TemplateVersion, n: nat): seq<TemplateVersion>
    requires n <= |versions|
    decreases n
  {
    if n == 0 then []
    else Compatible(versions, target, n - 1) + if versions[n - 1].CompatibleWith(target) then [versions[n - 1]] else []
  }

  /** `get_compatible_versions`. */
  method GetCompatibleVersions(versions: seq<TemplateVersion>, target: TemplateVersion)
    returns (compatible: seq<TemplateVersion>)
    ensures compatible == Compatible(versions, target, |versions|)
  {
    compatible := [];
    for i := 0 to |versions|
      invariant compatible == Compatible(versions, target, i)
    {
      var version := versions[i];
      if version.major == target.major {
        if version.minor >= target.minor {
          compatible := compatible + [version];
        }
      }
    }
  }

  /** Exactly the compatible versions are kept. */
  lemma {:induction false} CompatibleMembers(versions: seq<TemplateVersion>, target: TemplateVersion, n: nat)
    requires n <= |versions|
    ensures forall v :: v in Compatible(versions, target, n) <==> v in versions[..n] && v.CompatibleWith(target)
    decreases n
  {
    if n > 0 {
      CompatibleMembers(versions, target, n - 1);
      assert versions[..n] == versions[..n - 1] + [versions[n - 1]];
    }
  }

  /** `idx` picks the elements of `c` out of `versions[..n]` at increasing
      indices. */
  ghost predicate Picks(c: seq<TemplateVersion>, versions: seq<TemplateVersion>, n: nat, idx: seq<nat>) {
    && |idx| == |c|
    && (forall k | 0 <= k < |idx| :: idx[k] < n <= |versions| && versions[idx[k]] == c[k])
    && (forall k, l | 0 <= k < l < |idx| :: idx[k] < idx[l])
  }

  /** The kept versions keep their original order. */
  lemma {:induction false} CompatibleOrder(versions: seq<TemplateVersion>, target: TemplateVersion, n: nat)
    returns (idx: seq<nat>)
    requires n <= |versions|
    ensures Picks(Compatible(versions, target, n), versions, n, idx)
    decreases n
  {
    if n == 0 {
      idx := [];
    } else {
      idx := CompatibleOrder(versions, target, n - 1);
      if versions[n - 1].CompatibleWith(target) {
        idx := idx + [n - 1];
      }
    }
  }

  /** Each compatible version is kept as often as it occurs. */
  lemma {:induction false} CompatibleCounts(versions: seq<TemplateVersion>, target: TemplateVersion, n: nat)
    requires n <= |versions|
    ensures forall v: TemplateVersion | v.CompatibleWith(target) ::
              multiset(Compatible(versions, target, n))[v] == multiset(versions[..n])[v]
    decreases n
  {
    if n > 0 {
      CompatibleCounts(versions, target, n - 1);
      assert versions[..n] == versions[..n - 1] + [versions[n - 1]];
    }
  }
}
