/** Ingestion-side text normalisation, the content hash built on it, and
    the metadata picked out of a raw record. The SHA-256 hex digest is the
    parameter `sha256`. */
module Normalizer {
  import opened PyStrings

  /** Every whitespace character is a plain space and no two whitespace
      characters are adjacent. */
  predicate SingleSpaced(s: string) {
    && (forall i | 0 <= i < |s| :: IsSpace(s[i]) ==> s[i] == ' ')
    && (forall i | 0 <= i < |s| - 1 :: !(IsSpace(s[i]) && IsSpace(s[i + 1])))
  }

  /** Single-spaced, with no whitespace at either end. */
  predicate Normalized(s: string) {
    SingleSpaced(s) && (s == [] || (!IsSpace(s[0]) && !IsSpace(s[|s| - 1])))
  }

  /** `re.sub(r'\s+', ' ', s)`. */
  function CollapseWs(s: string): (r: string)
    ensures SingleSpaced(r)
    ensures r != [] <==> s != []
    ensures r != [] ==> (IsSpace(r[0]) <==> IsSpace(s[0]))
    decreases |s|
  {
    if s == [] then []
    else if IsSpace(s[0]) then
      var rest := CollapseWs(LStrip(s[1..]));
      assert rest != [] ==> !IsSpace(rest[0]);
      " " + rest
    else
      var rest := CollapseWs(s[1..]);
      [s[0]] + rest
  }

  /** `normalize_text`. */
  function NormalizeText(text: string): string {
    var t := Strip(CollapseWs(text));
    var t' := ReplaceAll(t, "\r\n", "\n");
    ReplaceAll(t', "\r", "\n")
  }

  /** An occurrence of `p` holds `p`'s first character. */
  lemma {:induction false} ContainsHead(s: string, p: string)
    requires p != [] && Contains(s, p)
    ensures p[0] in s
    decreases |s|
  {
    if !StartsWith(s, p) {
      ContainsHead(s[1..], p);
    } else {
      assert s[0] == p[0];
    }
  }

  /** `str.strip()` keeps a contiguous part of its input. */
  lemma StripIsSlice(s: string)
    ensures var k := |s| - |LStrip(s)|;
            k + |Strip(s)| <= |s| && Strip(s) == s[k..k + |Strip(s)|]
  {
  }

  lemma SliceSingleSpaced(s: string, a: nat, b: nat)
    requires a <= b <= |s| && SingleSpaced(s)
    ensures SingleSpaced(s[a..b])
  {
    var t := s[a..b];
    forall i | 0 <= i < |t| - 1 ensures !(IsSpace(t[i]) && IsSpace(t[i + 1])) {
      assert t[i] == s[a + i] && t[i + 1] == s[a + i + 1];
    }
  }

  /** The output is normalized, and the carriage-return rewrites never
      fire: collapsing whitespace already turned every `\r` and `\n` into a
      space. */
  lemma NormalizeTextSpec(text: string)
    ensures Normalized(NormalizeText(text))
    ensures NormalizeText(text) == Strip(CollapseWs(text))
  {
    var c := CollapseWs(text);
    var t := Strip(c);
    StripIsSlice(c);
    SliceSingleSpaced(c, |c| - |LStrip(c)|, |c| - |LStrip(c)| + |t|);
    assert IsSpace('\r');
    assert '\r' !in t;
    if Contains(t, "\r\n") {
      ContainsHead(t, "\r\n");
    }
    ReplaceAbsent(t, "\r\n", "\n");
    if Contains(t, "\r") {
      ContainsHead(t, "\r");
    }
    ReplaceAbsent(t, "\r", "\n");
  }

  lemma SingleSpacedTail(s: string)
    requires s != [] && SingleSpaced(s)
    ensures SingleSpaced(s[1..])
    ensures IsSpace(s[0]) && |s| > 1 ==> !IsSpace(s[1])
  {
    var tail := s[1..];
    forall i | 0 <= i < |tail| - 1 ensures !(IsSpace(tail[i]) && IsSpace(tail[i + 1])) {
      assert tail[i] == s[i + 1] && tail[i + 1] == s[i + 2];
    }
  }

  /** A single-spaced text has nothing to collapse. */
  lemma {:induction false} CollapseSingleSpaced(s: string)
    requires SingleSpaced(s)
    ensures CollapseWs(s) == s
    decreases |s|
  {
    if s != [] {
      var tail := s[1..];
      SingleSpacedTail(s);
      CollapseSingleSpaced(tail);
      if IsSpace(s[0]) {
        assert LStrip(tail) == tail;
        assert CollapseWs(s) == " " + tail;
      } else {
        assert CollapseWs(s) == [s[0]] + tail;
      }
    }
  }

  /** `normalize_text` changes nothing in a normalized text, so it is
      idempotent. */
  lemma NormalizeTextIdempotent(text: string)
    ensures Normalized(text) ==> NormalizeText(text) == text
    ensures NormalizeText(NormalizeText(text)) == NormalizeText(text)
  {
    forall s | Normalized(s) ensures NormalizeText(s) == s {
      NormalizeTextSpec(s);
      CollapseSingleSpaced(s);
      StripOfStripped(s);
    }
    NormalizeTextSpec(text);
  }

  /** `compute_hash`. */
  function ComputeHash(text: string, sha256: string -> string): string {
    sha256(NormalizeText(text))
  }

  /** Texts that differ only in whitespace hash alike: a text hashes as its
      normalized form does. */
  lemma ComputeHashNormalized(text: string, sha256: string -> string)
    ensures ComputeHash(text, sha256) == ComputeHash(NormalizeText(text), sha256)
  {
    NormalizeTextIdempotent(text);
  }

  // ---------------------------------------------------------------------
  // extract_metadata

  /** A JSON-like value of a raw record; a container is represented by its
      length, which is all its truth value depends on. */
  datatype Value = Null | Bool(b: bool) | Num(n: int) | Str(s: string) | Container(length: nat)

  /** Python truthiness. */
  predicate Truthy(v: Value) {
    match v
    case Null => false
    case Bool(b) => b
    case Num(n) => n != 0
    case Str(s) => s != ""
    case Container(n) => n > 0
  }

  /** `data.get(key)`: the first entry of the key, or None. */
  function Lookup(data: seq<(string, Value)>, key: string): (v: Value)
    ensures v != Null ==> exists i | 0 <= i < |data| :: data[i] == (key, v)
    decreases |data|
  {
    if data == [] then Null else if data[0].0 == key then data[0].1 else Lookup(data[1..], key)
  }

  /** Python `a or b`. */
  function Or(a: Value, b: Value): Value {
    if Truthy(a) then a else b
  }

  /** The keys of the metadata, in the order the dict literal lists them. */
  const MetadataKeys: seq<string> := ["source", "timestamp", "user_id", "model", "original_file"]

  /** The dict literal before None values are dropped. */
  function MetadataCandidates(source: string, data: seq<(string, Value)>): (m: seq<(string, Value)>)
    ensures |m| == 5 && forall i | 0 <= i < 5 :: m[i].0 == MetadataKeys[i]
  {
    [("source", Str(source)),
     ("timestamp", Or(Lookup(data, "timestamp"), Lookup(data, "created_at"))),
     ("user_id", Or(Lookup(data, "user_id"), Lookup(data, "user"))),
     ("model", Lookup(data, "model")),
     ("original_file", Or(Lookup(data, "file_path"), Lookup(data, "file")))]
  }

  /** The entries whose value is not None, in order. */
  function DropNone(m: seq<(string, Value)>): (r: seq<(string, Value)>)
    ensures forall x :: x in r <==> x in m && x.1 != Null
    decreases |m|
  {
    if m == [] then []
    else (if m[0].1 != Null then [m[0]] else []) + DropNone(m[1..])
  }

  /** `extract_metadata`. */
  function ExtractMetadata(source: string, data: seq<(string, Value)>): (r: seq<(string, Value)>)
    ensures r != [] && r[0] == ("source", Str(source))
    ensures forall x | x in r :: x.1 != Null && x.0 in MetadataKeys
  {
    var m := MetadataCandidates(source, data);
    assert m == [m[0]] + m[1..];
    DropNone(m)
  }

  /** The `i`-th field of the metadata is present, with value `v`, exactly
      when the dict literal gives it `v` and `v` is not None. */
  lemma MetadataField(source: string, data: seq<(string, Value)>, i: nat, v: Value)
    requires i < 5
    ensures (MetadataKeys[i], v) in ExtractMetadata(source, data)
        <==> v != Null && v == MetadataCandidates(source, data)[i].1
  {
    var m := MetadataCandidates(source, data);
    if (MetadataKeys[i], v) in m {
      var j :| 0 <= j < 5 && m[j] == (MetadataKeys[i], v);
      assert j == i;
    }
  }

  /** `timestamp` falls back to `created_at` when it is falsy, and the field
      is left out when the fallback is None. */
  lemma TimestampField(source: string, data: seq<(string, Value)>, v: Value)
    ensures var ts := Lookup(data, "timestamp");
            (("timestamp", v) in ExtractMetadata(source, data)
             <==> v != Null && v == if Truthy(ts) then ts else Lookup(data, "created_at"))
  {
    MetadataField(source, data, 1, v);
  }

  /** `user_id` falls back to `user` when it is falsy. */
  lemma UserIdField(source: string, data: seq<(string, Value)>, v: Value)
    ensures var uid := Lookup(data, "user_id");
            (("user_id", v) in ExtractMetadata(source, data)
             <==> v != Null && v == if Truthy(uid) then uid else Lookup(data, "user"))
  {
    MetadataField(source, data, 2, v);
  }

  /** `model` is copied when it is not None. */
  lemma ModelField(source: string, data: seq<(string, Value)>, v: Value)
    ensures ("model", v) in ExtractMetadata(source, data) <==> v != Null && v == Lookup(data, "model")
  {
    MetadataField(source, data, 3, v);
  }

  /** `original_file` comes from `file_path`, or `file` when that is falsy. */
  lemma OriginalFileField(source: string, data: seq<(string, Value)>, v: Value)
    ensures var fp := Lookup(data, "file_path");
            (("original_file", v) in ExtractMetadata(source, data)
             <==> v != Null && v == if Truthy(fp) then fp else Lookup(data, "file"))
  {
    MetadataField(source, data, 4, v);
  }
}
