/** The prompt normaliser of the clustering core: strip, line breaks to
    spaces, runs of spaces squeezed, lower case. The uuid generator is the
    parameter `freshId`. */
module PromptNormalization {
  import opened PyStrings

  /** `re.sub(r'\r\n|\r|\n', ' ', s)`: a CRLF pair is one break. */
  function BreaksToSpaces(s: string): (r: string)
    ensures '\r' !in r && '\n' !in r
    ensures |r| <= |s|
    ensures r != [] <==> s != []
    ensures r != [] && s != [] && s[0] != '\r' && s[0] != '\n' ==> r[0] == s[0]
    ensures r != [] && s != [] && s[|s| - 1] != '\r' && s[|s| - 1] != '\n' ==> r[|r| - 1] == s[|s| - 1]
    ensures forall i | 0 <= i < |r| :: r[i] == ' ' || r[i] in s
    decreases |s|
  {
    if s == [] then []
    else if |s| >= 2 && s[0] == '\r' && s[1] == '\n' then " " + BreaksToSpaces(s[2..])
    else if s[0] == '\r' || s[0] == '\n' then " " + BreaksToSpaces(s[1..])
    else [s[0]] + BreaksToSpaces(s[1..])
  }

  /** The text without its leading spaces (only U+0020). */
  function DropSpaces(s: string): (r: string)
    ensures r == [] || r[0] != ' '
    ensures |r| <= |s| && r == s[|s| - |r|..]
    ensures s != [] && s[|s| - 1] != ' ' ==> r != []
    decreases |s|
  {
    if s != [] && s[0] == ' ' then DropSpaces(s[1..]) else s
  }

  /** No two adjacent spaces. */
  predicate NoDoubleSpace(s: string) {
    forall i | 0 <= i < |s| - 1 :: !(s[i] == ' ' && s[i + 1] == ' ')
  }

  /** `re.sub(r' +', ' ', s)`. */
  function SqueezeSpaces(s: string): (r: string)
    ensures NoDoubleSpace(r)
    ensures r != [] <==> s != []
    ensures r != [] ==> r[0] == s[0]
    decreases |s|
  {
    if s == [] then []
    else if s[0] == ' ' then
      var rest := SqueezeSpaces(DropSpaces(s[1..]));
      assert rest != [] ==> rest[0] != ' ';
      " " + rest
    else [s[0]] + SqueezeSpaces(s[1..])
  }

  /** Squeezing keeps a last character that is not a space. */
  lemma {:induction false} SqueezeLast(s: string)
    requires s != [] && s[|s| - 1] != ' '
    ensures var r := SqueezeSpaces(s); r != [] && r[|r| - 1] == s[|s| - 1]
    decreases |s|
  {
    if s[0] == ' ' {
      var d := DropSpaces(s[1..]);
      SqueezeLast(d);
    } else if |s| > 1 {
      SqueezeLast(s[1..]);
    }
  }

  /** Squeezing only drops characters: a character absent from the input
      is absent from the output. */
  lemma {:induction false} SqueezeAbsent(s: string, c: char)
    requires c !in s
    ensures c !in SqueezeSpaces(s)
    decreases |s|
  {
    if s != [] {
      var t := if s[0] == ' ' then DropSpaces(s[1..]) else s[1..];
      assert c !in t by {
        if c in t {
          InSuffix(s, t, c);
        }
      }
      SqueezeAbsent(t, c);
      assert SqueezeSpaces(s) == [s[0]] + SqueezeSpaces(t);
    }
  }

  /** A character of a suffix is a character of the whole. */
  lemma InSuffix(s: string, t: string, c: char)
    requires |t| <= |s| && t == s[|s| - |t|..] && c in t
    ensures c in s
  {
    var k :| 0 <= k < |t| && t[k] == c;
    assert s[|s| - |t| + k] == c;
  }

  /** `normalize_prompt`. The two quote replacements on each line of the
      source map a character to itself. */
  function NormalizePrompt(text: string): string {
    var t := Strip(text);
    var t := BreaksToSpaces(t);
    var t := SqueezeSpaces(t);
    var t := ReplaceAll(ReplaceAll(t, "\"", "\""), "\"", "\"");
    var t := ReplaceAll(ReplaceAll(t, "'", "'"), "'", "'");
    Lower(t)
  }

  /** What the quote replacements leave out. */
  function Squeezed(text: string): string {
    SqueezeSpaces(BreaksToSpaces(Strip(text)))
  }

  /** The quote replacements change nothing, so the result is the
      lower-cased squeezed text. */
  lemma NormalizePromptQuotes(text: string)
    ensures NormalizePrompt(text) == Lower(Squeezed(text))
  {
    var t := Squeezed(text);
    ReplaceSelf(t, "\"");
    ReplaceSelf(t, "'");
  }

  /** The squeezed text keeps the stripped text's first and last
      characters. */
  lemma SqueezedEnds(text: string)
    ensures var s := Squeezed(text);
            s == [] || (!IsSpace(s[0]) && !IsSpace(s[|s| - 1]))
  {
    var t := Strip(text);
    var b := BreaksToSpaces(t);
    var s := SqueezeSpaces(b);
    if s != [] {
      assert IsSpace('\r') && IsSpace('\n') && IsSpace(' ');
      assert b[0] == t[0];
      assert b[|b| - 1] == t[|t| - 1];
      SqueezeLast(b);
    }
  }

  /** The normalised prompt has no whitespace at either end, no line
      breaks, no two adjacent spaces (tabs are kept), and no upper-case
      letter. */
  lemma NormalizePromptSpec(text: string)
    ensures var r := NormalizePrompt(text);
            && (r == [] || (!IsSpace(r[0]) && !IsSpace(r[|r| - 1])))
            && '\r' !in r && '\n' !in r
            && NoDoubleSpace(r)
            && forall i | 0 <= i < |r| :: !IsUpper(r[i])
  {
    var s := Squeezed(text);
    NormalizePromptQuotes(text);
    SqueezedEnds(text);
    var r := Lower(s);
    SqueezeAbsent(BreaksToSpaces(Strip(text)), '\r');
    SqueezeAbsent(BreaksToSpaces(Strip(text)), '\n');
    forall i | 0 <= i < |r| ensures r[i] != '\r' && r[i] != '\n' {
      assert r[i] == LowerChar(s[i]);
    }
    forall i | 0 <= i < |r| - 1 ensures !(r[i] == ' ' && r[i + 1] == ' ') {
      assert r[i] == LowerChar(s[i]) && r[i + 1] == LowerChar(s[i + 1]);
    }
  }

  /** Normalising twice is normalising once. */
  lemma NormalizePromptIdempotent(text: string)
    ensures NormalizePrompt(NormalizePrompt(text)) == NormalizePrompt(text)
  {
    var r := NormalizePrompt(text);
    NormalizePromptSpec(text);
    StripOfStripped(r);
    BreaksFree(r);
    SqueezeFixed(r);
    NormalizePromptQuotes(r);
    LowerLower(r);
  }

  /** A text without line breaks is left as it is. */
  lemma {:induction false} BreaksFree(s: string)
    requires '\r' !in s && '\n' !in s
    ensures BreaksToSpaces(s) == s
    decreases |s|
  {
    if s != [] {
      BreaksFree(s[1..]);
    }
  }

  /** A text without two adjacent spaces has nothing to squeeze. */
  lemma {:induction false} SqueezeFixed(s: string)
    requires NoDoubleSpace(s)
    ensures SqueezeSpaces(s) == s
    decreases |s|
  {
    if s != [] {
      var tail := s[1..];
      assert NoDoubleSpace(tail) by {
        forall i | 0 <= i < |tail| - 1 ensures !(tail[i] == ' ' && tail[i + 1] == ' ') {
          assert tail[i] == s[i + 1] && tail[i + 1] == s[i + 2];
        }
      }
      SqueezeFixed(tail);
      if s[0] == ' ' {
        assert DropSpaces(tail) == tail;
      }
    }
  }

  /** Lower-casing is idempotent. */
  lemma LowerLower(s: string)
    ensures Lower(Lower(s)) == Lower(s)
  {
  }

  /** `normalize_and_id`: the normalised text with a fresh id. */
  function NormalizeAndId(text: string, freshId: string): (r: (string, string))
    ensures r.0 == NormalizePrompt(text) && r.1 == freshId
  {
    (NormalizePrompt(text), freshId)
  }
}
