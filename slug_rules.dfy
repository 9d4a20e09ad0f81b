/** The string steps of the slug derivation shared by `generateSlug`
    (admin-projects) and `generateTechnologySlug` (technologies): each function
    is one call of the `toLowerCase().normalize("NFD").replace(...)...` chain. */
module SlugRules {
  import opened Strings

  /** A character the slug rule `/^[a-z0-9-]+$/` admits. */
  predicate IsSlugChar(c: char) {
    ('a' <= c <= 'z') || ('0' <= c <= '9') || c == '-'
  }

  /** No two hyphens in a row. */
  predicate NoDoubleHyphen(s: string) {
    forall i :: 0 <= i < |s| - 1 ==> !(s[i] == '-' && s[i + 1] == '-')
  }

  /** What a derived slug looks like: only `[a-z0-9-]` and never `--`. */
  predicate IsSlugText(s: string) {
    (forall i :: 0 <= i < |s| ==> IsSlugChar(s[i])) && NoDoubleHyphen(s)
  }

  /** Base letters of the precomposed letters U+00E0 to U+00FF (`_`: the code point
      has no canonical decomposition), and the combining mark each one carries. */
  const LatinBases: string := "aaaaaa_ceeeeiiii_nooooo__uuuuy_y"
  const LatinMarks: seq<int> := [
    0x300, 0x301, 0x302, 0x303, 0x308, 0x30A, 0, 0x327,
    0x300, 0x301, 0x302, 0x308, 0x300, 0x301, 0x302, 0x308,
    0, 0x303, 0x300, 0x301, 0x302, 0x303, 0x308, 0,
    0, 0x300, 0x301, 0x302, 0x308, 0x301, 0, 0x308]

  /** Canonical decomposition (`normalize("NFD")`) of one code point, for the
      precomposed letters of the Latin-1 Supplement: the base letter followed by its
      combining mark. Every other code point is its own decomposition. */
  function DecomposeChar(c: char): (r: seq<char>)
    ensures c as int < 0x80 ==> r == [c]
  {
    if 0xE0 <= c as int <= 0xFF && LatinBases[c as int - 0xE0] != '_' then
      [LatinBases[c as int - 0xE0], LatinMarks[c as int - 0xE0] as char]
    else if 0xC0 <= c as int <= 0xDE && LatinBases[c as int - 0xC0] != '_' then
      [(LatinBases[c as int - 0xC0] as int - 32) as char, LatinMarks[c as int - 0xC0] as char]
    else
      [c]
  }

  /** `s.normalize("NFD")` for the code points `DecomposeChar` covers. */
  function Decompose(s: string): (r: string)
    ensures (forall i :: 0 <= i < |s| ==> s[i] as int < 0x80) ==> r == s
  {
    if s == [] then [] else DecomposeChar(s[0]) + Decompose(s[1..])
  }

  /** The combining diacritical marks U+0300 to U+036F. */
  predicate IsCombiningMark(c: char) {
    '\U{0300}' <= c <= '\U{036F}'
  }

  /** `s.replace(/[̀-ͯ]/g, "")`. */
  function RemoveMarks(s: string): (r: string)
    ensures (forall i :: 0 <= i < |s| ==> !IsCombiningMark(s[i])) ==> r == s
  {
    if s == [] then []
    else if IsCombiningMark(s[0]) then RemoveMarks(s[1..])
    else [s[0]] + RemoveMarks(s[1..])
  }

  /** The characters the class `[a-z0-9\s-]` admits. */
  predicate IsKeptChar(c: char) {
    IsSlugChar(c) || IsWhitespace(c)
  }

  /** `s.replace(/[^a-z0-9\s-]/g, "")`. */
  function KeepSlugChars(s: string): (r: string)
    ensures forall i :: 0 <= i < |r| ==> IsKeptChar(r[i])
    ensures (forall i :: 0 <= i < |s| ==> IsKeptChar(s[i])) ==> r == s
  {
    if s == [] then []
    else if IsKeptChar(s[0]) then [s[0]] + KeepSlugChars(s[1..])
    else KeepSlugChars(s[1..])
  }

  /** `s.replace(/\s+/g, "-")`: every maximal run of whitespace becomes one hyphen. */
  function HyphenateWhitespace(s: string): (r: string)
    ensures forall i :: 0 <= i < |r| ==> !IsWhitespace(r[i]) && (r[i] == '-' || r[i] in s)
    ensures (forall i :: 0 <= i < |s| ==> !IsWhitespace(s[i])) ==> r == s
    decreases |s|
  {
    if s == [] then []
    else if IsWhitespace(s[0]) then
      var rest := TrimStart(s);
      SuffixChars(s, rest);
      var tail := HyphenateWhitespace(rest);
      ConsHyphenated('-', tail, rest, s);
      "-" + tail
    else
      SuffixChars(s, s[1..]);
      NoWhitespaceTail(s);
      var tail := HyphenateWhitespace(s[1..]);
      ConsHyphenated(s[0], tail, s[1..], s);
      [s[0]] + tail
  }

  lemma ConsHyphenated(c: char, t: string, sub: string, s: string)
    requires !IsWhitespace(c) && (c == '-' || c in s)
    requires forall i :: 0 <= i < |t| ==> !IsWhitespace(t[i]) && (t[i] == '-' || t[i] in sub)
    requires forall x :: x in sub ==> x in s
    ensures forall i :: 0 <= i < |[c] + t| ==>
      !IsWhitespace(([c] + t)[i]) && (([c] + t)[i] == '-' || ([c] + t)[i] in s)
  {
    var r := [c] + t;
    forall i | 0 <= i < |r| ensures !IsWhitespace(r[i]) && (r[i] == '-' || r[i] in s) {
      if i > 0 {
        assert r[i] == t[i - 1];
      }
    }
  }

  lemma NoWhitespaceTail(s: string)
    requires s != []
    ensures (forall i :: 0 <= i < |s| ==> !IsWhitespace(s[i])) ==>
      forall i :: 0 <= i < |s[1..]| ==> !IsWhitespace(s[1..][i])
  {
  }

  /** `s` without its leading hyphens. */
  function DropHyphens(s: string): (r: string)
    ensures |r| <= |s| && r == s[|s| - |r|..]
    ensures r == [] || r[0] != '-'
    ensures s != [] && s[0] == '-' ==> |r| < |s|
    ensures |s| >= 2 && s[0] == '-' && s[1] != '-' ==> r == s[1..]
  {
    if s != [] && s[0] == '-' then DropHyphens(s[1..]) else s
  }

  /** `s.replace(/-+/g, "-")`: every maximal run of hyphens becomes one hyphen. */
  function CollapseHyphens(s: string): (r: string)
    ensures NoDoubleHyphen(r)
    ensures s != [] ==> r != [] && r[0] == s[0]
    ensures forall i :: 0 <= i < |r| ==> r[i] in s
    ensures NoDoubleHyphen(s) ==> r == s
    decreases |s|
  {
    if s == [] then []
    else if s[0] == '-' then
      var rest := DropHyphens(s);
      SuffixChars(s, rest);
      SingleHyphenRun(s);
      var tail := CollapseHyphens(rest);
      ConsNoDoubleHyphen('-', tail);
      "-" + tail
    else
      SuffixChars(s, s[1..]);
      NoDoubleHyphenTail(s);
      var tail := CollapseHyphens(s[1..]);
      ConsNoDoubleHyphen(s[0], tail);
      [s[0]] + tail
  }

  lemma NoDoubleHyphenTail(s: string)
    requires s != []
    ensures NoDoubleHyphen(s) ==> NoDoubleHyphen(s[1..])
  {
    if NoDoubleHyphen(s) {
      forall i | 0 <= i < |s| - 2 ensures !(s[1..][i] == '-' && s[1..][i + 1] == '-') {
        assert !(s[i + 1] == '-' && s[i + 2] == '-');
      }
    }
  }

  /** In a string without `--`, a leading hyphen is a run of one. */
  lemma SingleHyphenRun(s: string)
    requires s != [] && s[0] == '-'
    ensures NoDoubleHyphen(s) ==> DropHyphens(s) == s[1..] && NoDoubleHyphen(s[1..])
  {
    NoDoubleHyphenTail(s);
    if NoDoubleHyphen(s) && |s| >= 2 {
      assert !(s[0] == '-' && s[1] == '-');
    }
  }

  lemma ConsNoDoubleHyphen(c: char, t: string)
    requires NoDoubleHyphen(t) && (t == [] || c != '-' || t[0] != '-')
    ensures NoDoubleHyphen([c] + t)
  {
    var s := [c] + t;
    forall i | 0 <= i < |s| - 1 ensures !(s[i] == '-' && s[i + 1] == '-') {
      if i > 0 {
        assert s[i] == t[i - 1] && s[i + 1] == t[i];
      }
    }
  }

  lemma SuffixChars(s: string, r: string)
    requires |r| <= |s| && r == s[|s| - |r|..]
    ensures forall c :: c in r ==> c in s
  {
    forall c | c in r ensures c in s {
      var i :| 0 <= i < |r| && r[i] == c;
      assert s[|s| - |r| + i] == c;
    }
  }

  /** Every character of `Trim(s)` is a character of `s`. */
  lemma TrimChars(s: string)
    ensures forall c :: c in Trim(s) ==> c in s
  {
    var a := TrimStart(s);
    SuffixChars(s, a);
    var b := TrimEnd(a);
    forall c | c in b ensures c in a {
      var i :| 0 <= i < |b| && b[i] == c;
      assert a[i] == c;
    }
  }
}
