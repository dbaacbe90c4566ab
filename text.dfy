/**
 * String helpers shared by the backend (Python `str`) and the frontend
 * (JavaScript strings) models. Strings are sequences of Unicode scalar values.
 */
module Text {

  /** `sub in s` for Python strings, `s.includes(sub)` for JavaScript ones. */
  predicate Contains(s: string, sub: string)
    decreases |s|
  {
    sub <= s || (|s| > 0 && Contains(s[1..], sub))
  }

  predicate EndsWith(s: string, suffix: string)
  {
    |suffix| <= |s| && s[|s| - |suffix|..] == suffix
  }

  lemma {:induction false} ContainsAt(s: string, sub: string, i: nat)
    requires i + |sub| <= |s| && s[i..i + |sub|] == sub
    ensures Contains(s, sub)
    decreases i
  {
    if i > 0 {
      assert s[1..][i - 1..i - 1 + |sub|] == s[i..i + |sub|];
      ContainsAt(s[1..], sub, i - 1);
    } else {
      assert sub <= s;
    }
  }

  lemma {:induction false} ContainsWitness(s: string, sub: string) returns (i: nat)
    requires Contains(s, sub)
    ensures i + |sub| <= |s| && s[i..i + |sub|] == sub
    decreases |s|
  {
    if sub <= s {
      i := 0;
    } else {
      var j := ContainsWitness(s[1..], sub);
      assert s[1..][j..j + |sub|] == s[j + 1..j + 1 + |sub|];
      i := j + 1;
    }
  }

  /** A string that occurs in a part of `s` occurs in `s`. */
  lemma ContainsInSuffix(s: string, sub: string, k: nat)
    requires k <= |s| && Contains(s[k..], sub)
    ensures Contains(s, sub)
  {
    var j := ContainsWitness(s[k..], sub);
    assert s[k..][j..j + |sub|] == s[k + j..k + j + |sub|];
    ContainsAt(s, sub, k + j);
  }

  // ---------------------------------------------------------------------
  // Case mapping

  function LowerChar(c: char): char
  {
    if 'A' <= c <= 'Z' then (c as int + 32) as char else c
  }

  /**
   * `str.lower()` / `toLowerCase()` restricted to ASCII letters. Every other
   * character is kept, which is what the lower-casing does to the Hangul
   * and ASCII probes this project looks for (see README).
   */
  function Lower(s: string): (r: string)
    ensures |r| == |s|
    ensures forall i :: 0 <= i < |s| ==> r[i] == LowerChar(s[i])
  {
    seq(|s|, i requires 0 <= i < |s| => LowerChar(s[i]))
  }

  // ---------------------------------------------------------------------
  // Whitespace

  /** Python's `str.isspace()` for one character; also what `\s` matches in a `re` pattern. */
  predicate PyIsSpace(c: char)
  {
    var n := c as int;
    n == 0x20 || (0x09 <= n <= 0x0D) || (0x1C <= n <= 0x1F) || n == 0x85 || n == 0xA0 ||
    n == 0x1680 || (0x2000 <= n <= 0x200A) || n == 0x2028 || n == 0x2029 ||
    n == 0x202F || n == 0x205F || n == 0x3000
  }

  /** ECMAScript WhiteSpace and LineTerminator code points, which `String.prototype.trim` removes. */
  predicate JsIsSpace(c: char)
  {
    var n := c as int;
    n == 0x20 || (0x09 <= n <= 0x0D) || n == 0xA0 ||
    n == 0x1680 || (0x2000 <= n <= 0x200A) || n == 0x2028 || n == 0x2029 ||
    n == 0x202F || n == 0x205F || n == 0x3000 || n == 0xFEFF
  }

  /** Which notion of whitespace a strip uses. */
  datatype Spaces = PySpaces | JsSpaces

  predicate IsSpace(kind: Spaces, c: char)
  {
    match kind
    case PySpaces => PyIsSpace(c)
    case JsSpaces => JsIsSpace(c)
  }

  function DropLeading(s: string, kind: Spaces): (r: string)
    ensures |r| <= |s| && r == s[|s| - |r|..]
    ensures r == [] || !IsSpace(kind, r[0])
    ensures forall i :: 0 <= i < |s| - |r| ==> IsSpace(kind, s[i])
  {
    if s != [] && IsSpace(kind, s[0]) then DropLeading(s[1..], kind) else s
  }

  function DropTrailing(s: string, kind: Spaces): (r: string)
    ensures |r| <= |s| && r == s[..|r|]
    ensures r == [] || !IsSpace(kind, r[|r| - 1])
    ensures forall i :: |r| <= i < |s| ==> IsSpace(kind, s[i])
  {
    if s != [] && IsSpace(kind, s[|s| - 1]) then DropTrailing(s[..|s| - 1], kind) else s
  }

  lemma {:induction false} AllSpaceDropsAll(s: string, kind: Spaces)
    requires forall i :: 0 <= i < |s| ==> IsSpace(kind, s[i])
    ensures DropLeading(s, kind) == []
  {
    if s != [] {
      AllSpaceDropsAll(s[1..], kind);
    }
  }

  /** Strips the whitespace of `kind` from both ends. */
  function StripBy(s: string, kind: Spaces): (r: string)
    ensures r == [] || (!IsSpace(kind, r[0]) && !IsSpace(kind, r[|r| - 1]))
  {
    DropTrailing(DropLeading(s, kind), kind)
  }

  /** A string with nothing to strip at either end is its own stripped form. */
  lemma StripStripped(s: string, kind: Spaces)
    requires s == [] || (!IsSpace(kind, s[0]) && !IsSpace(kind, s[|s| - 1]))
    ensures StripBy(s, kind) == s
  {
  }

  /** Python's `str.strip()` with no argument. */
  function PyStrip(s: string): (r: string)
    ensures r == [] || (!PyIsSpace(r[0]) && !PyIsSpace(r[|r| - 1]))
  {
    StripBy(s, PySpaces)
  }

  /** JavaScript's `String.prototype.trim()`. */
  function JsTrim(s: string): (r: string)
    ensures r == [] || (!JsIsSpace(r[0]) && !JsIsSpace(r[|r| - 1]))
  {
    StripBy(s, JsSpaces)
  }

  predicate IsJsTrimmed(s: string)
  {
    s == [] || (!JsIsSpace(s[0]) && !JsIsSpace(s[|s| - 1]))
  }

  /** Trimming is idempotent. */
  lemma JsTrimIdempotent(s: string)
    ensures JsTrim(JsTrim(s)) == JsTrim(s)
  {
    StripStripped(JsTrim(s), JsSpaces);
  }

  /** A string trims to the empty string exactly when all its characters are whitespace. */
  lemma JsTrimEmpty(s: string)
    ensures JsTrim(s) == [] <==> forall i :: 0 <= i < |s| ==> JsIsSpace(s[i])
  {
    var d := DropLeading(s, JsSpaces);
    if JsTrim(s) == [] {
      assert d == [];
    } else if forall i :: 0 <= i < |s| ==> JsIsSpace(s[i]) {
      AllSpaceDropsAll(s, JsSpaces);
    }
  }

  // ---------------------------------------------------------------------
  // Numbers

  function DigitChar(d: nat): (c: char)
    requires d < 10
    ensures '0' <= c <= '9'
  {
    ('0' as int + d) as char
  }

  predicate AllDigits(s: string)
  {
    forall i :: 0 <= i < |s| ==> '0' <= s[i] <= '9'
  }

  /** Decimal text of a natural number, without leading zeros. */
  function NatToStr(n: nat): (r: string)
    ensures r != [] && AllDigits(r)
    ensures |r| > 1 ==> r[0] != '0'
  {
    if n < 10 then [DigitChar(n)] else NatToStr(n / 10) + [DigitChar(n % 10)]
  }

  function DigitValue(c: char): nat
  {
    if '0' <= c <= '9' then c as int - '0' as int else 0
  }

  /** Reads decimal text back. */
  function ParseNat(s: string): nat
  {
    if s == [] then 0 else ParseNat(s[..|s| - 1]) * 10 + DigitValue(s[|s| - 1])
  }

  /** Decimal text reads back as the number it was made from. */
  lemma {:induction false} NatToStrRoundTrip(n: nat)
    ensures ParseNat(NatToStr(n)) == n
  {
    if n >= 10 {
      var s := NatToStr(n / 10) + [DigitChar(n % 10)];
      assert s[..|s| - 1] == NatToStr(n / 10);
      NatToStrRoundTrip(n / 10);
    }
  }

  /** Python's `str(n)` / `f"{n}"` for an integer. */
  function IntToStr(n: int): (r: string)
    ensures r != []
    ensures forall i :: 0 <= i < |r| ==> r[i] == '-' || '0' <= r[i] <= '9'
  {
    if n < 0 then "-" + NatToStr(-n) else NatToStr(n)
  }

  // ---------------------------------------------------------------------
  // Replacement, splitting, joining

  /** Python's `s.replace(pattern, replacement)`: every non-overlapping occurrence, left to right. */
  function ReplaceAll(s: string, pattern: string, replacement: string): (r: string)
    requires pattern != []
    decreases |s|
  {
    if |s| < |pattern| then s
    else if pattern <= s then replacement + ReplaceAll(s[|pattern|..], pattern, replacement)
    else [s[0]] + ReplaceAll(s[1..], pattern, replacement)
  }

  /** Replacing cannot introduce a character that neither the text nor the replacement holds. */
  lemma {:induction false} ReplaceAllKeepsOut(s: string, pattern: string, replacement: string, c: char)
    requires pattern != [] && c !in s && c !in replacement
    ensures c !in ReplaceAll(s, pattern, replacement)
    decreases |s|
  {
    if |s| < |pattern| {
    } else if pattern <= s {
      ReplaceAllKeepsOut(s[|pattern|..], pattern, replacement, c);
    } else {
      ReplaceAllKeepsOut(s[1..], pattern, replacement, c);
    }
  }

  /** Without an occurrence of the pattern, the text is returned as it is. */
  lemma {:induction false} ReplaceAllAbsent(s: string, pattern: string, replacement: string)
    requires pattern != [] && !Contains(s, pattern)
    ensures ReplaceAll(s, pattern, replacement) == s
    decreases |s|
  {
    if |s| >= |pattern| {
      assert !(pattern <= s);
      ReplaceAllAbsent(s[1..], pattern, replacement);
    }
  }

  /** Joins the parts with `sep` between consecutive ones (`sep.join(parts)`). */
  function JoinWith(parts: seq<string>, sep: char): string
  {
    if parts == [] then ""
    else if |parts| == 1 then parts[0]
    else parts[0] + [sep] + JoinWith(parts[1..], sep)
  }

  /** Splits at every `sep` (`s.split(sep)`); always at least one part. */
  function Split(s: string, sep: char): (r: seq<string>)
    ensures |r| >= 1
  {
    if s == [] then [""]
    else
      var rest := Split(s[1..], sep);
      if s[0] == sep then [""] + rest else [[s[0]] + rest[0]] + rest[1..]
  }

  lemma {:induction false} SplitNoSep(s: string, sep: char)
    requires sep !in s
    ensures Split(s, sep) == [s]
  {
    if s != [] {
      SplitNoSep(s[1..], sep);
      assert [s[0]] + s[1..] == s;
    }
  }

  lemma {:induction false} SplitPrefix(a: string, sep: char, b: string)
    requires sep !in a
    ensures Split(a + [sep] + b, sep) == [a] + Split(b, sep)
  {
    if a == [] {
      assert (a + [sep] + b)[1..] == b;
    } else {
      assert (a + [sep] + b)[1..] == a[1..] + [sep] + b;
      SplitPrefix(a[1..], sep, b);
      assert [a[0]] + a[1..] == a;
    }
  }

  /** Splitting undoes joining when no part holds the separator. */
  lemma {:induction false} SplitJoin(parts: seq<string>, sep: char)
    requires parts != []
    requires forall i :: 0 <= i < |parts| ==> sep !in parts[i]
    ensures Split(JoinWith(parts, sep), sep) == parts
  {
    if |parts| == 1 {
      SplitNoSep(parts[0], sep);
    } else {
      SplitPrefix(parts[0], sep, JoinWith(parts[1..], sep));
      SplitJoin(parts[1..], sep);
    }
  }
}
