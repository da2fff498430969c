/**
 * String helpers that stand for the Kotlin standard-library calls the app
 * makes: trim(), lines(), split(), startsWith/contains with ignoreCase,
 * lastIndexOf and decimal formatting of an Int inside a string template.
 * Strings are sequences of Unicode scalar values.
 */
module Text {

  /** Kotlin's Char.isWhitespace() on the JVM: Character.isWhitespace or Character.isSpaceChar. */
  predicate IsWhitespace(c: char) {
    var n := c as int;
    (0x09 <= n <= 0x0D) || (0x1C <= n <= 0x20)
    || n == 0xA0 || n == 0x1680 || (0x2000 <= n <= 0x200A)
    || n == 0x2028 || n == 0x2029 || n == 0x202F || n == 0x205F || n == 0x3000
  }

  function TrimStart(s: string): string {
    if |s| > 0 && IsWhitespace(s[0]) then TrimStart(s[1..]) else s
  }

  function TrimEnd(s: string): string {
    if |s| > 0 && IsWhitespace(s[|s| - 1]) then TrimEnd(s[..|s| - 1]) else s
  }

  /** Kotlin String.trim(): leading and trailing whitespace removed. */
  function Trim(s: string): string {
    TrimEnd(TrimStart(s))
  }

  /** TrimStart drops a whitespace prefix and stops at the first other character. */
  lemma {:induction false} TrimStartShape(s: string)
    ensures var r := TrimStart(s);
            |r| <= |s| && r == s[|s| - |r|..] && (r == [] || !IsWhitespace(r[0]))
            && forall k :: 0 <= k < |s| - |r| ==> IsWhitespace(s[k])
  {
    if |s| > 0 && IsWhitespace(s[0]) {
      TrimStartShape(s[1..]);
    }
  }

  /** TrimEnd drops a whitespace suffix and stops at the last other character. */
  lemma {:induction false} TrimEndShape(s: string)
    ensures var r := TrimEnd(s);
            |r| <= |s| && r == s[..|r|] && (r == [] || !IsWhitespace(r[|r| - 1]))
            && forall k :: |r| <= k < |s| ==> IsWhitespace(s[k])
  {
    if |s| > 0 && IsWhitespace(s[|s| - 1]) {
      TrimEndShape(s[..|s| - 1]);
    }
  }

  /** Trimming only removes characters: what is left all occurs in s. */
  lemma TrimCharacters(s: string)
    ensures forall c :: c in Trim(s) ==> c in s
  {
    TrimStartShape(s);
    var t := TrimStart(s);
    TrimEndShape(t);
    forall c | c in Trim(s) ensures c in s {
      var k :| 0 <= k < |Trim(s)| && Trim(s)[k] == c;
      assert t[k] == c;
      assert s[|s| - |t| + k] == c;
    }
  }

  predicate StartsWith(s: string, prefix: string) {
    |prefix| <= |s| && s[..|prefix|] == prefix
  }

  /** ASCII lower-casing of one character. */
  function AsciiLower(c: char): char {
    if 'A' <= c <= 'Z' then (c as int + 32) as char else c
  }

  function AsciiLowerString(s: string): (r: string)
    ensures |r| == |s|
    ensures forall k :: 0 <= k < |s| ==> r[k] == AsciiLower(s[k])
  {
    seq(|s|, k requires 0 <= k < |s| => AsciiLower(s[k]))
  }

  /**
   * Lower-casing leaves no 'A'..'Z', moves each capital to its small letter,
   * keeps every other character, and turns a case-blind prefix test into a
   * plain one on the lower-cased texts.
   */
  lemma AsciiLowerStringMeaning(s: string, prefix: string)
    ensures var r := AsciiLowerString(s);
            && |r| == |s|
            && (forall k :: 0 <= k < |r| ==> !('A' <= r[k] <= 'Z'))
            && (forall k :: 0 <= k < |s| && 'A' <= s[k] <= 'Z' ==> r[k] as int == s[k] as int + 32)
            && (forall k :: 0 <= k < |s| && !('A' <= s[k] <= 'Z') ==> r[k] == s[k])
    ensures StartsWithIgnoreCase(s, prefix) <==> StartsWith(AsciiLowerString(s), AsciiLowerString(prefix))
  {
    var r, q := AsciiLowerString(s), AsciiLowerString(prefix);
    if StartsWith(r, q) {
      forall k | 0 <= k < |prefix| ensures AsciiLower(s[k]) == AsciiLower(prefix[k]) {
        assert r[..|q|][k] == q[k];
      }
    }
    if StartsWithIgnoreCase(s, prefix) {
      assert r[..|q|] == q;
    }
  }

  /** startsWith(prefix, ignoreCase = true), with an ASCII case fold. */
  predicate StartsWithIgnoreCase(s: string, prefix: string) {
    |prefix| <= |s| && forall k :: 0 <= k < |prefix| ==> AsciiLower(s[k]) == AsciiLower(prefix[k])
  }

  /** contains(other): some position of s starts an occurrence of t. */
  predicate Contains(s: string, t: string)
    decreases |s|
  {
    StartsWith(s, t) || (|s| > 0 && Contains(s[1..], t))
  }

  /** contains(other, ignoreCase = true), with an ASCII case fold. */
  predicate ContainsIgnoreCase(s: string, t: string)
    decreases |s|
  {
    StartsWithIgnoreCase(s, t) || (|s| > 0 && ContainsIgnoreCase(s[1..], t))
  }

  /** t occurs in s starting at position p. */
  predicate OccursAt(s: string, t: string, p: nat) {
    p + |t| <= |s| && s[p..p + |t|] == t
  }

  /** contains(t) holds exactly when t occurs at some position of s. */
  lemma {:induction false} ContainsIffOccurs(s: string, t: string)
    ensures Contains(s, t) <==> exists p: nat :: OccursAt(s, t, p)
    decreases |s|
  {
    if |s| > 0 {
      ContainsIffOccurs(s[1..], t);
    }
    if Contains(s, t) {
      if StartsWith(s, t) {
        assert OccursAt(s, t, 0);
      } else {
        var q: nat :| OccursAt(s[1..], t, q);
        assert s[q + 1..q + 1 + |t|] == s[1..][q..q + |t|];
        assert OccursAt(s, t, q + 1);
      }
    }
    if exists p: nat :: OccursAt(s, t, p) {
      var p: nat :| OccursAt(s, t, p);
      if p == 0 {
        assert StartsWith(s, t);
      } else {
        assert s[1..][p - 1..p - 1 + |t|] == s[p..p + |t|];
        assert OccursAt(s[1..], t, p - 1);
      }
    }
  }

  lemma {:induction false} EverythingContainsEmpty(s: string)
    ensures Contains(s, "") && ContainsIgnoreCase(s, "")
  {
  }

  /** lastIndexOf(c): the largest index holding c, or -1. */
  function LastIndexOf(s: string, c: char): (r: int)
    ensures -1 <= r < |s|
    ensures r >= 0 ==> s[r] == c
    ensures forall k :: r < k < |s| ==> s[k] != c
  {
    if |s| == 0 then -1
    else if s[|s| - 1] == c then |s| - 1
    else LastIndexOf(s[..|s| - 1], c)
  }

  /**
   * split(d) with a one-character delimiter and no limit: every occurrence
   * of d separates two parts, empty parts included, so there is always at
   * least one part.
   */
  function Split(s: string, d: char): (r: seq<string>)
    ensures |r| >= 1
    ensures forall k :: 0 <= k < |r| ==> d !in r[k]
    decreases |s|
  {
    if |s| == 0 then [""]
    else if s[0] == d then [""] + Split(s[1..], d)
    else
      var rest := Split(s[1..], d);
      [[s[0]] + rest[0]] + rest[1..]
  }

  /**
   * The first part is the text up to the first d (all of it when there is
   * none), and a text without d is its own only part.
   */
  lemma {:induction false} SplitHead(s: string, d: char)
    ensures StartsWith(s, Split(s, d)[0])
    ensures |Split(s, d)[0]| == |s| || s[|Split(s, d)[0]|] == d
    ensures d !in s ==> Split(s, d) == [s]
    decreases |s|
  {
    if |s| > 0 && s[0] != d {
      SplitHead(s[1..], d);
      var rest := Split(s[1..], d);
      var h := [s[0]] + rest[0];
      assert Split(s, d)[0] == h;
      assert s == [s[0]] + s[1..];
      assert s[..|h|] == [s[0]] + s[1..][..|rest[0]|];
      if |rest[0]| < |s[1..]| {
        assert s[|h|] == s[1..][|rest[0]|];
      }
      if d !in s {
        assert d !in s[1..];
      }
    }
  }

  /** A delimiter-free text before the first delimiter is the first part; the rest splits on its own. */
  lemma {:induction false} SplitAfterPart(a: string, rest: string, d: char)
    requires d !in a
    ensures Split(a + [d] + rest, d) == [a] + Split(rest, d)
    decreases |a|
  {
    var s := a + [d] + rest;
    if |a| == 0 {
      assert s == [d] + rest;
      assert s[1..] == rest;
    } else {
      SplitAfterPart(a[1..], rest, d);
      assert s[1..] == a[1..] + [d] + rest;
      assert [a[0]] + a[1..] == a;
    }
  }

  /** The parts joined back with the delimiter between them. */
  function Join(parts: seq<string>, d: char): string
    requires |parts| >= 1
  {
    if |parts| == 1 then parts[0] else parts[0] + [d] + Join(parts[1..], d)
  }

  lemma {:induction false} JoinSplit(s: string, d: char)
    ensures Join(Split(s, d), d) == s
    decreases |s|
  {
    if |s| > 0 {
      JoinSplit(s[1..], d);
      if s[0] == d {
        JoinSplitAtDelimiter(s, d);
      } else {
        JoinSplitAtOther(s, d);
      }
    }
  }

  lemma JoinSplitAtDelimiter(s: string, d: char)
    requires |s| > 0 && s[0] == d
    requires Join(Split(s[1..], d), d) == s[1..]
    ensures Join(Split(s, d), d) == s
  {
    var rest := Split(s[1..], d);
    var parts := [""] + rest;
    assert Split(s, d) == parts;
    assert parts[1..] == rest;
    assert Join(parts, d) == "" + [d] + Join(rest, d);
    assert s == [d] + s[1..];
  }

  lemma JoinSplitAtOther(s: string, d: char)
    requires |s| > 0 && s[0] != d
    requires Join(Split(s[1..], d), d) == s[1..]
    ensures Join(Split(s, d), d) == s
  {
    var rest := Split(s[1..], d);
    var parts := [[s[0]] + rest[0]] + rest[1..];
    assert Split(s, d) == parts;
    if |rest| == 1 {
      assert Join(parts, d) == [s[0]] + rest[0];
      assert Join(rest, d) == rest[0];
    } else {
      assert parts[1..] == rest[1..];
      assert Join(parts, d) == [s[0]] + rest[0] + [d] + Join(rest[1..], d);
      assert Join(rest, d) == rest[0] + [d] + Join(rest[1..], d);
    }
    assert s == [s[0]] + s[1..];
  }

  /** lines(): the text split at every "\r\n", "\n" and "\r". */
  function Lines(s: string): (r: seq<string>)
    ensures |r| >= 1
    ensures forall k :: 0 <= k < |r| ==> '\n' !in r[k] && '\r' !in r[k]
    decreases |s|
  {
    if |s| == 0 then [""]
    else if s[0] == '\r' && |s| >= 2 && s[1] == '\n' then [""] + Lines(s[2..])
    else if s[0] == '\n' || s[0] == '\r' then [""] + Lines(s[1..])
    else
      var rest := Lines(s[1..]);
      [[s[0]] + rest[0]] + rest[1..]
  }

  /** The text with every "\r\n" and every lone '\r' replaced by '\n'. */
  function NormalizeNewlines(s: string): string
    decreases |s|
  {
    if |s| == 0 then ""
    else if s[0] == '\r' && |s| >= 2 && s[1] == '\n' then "\n" + NormalizeNewlines(s[2..])
    else if s[0] == '\r' then "\n" + NormalizeNewlines(s[1..])
    else [s[0]] + NormalizeNewlines(s[1..])
  }

  /**
   * lines() loses nothing but the kind of line break: joining the lines
   * with '\n' gives the text with its breaks normalised to '\n'.
   */
  lemma {:induction false} JoinLines(s: string)
    ensures Join(Lines(s), '\n') == NormalizeNewlines(s)
    decreases |s|
  {
    if |s| == 0 {
    } else if s[0] == '\r' && |s| >= 2 && s[1] == '\n' {
      JoinLines(s[2..]);
      JoinEmptyHead(Lines(s[2..]), '\n');
    } else if s[0] == '\n' || s[0] == '\r' {
      JoinLines(s[1..]);
      JoinEmptyHead(Lines(s[1..]), '\n');
    } else {
      JoinLines(s[1..]);
      JoinConsHead(s[0], Lines(s[1..]), '\n');
    }
  }

  /** Text with no '\r' comes back exactly from its lines joined with '\n'. */
  lemma {:induction false} JoinLinesNoCarriageReturn(s: string)
    requires '\r' !in s
    ensures Join(Lines(s), '\n') == s
  {
    JoinLines(s);
    NormalizeWithoutCarriageReturn(s);
  }

  lemma {:induction false} NormalizeWithoutCarriageReturn(s: string)
    requires '\r' !in s
    ensures NormalizeNewlines(s) == s
    decreases |s|
  {
    if |s| > 0 {
      assert s[0] in s;
      assert forall c :: c in s[1..] ==> c in s;
      NormalizeWithoutCarriageReturn(s[1..]);
      assert s == [s[0]] + s[1..];
    }
  }

  lemma JoinEmptyHead(rest: seq<string>, d: char)
    requires |rest| >= 1
    ensures Join([""] + rest, d) == [d] + Join(rest, d)
  {
    var parts := [""] + rest;
    assert parts[1..] == rest;
  }

  lemma JoinConsHead(c: char, rest: seq<string>, d: char)
    requires |rest| >= 1
    ensures Join([[c] + rest[0]] + rest[1..], d) == [c] + Join(rest, d)
  {
    var parts := [[c] + rest[0]] + rest[1..];
    if |rest| > 1 {
      assert parts[1..] == rest[1..];
    }
  }

  function DigitChar(d: nat): char
    requires d < 10
  {
    ('0' as int + d) as char
  }

  /** Decimal rendering of a natural number, as in the string template "$n". */
  function NatToString(n: nat): (r: string)
    ensures |r| >= 1
  {
    if n < 10 then [DigitChar(n)] else NatToString(n / 10) + [DigitChar(n % 10)]
  }

  /** The value of a run of decimal digits, most significant first. */
  function DecimalValue(s: string): int {
    if |s| == 0 then 0 else DecimalValue(s[..|s| - 1]) * 10 + (s[|s| - 1] as int - '0' as int)
  }

  /** The rendering is digits only, has no leading zero, and reads back as n. */
  lemma {:induction false} NatToStringDigits(n: nat)
    ensures forall k :: 0 <= k < |NatToString(n)| ==> '0' <= NatToString(n)[k] <= '9'
    ensures NatToString(n)[0] == '0' ==> n == 0
    ensures DecimalValue(NatToString(n)) == n
  {
    if n >= 10 {
      NatToStringDigits(n / 10);
      var r := NatToString(n);
      var p := NatToString(n / 10);
      assert r == p + [DigitChar(n % 10)];
      assert r[..|r| - 1] == p;
      assert r[0] == p[0];
    }
  }

  /**
   * `|Key=Value` parameters: the value of the last parameter that starts,
   * ignoring case, with prefix (substring(prefix.length)), or "" when none does.
   */
  function LastParamValue(params: seq<string>, prefix: string): string {
    if |params| == 0 then ""
    else
      var p := params[|params| - 1];
      if StartsWithIgnoreCase(p, prefix) then p[|prefix|..] else LastParamValue(params[..|params| - 1], prefix)
  }

  /** Some parameter starts, ignoring case, with prefix. */
  predicate HasParam(params: seq<string>, prefix: string) {
    |params| > 0
    && (StartsWithIgnoreCase(params[|params| - 1], prefix) || HasParam(params[..|params| - 1], prefix))
  }

  /** Two prefixes whose first letters differ, ignoring case, never both start one parameter. */
  lemma FirstLetterExcludes(param: string, p: string, q: string)
    requires |p| > 0 && |q| > 0 && AsciiLower(p[0]) != AsciiLower(q[0])
    ensures !(StartsWithIgnoreCase(param, p) && StartsWithIgnoreCase(param, q))
  {
    if StartsWithIgnoreCase(param, p) && |q| <= |param| {
      assert AsciiLower(param[0]) == AsciiLower(p[0]);
    }
  }

  /** One more parameter: it is the last one, so it decides when it carries the prefix. */
  lemma ParamAfter(params: seq<string>, param: string, prefix: string)
    ensures HasParam(params + [param], prefix) == (StartsWithIgnoreCase(param, prefix) || HasParam(params, prefix))
    ensures LastParamValue(params + [param], prefix) ==
              if StartsWithIgnoreCase(param, prefix) then param[|prefix|..] else LastParamValue(params, prefix)
  {
    var ps := params + [param];
    assert ps[..|ps| - 1] == params;
    assert ps[|ps| - 1] == param;
  }

  /** Every element trimmed, as in `parts[j].trim()` applied to each part. */
  function TrimAll(ss: seq<string>): (r: seq<string>)
    ensures |r| == |ss|
    ensures forall k :: 0 <= k < |ss| ==> r[k] == Trim(ss[k])
  {
    seq(|ss|, k requires 0 <= k < |ss| => Trim(ss[k]))
  }

  /**
   * Each trimmed parameter is the original with only whitespace cut from
   * both ends: it is empty or starts and ends with a non-whitespace
   * character, and it sits inside the original between whitespace runs.
   */
  lemma TrimAllShape(ss: seq<string>)
    ensures |TrimAll(ss)| == |ss|
    ensures forall k :: 0 <= k < |ss| ==> TrimShape(ss[k], TrimAll(ss)[k])
  {
    forall k | 0 <= k < |ss| ensures TrimShape(ss[k], TrimAll(ss)[k]) {
      TrimIsShape(ss[k]);
    }
  }

  /** r is s with a whitespace run cut from each end, and r neither starts nor ends with whitespace. */
  ghost predicate TrimShape(s: string, r: string) {
    (r == [] || (!IsWhitespace(r[0]) && !IsWhitespace(r[|r| - 1])))
    && exists i: nat :: i <= |s| && OccursAt(s, r, i)
         && (forall k :: 0 <= k < i ==> IsWhitespace(s[k]))
         && (forall k :: i + |r| <= k < |s| ==> IsWhitespace(s[k]))
  }

  lemma TrimIsShape(s: string)
    ensures TrimShape(s, Trim(s))
  {
    TrimStartShape(s);
    var t := TrimStart(s);
    TrimEndShape(t);
    var r := Trim(s);
    var i := |s| - |t|;
    assert s[i..i + |r|] == t[..|r|] == r;
    assert OccursAt(s, r, i);
    if r != [] {
      assert r[0] == t[0];
    }
    forall k | i + |r| <= k < |s| ensures IsWhitespace(s[k]) {
      assert s[k] == t[k - i];
    }
  }

  lemma TrimAllAppend(ss: seq<string>, x: string)
    ensures TrimAll(ss + [x]) == TrimAll(ss) + [Trim(x)]
  {
    var a, b := TrimAll(ss + [x]), TrimAll(ss) + [Trim(x)];
    assert |a| == |b|;
    forall k | 0 <= k < |a| ensures a[k] == b[k] {
      if k < |ss| {
        assert (ss + [x])[k] == ss[k];
      }
    }
  }
}
