/** String helpers with the semantics of the JavaScript built-ins the core calls. */
module Strings {
  import opened Wrappers

  predicate StartsWith(s: string, p: string) {
    |p| <= |s| && s[..|p|] == p
  }

  /** `s.includes(sub)`, and the unanchored regex test `/sub/.test(s)` for a literal `sub`. */
  predicate Contains(s: string, sub: string)
    decreases |s|
  {
    StartsWith(s, sub) || (|s| > 0 && Contains(s[1..], sub))
  }

  /** A string contains every string spliced into it. */
  lemma {:induction false} ContainsInfix(a: string, sub: string, b: string)
    ensures Contains(a + sub + b, sub)
    decreases |a|
  {
    if |a| == 0 {
      assert a + sub + b == sub + b;
      assert (sub + b)[..|sub|] == sub;
    } else {
      ContainsInfix(a[1..], sub, b);
      assert (a + sub + b)[1..] == a[1..] + sub + b;
    }
  }

  /** The prefix of a domain tag written `${prefix}:${value}`. */
  function Tag(prefix: string, value: string): string {
    prefix + ":" + value
  }

  predicate NoColon(s: string) {
    forall i :: 0 <= i < |s| ==> s[i] != ':'
  }

  /** In a tag with a colon-free prefix, the first colon ends the prefix. */
  lemma FirstColon(p: string, x: string)
    requires NoColon(p)
    ensures Tag(p, x)[|p|] == ':'
    ensures forall i :: 0 <= i < |p| ==> Tag(p, x)[i] != ':'
  {
  }

  /** Distinct tag families never collide: with colon-free prefixes, a tag determines its
      prefix and its value. Every prefix the browser uses is colon-free. */
  lemma TagInjective(p: string, x: string, q: string, y: string)
    requires NoColon(p) && NoColon(q)
    ensures Tag(p, x) == Tag(q, y) <==> p == q && x == y
  {
    if Tag(p, x) == Tag(q, y) {
      var s := Tag(p, x);
      FirstColon(p, x);
      FirstColon(q, y);
      assert |p| == |q|;
      assert p == s[..|p|] == q;
      assert x == s[|p| + 1..] == y;
    }
  }

  /** `t.replace(/^hb_/, "")`: a leading homebrew marker is removed once. */
  function StripHomebrew(t: string): (r: string)
    ensures StartsWith(t, "hb_") ==> t == "hb_" + r
    ensures !StartsWith(t, "hb_") ==> r == t
  {
    if StartsWith(t, "hb_") then t[3..] else t
  }

  /** `s.split(sep)` for a one-character separator. */
  function Split(s: string, sep: char): (r: seq<string>)
    ensures |r| >= 1
    ensures forall i :: 0 <= i < |r| ==> sep !in r[i]
    decreases |s|
  {
    if |s| == 0 then [""]
    else if s[0] == sep then [""] + Split(s[1..], sep)
    else
      var rest := Split(s[1..], sep);
      [[s[0]] + rest[0]] + rest[1..]
  }

  /** `parts.join(sep)`. */
  function Join(parts: seq<string>, sep: char): string
    requires |parts| >= 1
    decreases |parts|
  {
    if |parts| == 1 then parts[0] else parts[0] + [sep] + Join(parts[1..], sep)
  }

  /** Splitting and joining on the same separator are inverse. */
  lemma {:induction false} JoinSplit(s: string, sep: char)
    ensures Join(Split(s, sep), sep) == s
    decreases |s|
  {
    if |s| == 0 {
    } else if s[0] == sep {
      JoinSplit(s[1..], sep);
      assert [""] + Split(s[1..], sep) == Split(s, sep);
      assert Split(s, sep)[1..] == Split(s[1..], sep);
    } else {
      JoinSplit(s[1..], sep);
      var rest := Split(s[1..], sep);
      var r := Split(s, sep);
      assert r[0] == [s[0]] + rest[0];
      if |rest| == 1 {
      } else {
        assert r[1..] == rest[1..];
        assert Join(r, sep) == [s[0]] + rest[0] + [sep] + Join(rest[1..], sep);
      }
    }
  }

  /** The first piece of `s.split(sep)` is the longest separator-free prefix of `s`. */
  lemma {:induction false} SplitHead(s: string, sep: char)
    ensures StartsWith(s, Split(s, sep)[0])
    ensures |Split(s, sep)[0]| < |s| ==> s[|Split(s, sep)[0]|] == sep
    decreases |s|
  {
    if |s| > 0 && s[0] != sep {
      SplitHead(s[1..], sep);
    }
  }

  /** The characters `String.prototype.trim` removes: ECMAScript WhiteSpace and
      LineTerminator. */
  predicate IsWhitespace(c: char) {
    c == ' ' || c == '\t' || c == '\n' || c == '\r' || c == '\U{000B}' || c == '\U{000C}'
    || c == '\U{00A0}' || c == '\U{1680}' || ('\U{2000}' <= c <= '\U{200A}')
    || c == '\U{2028}' || c == '\U{2029}' || c == '\U{202F}' || c == '\U{205F}'
    || c == '\U{3000}' || c == '\U{FEFF}'
  }

  predicate AllWhitespace(s: string) {
    forall i :: 0 <= i < |s| ==> IsWhitespace(s[i])
  }

  function TrimStart(s: string): (r: string)
    ensures |r| <= |s| && r == s[|s| - |r|..]
    ensures AllWhitespace(s[..|s| - |r|])
    ensures |r| > 0 ==> !IsWhitespace(r[0])
    decreases |s|
  {
    if |s| > 0 && IsWhitespace(s[0]) then TrimStart(s[1..]) else s
  }

  function TrimEnd(s: string): (r: string)
    ensures |r| <= |s| && r == s[..|r|]
    ensures AllWhitespace(s[|r|..])
    ensures |r| > 0 ==> !IsWhitespace(r[|r| - 1])
    decreases |s|
  {
    if |s| > 0 && IsWhitespace(s[|s| - 1]) then TrimEnd(s[..|s| - 1]) else s
  }

  /** `s.trim()`: the string without leading and trailing whitespace. */
  function Trim(s: string): (r: string) {
    TrimEnd(TrimStart(s))
  }

  lemma TrimStartKeeps(t: string)
    requires |t| > 0 ==> !IsWhitespace(t[0])
    ensures TrimStart(t) == t
  {
  }

  lemma TrimEndKeeps(t: string)
    requires |t| > 0 ==> !IsWhitespace(t[|t| - 1])
    ensures TrimEnd(t) == t
  {
  }

  /** What trimming means: `s` is the result wrapped in whitespace, and the result neither
      starts nor ends with whitespace; so trimming twice changes nothing. */
  lemma TrimSpec(s: string)
    ensures exists i, j :: (0 <= i <= j <= |s| && Trim(s) == s[i..j]
                           && AllWhitespace(s[..i]) && AllWhitespace(s[j..]))
    ensures |Trim(s)| > 0 ==> !IsWhitespace(Trim(s)[0]) && !IsWhitespace(Trim(s)[|Trim(s)| - 1])
    ensures Trim(Trim(s)) == Trim(s)
  {
    TrimWraps(s);
    TrimEdges(s);
    var t := Trim(s);
    TrimStartKeeps(t);
    TrimEndKeeps(t);
  }

  lemma TrimWraps(s: string)
    ensures exists i, j :: (0 <= i <= j <= |s| && Trim(s) == s[i..j]
                           && AllWhitespace(s[..i]) && AllWhitespace(s[j..]))
  {
    var a := TrimStart(s);
    var t := TrimEnd(a);
    var i := |s| - |a|;
    var j := i + |t|;
    assert a == s[i..] && t == a[..|t|];
    assert t == s[i..j];
    assert s[j..] == a[|t|..];
    assert AllWhitespace(s[..i]) && AllWhitespace(s[j..]);
  }

  lemma TrimEdges(s: string)
    ensures |Trim(s)| > 0 ==> !IsWhitespace(Trim(s)[0]) && !IsWhitespace(Trim(s)[|Trim(s)| - 1])
  {
    var a := TrimStart(s);
    var t := TrimEnd(a);
    if |t| > 0 {
      assert t[0] == a[0];
    }
  }

  /** `s.replaceAll(pattern, replacement)` for a literal pattern. An empty pattern matches
      before every character and at the end. */
  function ReplaceAll(s: string, pattern: string, replacement: string): (r: string)
    decreases |s|
  {
    if |pattern| == 0 then
      if |s| == 0 then replacement else replacement + [s[0]] + ReplaceAll(s[1..], pattern, replacement)
    else if StartsWith(s, pattern) then replacement + ReplaceAll(s[|pattern|..], pattern, replacement)
    else if |s| == 0 then ""
    else [s[0]] + ReplaceAll(s[1..], pattern, replacement)
  }

  /** A string without the pattern passes through unchanged; with a non-empty replacement
      pattern nothing of the old pattern is left over when the replacement avoids it. */
  lemma {:induction false} ReplaceAllAbsent(s: string, pattern: string, replacement: string)
    requires |pattern| > 0 && !Contains(s, pattern)
    ensures ReplaceAll(s, pattern, replacement) == s
    decreases |s|
  {
    if |s| > 0 {
      ReplaceAllAbsent(s[1..], pattern, replacement);
    }
  }

  // ---- decimal numerals -------------------------------------------------------------

  function DigitChar(d: int): char
    requires 0 <= d < 10
  {
    ('0' as int + d) as char
  }

  predicate IsDigit(c: char) { '0' <= c <= '9' }

  function NatToString(n: nat): (r: string)
    ensures |r| >= 1 && forall i :: 0 <= i < |r| ==> IsDigit(r[i])
    decreases n
  {
    if n < 10 then [DigitChar(n)] else NatToString(n / 10) + [DigitChar(n % 10)]
  }

  /** `String(n)` / `${n}` for an integer. */
  function IntToString(n: int): string {
    if n < 0 then "-" + NatToString(-n) else NatToString(n)
  }

  /** The value of a non-empty run of decimal digits. */
  function DigitsValue(s: string): int
    requires |s| >= 1 && forall i :: 0 <= i < |s| ==> IsDigit(s[i])
    decreases |s|
  {
    var last := s[|s| - 1] as int - '0' as int;
    if |s| == 1 then last else DigitsValue(s[..|s| - 1]) * 10 + last
  }

  /** Reads an optionally signed decimal integer; anything else is not a number. */
  function ParseInt(s: string): Option<int> {
    if |s| >= 2 && s[0] == '-' && forall i :: 1 <= i < |s| ==> IsDigit(s[i]) then
      Some(-DigitsValue(s[1..]))
    else if |s| >= 1 && forall i :: 0 <= i < |s| ==> IsDigit(s[i]) then
      Some(DigitsValue(s))
    else None
  }

  lemma {:induction false} DigitsValueOfNat(n: nat)
    ensures DigitsValue(NatToString(n)) == n
    decreases n
  {
    if n >= 10 {
      DigitsValueOfNat(n / 10);
      var s := NatToString(n);
      assert s[..|s| - 1] == NatToString(n / 10);
    }
  }

  /** Printing then reading an integer gives it back. */
  lemma ParseIntToString(n: int)
    ensures ParseInt(IntToString(n)) == Some(n)
  {
    if n < 0 {
      ParseNegative(-n);
      assert IntToString(n) == "-" + NatToString(-n);
    } else {
      ParseNonNegative(n);
      assert IntToString(n) == NatToString(n);
    }
  }

  lemma ParseNegative(k: nat)
    requires k > 0
    ensures ParseInt("-" + NatToString(k)) == Some(-(k as int))
  {
    var d := NatToString(k);
    var s := "-" + d;
    DigitsValueOfNat(k);
    assert s[1..] == d;
    assert |s| >= 2 && s[0] == '-';
    assert forall i :: 1 <= i < |s| ==> IsDigit(s[i]) by {
      forall i | 1 <= i < |s| ensures IsDigit(s[i]) {
        assert s[i] == d[i - 1];
      }
    }
  }

  lemma ParseNonNegative(n: nat)
    ensures ParseInt(NatToString(n)) == Some(n)
  {
    var d := NatToString(n);
    DigitsValueOfNat(n);
    assert !IsDigit('-');
    assert d[0] != '-';
  }

  /** Distinct integers print differently. */
  lemma IntToStringInjective(m: int, n: int)
    ensures IntToString(m) == IntToString(n) <==> m == n
  {
    ParseIntToString(m);
    ParseIntToString(n);
  }

  lemma IntToStringNoColon(n: int)
    ensures NoColon(IntToString(n)) && '.' !in IntToString(n)
  {
    var s := IntToString(n);
    var d := NatToString(if n < 0 then -n else n);
    assert forall i :: 0 <= i < |d| ==> d[i] != ':' && d[i] != '.';
  }

  // ---- UTF-16 code-unit order (`<`, `>` and the default `Array.prototype.sort` on strings) ----

  /** The UTF-16 code units of one character: the character itself below U+10000, a
      surrogate pair above. */
  function Utf16(c: char): (r: seq<int>)
    ensures |r| == (if c as int < 0x1_0000 then 1 else 2)
    ensures c as int < 0x1_0000 ==> r[0] == c as int
    ensures c as int >= 0x1_0000 ==> 0xD800 <= r[0] < 0xDC00 && 0xDC00 <= r[1] < 0xE000
  {
    var n := c as int;
    if n < 0x1_0000 then [n]
    else [0xD800 + (n - 0x1_0000) / 0x400, 0xDC00 + (n - 0x1_0000) % 0x400]
  }

  /** The UTF-16 encoding of a string, the sequence JavaScript compares. */
  function Utf16Of(s: string): (r: seq<int>)
    ensures |s| > 0 ==> |r| > 0
  {
    if |s| == 0 then [] else Utf16(s[0]) + Utf16Of(s[1..])
  }

  /** Lexicographic order on code-unit sequences. */
  predicate UnitsLess(x: seq<int>, y: seq<int>)
    decreases |x|
  {
    if |x| == 0 then |y| > 0
    else if |y| == 0 then false
    else x[0] < y[0] || (x[0] == y[0] && UnitsLess(x[1..], y[1..]))
  }

  /** A key on characters that orders them as their UTF-16 encodings compare: the
      characters U+E000..U+FFFF come after every surrogate pair. */
  function UnitKey(c: char): (k: int)
    ensures c as int < 0xE000 || c as int >= 0x1_0000 ==> k == c as int
    ensures 0xE000 <= c as int < 0x1_0000 ==> k > 0x10_FFFF
  {
    if 0xE000 <= c as int < 0x1_0000 then c as int + 0x20_0000 else c as int
  }

  /** String comparison with `<`: the first differing character decides, by `UnitKey`. */
  predicate LexLess(a: string, b: string)
    decreases |a|
  {
    if |a| == 0 then |b| > 0
    else if |b| == 0 then false
    else UnitKey(a[0]) < UnitKey(b[0]) || (a[0] == b[0] && LexLess(a[1..], b[1..]))
  }

  lemma {:induction false} UnitsLessCommonPrefix(u: seq<int>, x: seq<int>, y: seq<int>)
    ensures UnitsLess(u + x, u + y) == UnitsLess(x, y)
    decreases |u|
  {
    if |u| > 0 {
      assert (u + x)[1..] == u[1..] + x && (u + y)[1..] == u[1..] + y;
      UnitsLessCommonPrefix(u[1..], x, y);
      assert (u + x)[0] == (u + y)[0];
    } else {
      assert u + x == x && u + y == y;
    }
  }

  /** Two different characters' encodings already differ inside the shorter one, so
      what follows them never matters, and `UnitKey` gives their order. */
  lemma UnitKeyOrdersUtf16(c: char, d: char, x: seq<int>, y: seq<int>)
    requires c != d
    ensures UnitsLess(Utf16(c) + x, Utf16(d) + y) <==> UnitKey(c) < UnitKey(d)
  {
    var u, v := Utf16(c) + x, Utf16(d) + y;
    var n, m := c as int, d as int;
    assert u[0] == Utf16(c)[0] && v[0] == Utf16(d)[0];
    if n >= 0x1_0000 && m >= 0x1_0000 && u[0] == v[0] {
      assert u[1] == Utf16(c)[1] && v[1] == Utf16(d)[1];
      assert (n - 0x1_0000) / 0x400 == (m - 0x1_0000) / 0x400;
      assert n - 0x1_0000 == 0x400 * ((n - 0x1_0000) / 0x400) + (n - 0x1_0000) % 0x400;
      assert m - 0x1_0000 == 0x400 * ((m - 0x1_0000) / 0x400) + (m - 0x1_0000) % 0x400;
      assert u[1] != v[1];
      assert UnitsLess(u, v) <==> u[1] < v[1];
    } else if n >= 0x1_0000 && m >= 0x1_0000 {
      assert (n - 0x1_0000) / 0x400 < (m - 0x1_0000) / 0x400 ==> n < m;
      assert (m - 0x1_0000) / 0x400 < (n - 0x1_0000) / 0x400 ==> m < n;
    }
  }

  /** `LexLess` is exactly the lexicographic order of the UTF-16 encodings, the order
      of JavaScript's `<` on strings. */
  lemma {:induction false} LexLessIsUtf16Order(a: string, b: string)
    ensures LexLess(a, b) <==> UnitsLess(Utf16Of(a), Utf16Of(b))
    decreases |a|
  {
    if |a| > 0 && |b| > 0 {
      if a[0] == b[0] {
        UnitsLessCommonPrefix(Utf16(a[0]), Utf16Of(a[1..]), Utf16Of(b[1..]));
        LexLessIsUtf16Order(a[1..], b[1..]);
      } else {
        UnitKeyOrdersUtf16(a[0], b[0], Utf16Of(a[1..]), Utf16Of(b[1..]));
      }
    }
  }

  /** A character above U+FFFF sorts before U+FF41, though its scalar value is larger. */
  lemma SupplementaryBeforeHighBmp()
    ensures LexLess("\U{20000}", "\U{FF41}") && !LexLess("\U{FF41}", "\U{20000}")
  {
  }

  lemma {:induction false} LexLessIrreflexive(a: string)
    ensures !LexLess(a, a)
    decreases |a|
  {
    if |a| > 0 { LexLessIrreflexive(a[1..]); }
  }

  lemma {:induction false} LexLessTotal(a: string, b: string)
    ensures a == b || LexLess(a, b) || LexLess(b, a)
    decreases |a|
  {
    if |a| > 0 && |b| > 0 && a[0] == b[0] {
      LexLessTotal(a[1..], b[1..]);
      if a[1..] == b[1..] {
        assert a == [a[0]] + a[1..] && b == [b[0]] + b[1..];
      }
    }
  }

  lemma {:induction false} LexLessAsymmetric(a: string, b: string)
    ensures !(LexLess(a, b) && LexLess(b, a))
    decreases |a|
  {
    if |a| > 0 && |b| > 0 && a[0] == b[0] {
      LexLessAsymmetric(a[1..], b[1..]);
    }
  }

  lemma {:induction false} LexLessTransitive(a: string, b: string, c: string)
    requires LexLess(a, b) && LexLess(b, c)
    ensures LexLess(a, c)
    decreases |a|
  {
    if |a| > 0 && a[0] == b[0] && b[0] == c[0] {
      LexLessTransitive(a[1..], b[1..], c[1..]);
    }
  }

  /** The comparison the default `Array.prototype.sort` applies to strings. */
  function CompareCodeUnits(a: string, b: string): (r: int)
    ensures r < 0 <==> LexLess(a, b)
    ensures r == 0 <==> a == b
  {
    LexLessIrreflexive(a);
    if LexLess(a, b) then -1
    else if a == b then 0
    else LexLessTotal(a, b); 1
  }
}
