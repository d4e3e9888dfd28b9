/** Character-level string operations the application relies on: Python's
    `str.strip`, JavaScript's `String.prototype.trim`, lower-casing,
    prefix and substring tests, decimal rendering of integers and the
    code-point order that string sorts use. */
module Text {

  /** Python's `str.isspace`: the characters `str.strip()` removes. */
  predicate IsPySpace(c: char)
  {
    || ('\t' <= c <= '\r')
    || ('\U{1C}' <= c <= ' ')
    || c == '\U{85}' || c == '\U{A0}' || c == '\U{1680}'
    || ('\U{2000}' <= c <= '\U{200A}')
    || c == '\U{2028}' || c == '\U{2029}' || c == '\U{202F}' || c == '\U{205F}' || c == '\U{3000}'
  }

  /** The white space and line terminators JavaScript's `trim()` removes. */
  predicate IsJsSpace(c: char)
  {
    || ('\t' <= c <= '\r')
    || c == ' ' || c == '\U{A0}' || c == '\U{1680}'
    || ('\U{2000}' <= c <= '\U{200A}')
    || c == '\U{2028}' || c == '\U{2029}' || c == '\U{202F}' || c == '\U{205F}' || c == '\U{3000}'
    || c == '\U{FEFF}'
  }

  /** Drops the leading characters that satisfy `ws`. */
  function TrimStart(s: string, ws: char -> bool): (r: string)
    ensures |r| <= |s| && r == s[|s| - |r|..]
    ensures forall k :: 0 <= k < |s| - |r| ==> ws(s[k])
    ensures r != [] ==> !ws(r[0])
  {
    if s == [] || !ws(s[0]) then s else TrimStart(s[1..], ws)
  }

  /** Drops the trailing characters that satisfy `ws`. */
  function TrimEnd(s: string, ws: char -> bool): (r: string)
    ensures |r| <= |s| && r == s[..|r|]
    ensures forall k :: |r| <= k < |s| ==> ws(s[k])
    ensures r != [] ==> !ws(r[|r| - 1])
  {
    if s == [] || !ws(s[|s| - 1]) then s else TrimEnd(s[..|s| - 1], ws)
  }

  /** Number of leading characters that `TrimStart` drops. */
  function LeadingCount(s: string, ws: char -> bool): nat
  {
    |s| - |TrimStart(s, ws)|
  }

  /** Both ends trimmed: the result is the slice of `s` starting at
      `LeadingCount(s, ws)`, everything outside it is white space, and it
      neither starts nor ends with white space. */
  function Trim(s: string, ws: char -> bool): (r: string)
    ensures var i := LeadingCount(s, ws);
      && i + |r| <= |s| && r == s[i..i + |r|]
      && (forall k :: 0 <= k < i ==> ws(s[k]))
      && (forall k :: i + |r| <= k < |s| ==> ws(s[k]))
    ensures r != [] ==> !ws(r[0]) && !ws(r[|r| - 1])
  {
    var a := TrimStart(s, ws);
    TrimSlice(s, a, TrimEnd(a, ws), ws);
    TrimEnd(a, ws)
  }

  /** The two trims compose to a slice of `s` with white space outside. */
  lemma TrimSlice(s: string, a: string, r: string, ws: char -> bool)
    requires |a| <= |s| && a == s[|s| - |a|..]
    requires |r| <= |a| && r == a[..|r|]
    requires forall k :: |r| <= k < |a| ==> ws(a[k])
    ensures var i := |s| - |a|;
      && i + |r| <= |s| && r == s[i..i + |r|]
      && (forall k :: i + |r| <= k < |s| ==> ws(s[k]))
      && (r != [] ==> r[0] == a[0])
  {
    var i := |s| - |a|;
    forall k | i + |r| <= k < |s| ensures ws(s[k]) {
      assert s[k] == a[k - i];
    }
  }

  /** A string that neither starts nor ends with white space is its own trim. */
  lemma TrimClean(s: string, ws: char -> bool)
    requires s != [] ==> !ws(s[0]) && !ws(s[|s| - 1])
    ensures Trim(s, ws) == s
  {
  }

  /** Trimming twice is trimming once. */
  lemma TrimIdempotent(s: string, ws: char -> bool)
    ensures Trim(Trim(s, ws), ws) == Trim(s, ws)
  {
    TrimClean(Trim(s, ws), ws);
  }

  /** The trim is empty exactly when every character is white space. */
  lemma TrimEmptyIff(s: string, ws: char -> bool)
    ensures Trim(s, ws) == [] <==> forall k :: 0 <= k < |s| ==> ws(s[k])
  {
    var a := TrimStart(s, ws);
    if a != [] {
      assert a[0] == s[|s| - |a|];
    }
  }

  function PyStrip(s: string): string { Trim(s, IsPySpace) }

  function JsTrim(s: string): string { Trim(s, IsJsSpace) }

  /** ASCII lower-casing of one character. */
  function LowerChar(c: char): char
  {
    if 'A' <= c <= 'Z' then (c as int + 32) as char else c
  }

  /** Lower-cases every character (ASCII letters only). */
  function Lower(s: string): (r: string)
    ensures |r| == |s| && forall i :: 0 <= i < |s| ==> r[i] == LowerChar(s[i])
  {
    seq(|s|, i requires 0 <= i < |s| => LowerChar(s[i]))
  }

  lemma LowerConcat(a: string, b: string)
    ensures Lower(a + b) == Lower(a) + Lower(b)
  {
  }

  predicate StartsWith(s: string, p: string)
  {
    |p| <= |s| && s[..|p|] == p
  }

  /** `t` occurs in `s` at position `k`. */
  predicate OccursAt(s: string, t: string, k: int)
  {
    0 <= k && k + |t| <= |s| && s[k..k + |t|] == t
  }

  /** `t` occurs in `s` as a contiguous substring (Python `in`, JavaScript
      `includes`), defined by scanning the start positions of `s`. */
  predicate Contains(s: string, t: string)
    decreases |s|
  {
    StartsWith(s, t) || (s != [] && Contains(s[1..], t))
  }

  /** The scanning definition agrees with "`t` occurs at some position". */
  lemma {:induction false} ContainsIff(s: string, t: string)
    ensures Contains(s, t) <==> exists k :: OccursAt(s, t, k)
    decreases |s|
  {
    if s == [] {
      if exists k :: OccursAt(s, t, k) {
        var k :| OccursAt(s, t, k);
        assert StartsWith(s, t);
      }
      if StartsWith(s, t) {
        assert OccursAt(s, t, 0);
      }
    } else {
      ContainsIff(s[1..], t);
      if exists k :: OccursAt(s, t, k) {
        var k :| OccursAt(s, t, k);
        if k > 0 {
          assert OccursAt(s[1..], t, k - 1) by {
            assert s[1..][k - 1..k - 1 + |t|] == s[k..k + |t|];
          }
        } else {
          assert StartsWith(s, t);
        }
      }
      if Contains(s[1..], t) && !StartsWith(s, t) {
        var k :| OccursAt(s[1..], t, k);
        assert OccursAt(s, t, k + 1) by {
          assert s[1..][k..k + |t|] == s[k + 1..k + 1 + |t|];
        }
      }
      if StartsWith(s, t) {
        assert OccursAt(s, t, 0);
      }
    }
  }

  /** A one-character string occurs exactly when the character does. */
  lemma {:induction false} ContainsChar(s: string, c: char)
    ensures Contains(s, [c]) <==> c in s
    decreases |s|
  {
    if s != [] {
      ContainsChar(s[1..], c);
      assert s == [s[0]] + s[1..];
    }
  }

  // ---------------- decimal rendering ----------------

  function DigitChar(d: int): char
    requires 0 <= d < 10
  {
    ('0' as int + d) as char
  }

  predicate IsDigit(c: char) { '0' <= c <= '9' }

  /** The number a string of decimal digits denotes. */
  function DigitsValue(s: string): int
    requires forall i :: 0 <= i < |s| ==> IsDigit(s[i])
  {
    if s == [] then 0
    else DigitsValue(s[..|s| - 1]) * 10 + (s[|s| - 1] as int - '0' as int)
  }

  function DigitCount(n: nat): nat
  {
    if n < 10 then 1 else 1 + DigitCount(n / 10)
  }

  /** JavaScript's and Python's decimal rendering of a natural number: only
      digits, no leading zero, `DigitCount(n)` characters, and it reads back
      as `n`. */
  function Digits(n: nat): (r: string)
    ensures |r| == DigitCount(n)
    ensures forall i :: 0 <= i < |r| ==> IsDigit(r[i])
    ensures |r| == 1 || r[0] != '0'
    ensures DigitsValue(r) == n
  {
    if n < 10 then [DigitChar(n)]
    else
      var r := Digits(n / 10) + [DigitChar(n % 10)];
      assert r[..|r| - 1] == Digits(n / 10);
      r
  }

  /** `'' + n` and `str(n)` for an integer. */
  function Decimal(n: int): string
  {
    if n >= 0 then Digits(n) else "-" + Digits(-n)
  }

  lemma DigitCountRanges(n: nat)
    ensures n < 10 ==> DigitCount(n) == 1
    ensures 10 <= n < 100 ==> DigitCount(n) == 2
    ensures 1000 <= n < 10000 ==> DigitCount(n) == 4
  {
    if 1000 <= n < 10000 {
      var a := n / 10;
      var b := a / 10;
      var c := b / 10;
      assert 100 <= a < 1000 && 10 <= b < 100 && 1 <= c < 10;
      assert DigitCount(b) == 2;
    }
  }

  // ---------------- code-point order ----------------

  /** Three-way comparison of strings by code point, shortest prefix first:
      the order of Python's string `<`, of SQL's binary collation and of
      JavaScript's default `sort` on strings without astral characters. */
  function CmpStr(a: string, b: string): int
    decreases |a|
  {
    if a == [] && b == [] then 0
    else if a == [] then -1
    else if b == [] then 1
    else if a[0] < b[0] then -1
    else if a[0] > b[0] then 1
    else CmpStr(a[1..], b[1..])
  }

  lemma {:induction false} CmpStrAntisym(a: string, b: string)
    ensures CmpStr(a, b) == -CmpStr(b, a)
    ensures CmpStr(a, b) == 0 <==> a == b
    decreases |a|
  {
    if a != [] && b != [] && a[0] == b[0] {
      CmpStrAntisym(a[1..], b[1..]);
      if a[1..] == b[1..] {
        assert a == [a[0]] + a[1..] && b == [b[0]] + b[1..];
      }
    }
  }

  lemma {:induction false} CmpStrTrans(a: string, b: string, c: string)
    requires CmpStr(a, b) <= 0 && CmpStr(b, c) <= 0
    ensures CmpStr(a, c) <= 0
    decreases |a|
  {
    if a != [] && b != [] && c != [] && a[0] == b[0] == c[0] {
      CmpStrTrans(a[1..], b[1..], c[1..]);
    }
  }

  /** `CmpStr(a, b) <= 0` is a total order on strings. */
  lemma StrLeTotal(a: string, b: string, c: string)
    ensures CmpStr(a, b) <= 0 || CmpStr(b, a) <= 0
    ensures CmpStr(a, b) <= 0 && CmpStr(b, c) <= 0 ==> CmpStr(a, c) <= 0
    ensures CmpStr(a, b) <= 0 && CmpStr(b, a) <= 0 ==> a == b
  {
    CmpStrAntisym(a, b);
    if CmpStr(a, b) <= 0 && CmpStr(b, c) <= 0 {
      CmpStrTrans(a, b, c);
    }
  }
}
