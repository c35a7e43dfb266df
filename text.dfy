/** String helpers with the meaning JavaScript gives them: `startsWith`,
    `join`, `split`, `trim`, decimal rendering of integers, and the ASCII
    lower-casing the Fetch `Headers` object applies to header names. */
module Text {

  /** `s.startsWith(prefix)` */
  predicate StartsWith(s: string, prefix: string) {
    |prefix| <= |s| && s[..|prefix|] == prefix
  }

  /** `parts.join(sep)`, built from the right so that appending a part is one step. */
  function Join(parts: seq<string>, sep: string): string {
    if |parts| == 0 then ""
    else if |parts| == 1 then parts[0]
    else Join(parts[..|parts| - 1], sep) + sep + parts[|parts| - 1]
  }

  /** Number of occurrences of `c` in `s`. */
  function Occurrences(s: string, c: char): nat {
    if s == [] then 0 else Occurrences(s[..|s| - 1], c) + (if s[|s| - 1] == c then 1 else 0)
  }

  lemma {:induction false} OccurrencesAppend(a: string, b: string, c: char)
    ensures Occurrences(a + b, c) == Occurrences(a, c) + Occurrences(b, c)
  {
    if b == [] {
      assert a + b == a;
    } else {
      assert (a + b)[..|a + b| - 1] == a + b[..|b| - 1];
      OccurrencesAppend(a, b[..|b| - 1], c);
    }
  }

  lemma {:induction false} OccurrencesAbsent(s: string, c: char)
    requires c !in s
    ensures Occurrences(s, c) == 0
  {
    if s != [] {
      assert c !in s[..|s| - 1];
      OccurrencesAbsent(s[..|s| - 1], c);
    }
  }

  /** Every part of `s.split(c)` is free of `c`, and joining them with `c` gives `s` back. */
  function Split(s: string, c: char): (parts: seq<string>)
    ensures |parts| >= 1
    ensures |parts| == Occurrences(s, c) + 1
    ensures forall i :: 0 <= i < |parts| ==> c !in parts[i]
    ensures Join(parts, [c]) == s
  {
    if s == [] then [[]]
    else
      var init := Split(s[..|s| - 1], c);
      var last := s[|s| - 1];
      if last == c then
        init + [[]]
      else
        var k := |init| - 1;
        assert init == init[..k] + [init[k]];
        var r := init[..k] + [init[k] + [last]];
        assert c !in init[k] + [last];
        JoinStepLast(init[..k], init[k], [c], last);
        assert s == s[..|s| - 1] + [last];
        r
  }

  lemma JoinStepLast(init: seq<string>, part: string, sep: string, x: char)
    ensures Join(init + [part + [x]], sep) == Join(init + [part], sep) + [x]
  {
    var p := init + [part + [x]];
    var q := init + [part];
    assert p[..|p| - 1] == init && q[..|q| - 1] == init;
    if |init| == 0 {
      assert |p| == 1 && p[0] == part + [x];
    }
  }

  /** `s.split(c).pop()`: the last part, never undefined because `split` always yields one part. */
  function LastPart(s: string, c: char): string {
    var parts := Split(s, c);
    parts[|parts| - 1]
  }

  /** The last part is the longest suffix of `s` free of `c`: it is all of `s` when `c` does
      not occur, and otherwise it starts right after the last `c`. */
  lemma {:induction false} LastPartIsSuffix(s: string, c: char)
    ensures var r := LastPart(s, c);
      && |r| <= |s| && s[|s| - |r|..] == r && c !in r
      && (c in s <==> |r| < |s|)
      && (|r| < |s| ==> s[|s| - |r| - 1] == c)
  {
    if s != [] {
      var t := s[..|s| - 1];
      LastPartIsSuffix(t, c);
      var last := s[|s| - 1];
      assert s == t + [last];
      var init := Split(t, c);
      if last != c {
        var k := |init| - 1;
        assert Split(s, c) == init[..k] + [init[k] + [last]];
        assert LastPart(s, c) == LastPart(t, c) + [last];
      } else {
        assert Split(s, c) == init + [[]];
      }
    }
  }

  /** Decimal digits. */
  function DigitChar(d: nat): char
    requires d < 10
  {
    "0123456789"[d]
  }

  predicate IsDigit(ch: char) {
    '0' <= ch <= '9'
  }

  function DigitValue(ch: char): nat
    requires IsDigit(ch)
  {
    ch as int - '0' as int
  }

  /** `String(n)` for a non-negative integer: shortest decimal rendering. */
  function NatToString(n: nat): (s: string)
    ensures |s| >= 1 && forall i :: 0 <= i < |s| ==> IsDigit(s[i])
    ensures |s| > 1 ==> s[0] != '0'
  {
    if n < 10 then [DigitChar(n)] else NatToString(n / 10) + [DigitChar(n % 10)]
  }

  /** Value of a string of decimal digits. */
  function DigitsValue(s: string): nat
    requires forall i :: 0 <= i < |s| ==> IsDigit(s[i])
  {
    if s == [] then 0 else 10 * DigitsValue(s[..|s| - 1]) + DigitValue(s[|s| - 1])
  }

  lemma {:induction false} DigitsOfNat(n: nat)
    ensures DigitsValue(NatToString(n)) == n
  {
    if n >= 10 {
      DigitsOfNat(n / 10);
      var s := NatToString(n);
      assert s[..|s| - 1] == NatToString(n / 10);
    }
  }

  /** Decimal rendering is injective. */
  lemma NatToStringInjective(m: nat, n: nat)
    requires NatToString(m) == NatToString(n)
    ensures m == n
  {
    DigitsOfNat(m);
    DigitsOfNat(n);
  }

  /** The characters `String.prototype.trim` removes: white space and line terminators. */
  predicate IsWhitespace(ch: char) {
    || ch == '\t' || ch == '\n' || ch == '\r' || ch == '\U{000B}' || ch == '\U{000C}' || ch == ' '
    || ch == '\U{00A0}' || ch == '\U{1680}' || ('\U{2000}' <= ch <= '\U{200A}')
    || ch == '\U{2028}' || ch == '\U{2029}' || ch == '\U{202F}' || ch == '\U{205F}'
    || ch == '\U{3000}' || ch == '\U{FEFF}'
  }

  function TrimStart(s: string): string {
    if s != [] && IsWhitespace(s[0]) then TrimStart(s[1..]) else s
  }

  function TrimEnd(s: string): string {
    if s != [] && IsWhitespace(s[|s| - 1]) then TrimEnd(s[..|s| - 1]) else s
  }

  /** `s.trim()` */
  function Trim(s: string): string {
    TrimEnd(TrimStart(s))
  }

  predicate IsBlank(s: string) {
    forall i :: 0 <= i < |s| ==> IsWhitespace(s[i])
  }

  lemma {:induction false} TrimStartEmpty(s: string)
    ensures TrimStart(s) == [] <==> IsBlank(s)
  {
    if s != [] && IsWhitespace(s[0]) {
      TrimStartEmpty(s[1..]);
      assert IsBlank(s) <==> IsBlank(s[1..]) by {
        if IsBlank(s[1..]) {
          forall i | 0 <= i < |s| ensures IsWhitespace(s[i]) {
            if i > 0 { assert s[i] == s[1..][i - 1]; }
          }
        }
      }
    }
  }

  lemma {:induction false} TrimEndEmptyOnlyIfEmpty(s: string)
    requires s == [] || !IsWhitespace(s[0])
    ensures TrimEnd(s) == [] <==> s == []
  {
    if s != [] && IsWhitespace(s[|s| - 1]) {
      assert |s| >= 2;
      TrimEndEmptyOnlyIfEmpty(s[..|s| - 1]);
    }
  }

  /** `s.trim() === ''` exactly when `s` holds nothing but white space. */
  lemma TrimEmptyIffBlank(s: string)
    ensures Trim(s) == [] <==> IsBlank(s)
  {
    TrimStartEmpty(s);
    TrimStartFront(s);
    TrimEndEmptyOnlyIfEmpty(TrimStart(s));
  }

  lemma {:induction false} TrimStartFront(s: string)
    ensures TrimStart(s) == [] || !IsWhitespace(TrimStart(s)[0])
  {
    if s != [] && IsWhitespace(s[0]) {
      TrimStartFront(s[1..]);
    }
  }

  /** ASCII lower-casing, as applied to header names. */
  function LowerChar(ch: char): char {
    if 'A' <= ch <= 'Z' then (ch as int + 32) as char else ch
  }

  function ToLower(s: string): (r: string)
    ensures |r| == |s| && forall i :: 0 <= i < |s| ==> r[i] == LowerChar(s[i])
  {
    if s == [] then [] else [LowerChar(s[0])] + ToLower(s[1..])
  }
}
