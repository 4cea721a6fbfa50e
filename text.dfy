/** String helpers with the meaning the JavaScript built-ins give them on the
    inputs the pages feed them: `toLowerCase`/`toUpperCase` (on ASCII letters),
    `trim`, `includes`, `replace(/c/g, d)`, the `<`/`>` order of strings and the
    decimal text of a status code. */
module Text {

  /* ---------------- case mapping (ASCII letters only) ---------------- */

  function LowerChar(c: char): char {
    if 'A' <= c <= 'Z' then (c as int + 32) as char else c
  }

  /** `s.toUpperCase()` on one character, as `charAt(0).toUpperCase()` uses it. */
  function UpperChar(c: char): char {
    if 'a' <= c <= 'z' then (c as int - 32) as char else c
  }

  /** `s.toLowerCase()` */
  function Lower(s: string): string {
    seq(|s|, i requires 0 <= i < |s| => LowerChar(s[i]))
  }

  /** Upper-casing a character twice is upper-casing it once. */
  lemma UpperCharIdempotent(c: char)
    ensures UpperChar(UpperChar(c)) == UpperChar(c)
  {
  }

  /** `s.replace(/a/g, b)` for single characters `a` and `b`. */
  function ReplaceAll(s: string, a: char, b: char): string {
    seq(|s|, i requires 0 <= i < |s| => if s[i] == a then b else s[i])
  }

  /* ---------------- substring search ---------------- */

  predicate IsPrefix(t: string, s: string) {
    |t| <= |s| && s[..|t|] == t
  }

  /** `s.includes(t)`, scanning the start positions of `s` from left to right. */
  predicate Contains(s: string, t: string)
    decreases |s|
  {
    IsPrefix(t, s) || (|s| > 0 && Contains(s[1..], t))
  }

  /** `t` occurs in `s` starting at position `i`. */
  predicate OccursAt(s: string, t: string, i: int) {
    0 <= i <= |s| - |t| && s[i..i + |t|] == t
  }

  /** `includes` holds exactly when `t` occurs in `s` at some position. */
  lemma {:induction false} ContainsIffOccurs(s: string, t: string)
    ensures Contains(s, t) <==> exists i :: OccursAt(s, t, i)
    decreases |s|
  {
    if IsPrefix(t, s) {
      assert OccursAt(s, t, 0);
    } else if |s| == 0 {
      assert |t| > 0;
    } else {
      ContainsIffOccurs(s[1..], t);
      if Contains(s[1..], t) {
        var i :| OccursAt(s[1..], t, i);
        assert s[1..][i..i + |t|] == s[i + 1..i + 1 + |t|];
        assert OccursAt(s, t, i + 1);
      } else {
        forall i ensures !OccursAt(s, t, i) {
          if 0 < i <= |s| - |t| {
            TailSlice(s, i, |t|);
            assert !OccursAt(s[1..], t, i - 1);
          } else if i == 0 && |t| <= |s| {
            assert s[i..i + |t|] == s[..|t|];
          }
        }
      }
    }
  }

  /** A slice of `s` away from its head is the matching slice of its tail. */
  lemma TailSlice(s: string, i: int, n: nat)
    requires 0 < i && i + n <= |s|
    ensures s[i..i + n] == s[1..][i - 1..i - 1 + n]
  {
    var a, b := s[i..i + n], s[1..][i - 1..i - 1 + n];
    forall k | 0 <= k < n ensures a[k] == b[k] {
      assert a[k] == s[i + k];
      assert b[k] == s[1..][i - 1 + k] == s[i + k];
    }
  }

  /** Every string includes the empty string. */
  lemma ContainsEmpty(s: string)
    ensures Contains(s, [])
  {
    assert IsPrefix([], s);
  }

  /* ---------------- String.prototype.trim ---------------- */

  /** The characters `trim` removes: ECMAScript WhiteSpace (tab, vertical tab,
      form feed, the byte order mark and every space separator) and
      LineTerminator (line feed, carriage return, U+2028, U+2029). */
  predicate IsJsWhitespace(c: char) {
    c == '\t' || c == '\n' || c == '\U{000B}' || c == '\U{000C}' || c == '\r'
    || c == ' ' || c == '\U{00A0}' || c == '\U{1680}'
    || ('\U{2000}' <= c <= '\U{200A}')
    || c == '\U{2028}' || c == '\U{2029}' || c == '\U{202F}' || c == '\U{205F}'
    || c == '\U{3000}' || c == '\U{FEFF}'
  }

  function TrimStart(s: string): string
    decreases |s|
  {
    if s != [] && IsJsWhitespace(s[0]) then TrimStart(s[1..]) else s
  }

  function TrimEnd(s: string): string
    decreases |s|
  {
    if s != [] && IsJsWhitespace(s[|s| - 1]) then TrimEnd(s[..|s| - 1]) else s
  }

  /** `s.trim()` */
  function Trim(s: string): string {
    TrimEnd(TrimStart(s))
  }

  /** Every character is whitespace (the empty string included). */
  predicate IsBlank(s: string) {
    forall i :: 0 <= i < |s| ==> IsJsWhitespace(s[i])
  }

  lemma {:induction false} TrimEndEmptyIffBlank(s: string)
    ensures TrimEnd(s) == [] <==> IsBlank(s)
    decreases |s|
  {
    if s != [] {
      var n := |s| - 1;
      if IsJsWhitespace(s[n]) {
        TrimEndEmptyIffBlank(s[..n]);
        assert IsBlank(s) <==> IsBlank(s[..n]) by {
          if IsBlank(s[..n]) {
            forall i | 0 <= i < |s| ensures IsJsWhitespace(s[i]) {
              if i < n { assert s[i] == s[..n][i]; }
            }
          }
        }
      } else {
        assert !IsJsWhitespace(s[n]);
      }
    }
  }

  lemma {:induction false} TrimStartKeepsSuffix(s: string)
    ensures exists k :: 0 <= k <= |s| && TrimStart(s) == s[k..] && IsBlank(s[..k])
    decreases |s|
  {
    if s != [] && IsJsWhitespace(s[0]) {
      TrimStartKeepsSuffix(s[1..]);
      var k :| 0 <= k <= |s[1..]| && TrimStart(s[1..]) == s[1..][k..] && IsBlank(s[1..][..k]);
      assert s[1..][k..] == s[k + 1..];
      var pre := s[..k + 1];
      forall i | 0 <= i < |pre| ensures IsJsWhitespace(pre[i]) {
        if i > 0 { assert pre[i] == s[1..][..k][i - 1]; }
      }
    } else {
      assert TrimStart(s) == s[0..];
    }
  }

  /** `!s.trim()` holds, i.e. the trimmed string is empty, exactly when every
      character of `s` is whitespace. */
  lemma TrimEmptyIffBlank(s: string)
    ensures Trim(s) == [] <==> IsBlank(s)
  {
    TrimStartKeepsSuffix(s);
    var k :| 0 <= k <= |s| && TrimStart(s) == s[k..] && IsBlank(s[..k]);
    TrimEndEmptyIffBlank(s[k..]);
    assert IsBlank(s) <==> IsBlank(s[k..]) by {
      if IsBlank(s[k..]) {
        forall i | 0 <= i < |s| ensures IsJsWhitespace(s[i]) {
          if i < k { assert s[i] == s[..k][i]; } else { assert s[i] == s[k..][i - k]; }
        }
      }
    }
  }

  /* ---------------- lexicographic order (`<` on strings) ---------------- */

  /** `a <= b` on JavaScript strings: the first differing character decides,
      and a proper prefix comes first. */
  predicate StrLe(a: string, b: string)
    decreases |a|
  {
    if a == [] then true
    else if b == [] then false
    else if a[0] != b[0] then a[0] < b[0]
    else StrLe(a[1..], b[1..])
  }

  lemma {:induction false} StrLeTotal(a: string, b: string)
    ensures StrLe(a, b) || StrLe(b, a)
    decreases |a|
  {
    if a != [] && b != [] && a[0] == b[0] {
      StrLeTotal(a[1..], b[1..]);
    }
  }

  lemma {:induction false} StrLeAntisymmetric(a: string, b: string)
    requires StrLe(a, b) && StrLe(b, a)
    ensures a == b
    decreases |a|
  {
    if a != [] && b != [] {
      StrLeAntisymmetric(a[1..], b[1..]);
      assert a == [a[0]] + a[1..] && b == [b[0]] + b[1..];
    }
  }

  lemma {:induction false} StrLeTransitive(a: string, b: string, c: string)
    requires StrLe(a, b) && StrLe(b, c)
    ensures StrLe(a, c)
    decreases |a|
  {
    if a != [] && b != [] && c != [] && a[0] == b[0] && b[0] == c[0] {
      StrLeTransitive(a[1..], b[1..], c[1..]);
    }
  }

  /* ---------------- decimal text of a natural number ---------------- */

  function DigitChar(d: nat): char
    requires d < 10
  {
    ('0' as int + d) as char
  }

  /** The decimal text JavaScript gives a non-negative integer,
      as in `` `Server error: ${res.status}` ``. */
  function NatToString(n: nat): (r: string)
    ensures |r| >= 1
    ensures forall i :: 0 <= i < |r| ==> '0' <= r[i] <= '9'
    decreases n
  {
    if n < 10 then [DigitChar(n)] else NatToString(n / 10) + [DigitChar(n % 10)]
  }

  /** Reads a string of decimal digits back; `None` when it is empty or holds
      anything but digits. */
  function ParseNat(s: string): Option<nat>
    decreases |s|
  {
    if s == [] then None
    else if !('0' <= s[|s| - 1] <= '9') then None
    else if |s| == 1 then Some(s[0] as int - '0' as int)
    else match ParseNat(s[..|s| - 1])
      case None => None
      case Some(m) => Some(m * 10 + (s[|s| - 1] as int - '0' as int))
  }

  /** The decimal text of a number reads back as that number, so the text
      determines the number. */
  lemma {:induction false} ParseNatToString(n: nat)
    ensures ParseNat(NatToString(n)) == Some(n)
    decreases n
  {
    if n >= 10 {
      var s := NatToString(n);
      ParseNatToString(n / 10);
      assert s[..|s| - 1] == NatToString(n / 10);
    }
  }

  import opened Wrappers
}
