/**
 * The string operations the game relies on: JavaScript's `String.prototype.trim`,
 * `toLowerCase` (on ASCII letters), decimal rendering of non-negative integers and
 * `padStart`.
 */
module Text {

  /** The characters `trim` strips: ECMAScript WhiteSpace and LineTerminator. */
  predicate IsTrimmable(c: char) {
    c == '\t' || c == '\n' || c == '\U{000B}' || c == '\U{000C}' || c == '\r' || c == ' '
    || c == '\U{00A0}' || c == '\U{1680}' || ('\U{2000}' <= c <= '\U{200A}')
    || c == '\U{2028}' || c == '\U{2029}' || c == '\U{202F}' || c == '\U{205F}'
    || c == '\U{3000}' || c == '\U{FEFF}'
  }

  predicate AllTrimmable(s: string) {
    forall i :: 0 <= i < |s| ==> IsTrimmable(s[i])
  }

  /** No trimmable character at either end. */
  predicate IsTrimmed(s: string) {
    s == [] || (!IsTrimmable(s[0]) && !IsTrimmable(s[|s| - 1]))
  }

  /** Where the text kept by `trimStart` begins, scanning from `i`: `|s|` if nothing is kept. */
  function KeptFrom(s: string, i: nat): (k: nat)
    requires i <= |s|
    ensures i <= k <= |s| && AllTrimmable(s[i..k])
    ensures k == |s| || !IsTrimmable(s[k])
    decreases |s| - i
  {
    if i < |s| && IsTrimmable(s[i]) then
      var k := KeptFrom(s, i + 1);
      assert s[i..k] == [s[i]] + s[i + 1..k];
      k
    else i
  }

  /** Where the text kept by `trimEnd` ends, scanning back from `j`: 0 if nothing is kept. */
  function KeptUntil(s: string, j: nat): (k: nat)
    requires j <= |s|
    ensures k <= j && AllTrimmable(s[k..j])
    ensures k == 0 || !IsTrimmable(s[k - 1])
  {
    if j > 0 && IsTrimmable(s[j - 1]) then
      var k := KeptUntil(s, j - 1);
      assert s[k..j] == s[k..j - 1] + [s[j - 1]];
      k
    else j
  }

  /** `s.trimStart()`: drops the longest trimmable prefix. */
  function TrimStart(s: string): (r: string)
    ensures |r| <= |s| && r == s[|s| - |r|..]
    ensures AllTrimmable(s[..|s| - |r|])
    ensures r == [] || !IsTrimmable(r[0])
  {
    s[KeptFrom(s, 0)..]
  }

  /** `s.trimEnd()`: drops the longest trimmable suffix. */
  function TrimEnd(s: string): (r: string)
    ensures |r| <= |s| && r == s[..|r|]
    ensures AllTrimmable(s[|r|..])
    ensures r == [] || !IsTrimmable(r[|r| - 1])
  {
    s[..KeptUntil(s, |s|)]
  }

  /** `s.trim()`: what is left once both trimmable ends are gone. */
  function Trim(s: string): (r: string)
    ensures |r| <= |s| && IsTrimmed(r)
  {
    var r := TrimEnd(TrimStart(s));
    assert r != [] ==> r[0] == TrimStart(s)[0];
    r
  }

  /** `Trim(s)` is the slice of `s` between a trimmable prefix and a trimmable suffix. */
  lemma TrimSlice(s: string) returns (pre: string, post: string)
    ensures s == pre + Trim(s) + post
    ensures AllTrimmable(pre) && AllTrimmable(post)
  {
    var t := TrimStart(s);
    var r := TrimEnd(t);
    pre := SplitStart(s);
    post := SplitEnd(t);
    Regroup(s, pre, t, r, post);
  }

  lemma Regroup(s: string, pre: string, t: string, r: string, post: string)
    requires s == pre + t && t == r + post
    ensures s == pre + r + post
  {
  }

  lemma SplitStart(s: string) returns (pre: string)
    ensures s == pre + TrimStart(s) && AllTrimmable(pre)
  {
    pre := s[..|s| - |TrimStart(s)|];
    assert s == pre + s[|s| - |TrimStart(s)|..];
  }

  lemma SplitEnd(t: string) returns (post: string)
    ensures t == TrimEnd(t) + post && AllTrimmable(post)
  {
    post := t[|TrimEnd(t)|..];
    assert t == t[..|TrimEnd(t)|] + post;
  }

  lemma AllTrimmableTrimStart(s: string)
    requires AllTrimmable(s)
    ensures TrimStart(s) == []
  {
  }

  /** Trimming a word wrapped in whitespace gives the word back. */
  lemma {:induction false} TrimPadded(pre: string, w: string, post: string)
    requires AllTrimmable(pre) && AllTrimmable(post) && IsTrimmed(w)
    ensures Trim(pre + w + post) == w
  {
    assert pre + w + post == pre + (w + post);
    if w == [] {
      assert AllTrimmable(pre + w + post);
      AllTrimmableTrimStart(pre + w + post);
    } else {
      assert (w + post)[0] == w[0];
      TrimStartPadded(pre, w + post);
      TrimEndPadded(w, post);
    }
  }

  lemma TrimStartPadded(pre: string, rest: string)
    requires AllTrimmable(pre)
    requires rest == [] || !IsTrimmable(rest[0])
    ensures TrimStart(pre + rest) == rest
  {
    var s := pre + rest;
    assert s[0..|pre|] == pre;
    assert rest != [] ==> s[|pre|] == rest[0];
    KeptFromAt(s, 0, |pre|);
    assert s[|pre|..] == rest;
  }

  lemma TrimEndPadded(w: string, post: string)
    requires AllTrimmable(post)
    requires w == [] || !IsTrimmable(w[|w| - 1])
    ensures TrimEnd(w + post) == w
  {
    var s := w + post;
    assert s[|w|..|s|] == post;
    assert w != [] ==> s[|w| - 1] == w[|w| - 1];
    KeptUntilAt(s, |s|, |w|);
    assert s[..|w|] == w;
  }

  /** The scan forward from `i` stops at the first character that is not trimmable. */
  lemma {:induction false} KeptFromAt(s: string, i: nat, n: nat)
    requires i <= n <= |s| && AllTrimmable(s[i..n])
    requires n == |s| || !IsTrimmable(s[n])
    ensures KeptFrom(s, i) == n
    decreases n - i
  {
    if i < n {
      assert s[i] == s[i..n][0];
      assert s[i + 1..n] == s[i..n][1..];
      KeptFromAt(s, i + 1, n);
    }
  }

  /** The scan back from `j` stops just after the last character that is not trimmable. */
  lemma {:induction false} KeptUntilAt(s: string, j: nat, n: nat)
    requires n <= j <= |s| && AllTrimmable(s[n..j])
    requires n == 0 || !IsTrimmable(s[n - 1])
    ensures KeptUntil(s, j) == n
    decreases j
  {
    if n < j {
      assert s[j - 1] == s[n..j][j - 1 - n];
      assert s[n..j - 1] == s[n..j][..j - 1 - n];
      KeptUntilAt(s, j - 1, n);
    }
  }

  /** Trimming twice is trimming once. */
  lemma TrimIdempotent(s: string)
    ensures Trim(Trim(s)) == Trim(s)
  {
    var w := Trim(s);
    assert [] + w + [] == w;
    TrimPadded([], w, []);
  }

  /** The ASCII part of `toLowerCase`. */
  function LowerChar(c: char): char {
    if 'A' <= c <= 'Z' then (c as int + 32) as char else c
  }

  /** `s.toLowerCase()` on ASCII letters, character by character. */
  function ToLower(s: string): (r: string)
    ensures |r| == |s|
    ensures forall i :: 0 <= i < |s| ==> r[i] == LowerChar(s[i])
  {
    if s == [] then [] else [LowerChar(s[0])] + ToLower(s[1..])
  }

  /** Lower-casing leaves no upper-case ASCII letter and changes nothing further when repeated. */
  lemma ToLowerIdempotent(s: string)
    ensures ToLower(ToLower(s)) == ToLower(s)
    ensures forall i :: 0 <= i < |s| ==> !('A' <= ToLower(s)[i] <= 'Z')
  {
    var r := ToLower(s);
    assert forall i :: 0 <= i < |r| ==> ToLower(r)[i] == r[i];
  }

  /** Lower-casing and trimming commute, since no whitespace is a letter. */
  lemma ToLowerTrim(s: string)
    ensures ToLower(Trim(s)) == Trim(ToLower(s))
  {
    var pre, post := TrimSlice(s);
    ToLowerPadded(pre, Trim(s), post);
  }

  lemma ToLowerPadded(pre: string, w: string, post: string)
    requires AllTrimmable(pre) && AllTrimmable(post) && IsTrimmed(w)
    ensures Trim(ToLower(pre + w + post)) == ToLower(w)
  {
    ToLowerAppend(pre + w, post);
    ToLowerAppend(pre, w);
    ToLowerKeepsTrimmable(pre);
    ToLowerKeepsTrimmable(post);
    ToLowerKeepsTrimmed(w);
    TrimPadded(pre, ToLower(w), post);
  }

  lemma ToLowerKeepsTrimmed(w: string)
    requires IsTrimmed(w)
    ensures IsTrimmed(ToLower(w))
  {
    if w != [] {
      LowerCharTrimmable(w[0]);
      LowerCharTrimmable(w[|w| - 1]);
    }
  }

  lemma LowerCharTrimmable(c: char)
    ensures IsTrimmable(LowerChar(c)) <==> IsTrimmable(c)
  {
  }

  lemma {:induction false} ToLowerAppend(a: string, b: string)
    ensures ToLower(a + b) == ToLower(a) + ToLower(b)
  {
  }

  lemma ToLowerKeepsTrimmable(s: string)
    requires AllTrimmable(s)
    ensures ToLower(s) == s
  {
  }

  /** Case-insensitive comparison as the typed-answer check does it. */
  predicate EqualsIgnoringCase(a: string, b: string) {
    ToLower(a) == ToLower(b)
  }

  predicate IsDigit(c: char) {
    '0' <= c <= '9'
  }

  predicate AllDigits(s: string) {
    forall i :: 0 <= i < |s| ==> IsDigit(s[i])
  }

  function DigitChar(d: nat): char
    requires d < 10
  {
    ('0' as int + d) as char
  }

  /** `String(n)` for a non-negative integer: decimal digits, no leading zero. */
  function NatToString(n: nat): (r: string)
    ensures |r| >= 1 && AllDigits(r)
    ensures |r| == 1 || r[0] != '0'
  {
    if n < 10 then [DigitChar(n)] else NatToString(n / 10) + [DigitChar(n % 10)]
  }

  /** The number a string of decimal digits denotes. */
  function DigitsValue(s: string): nat
    requires AllDigits(s)
  {
    if s == [] then 0 else DigitsValue(s[..|s| - 1]) * 10 + (s[|s| - 1] as int - '0' as int)
  }

  /** Reading back a rendered number gives the number. */
  lemma {:induction false} NatToStringValue(n: nat)
    ensures DigitsValue(NatToString(n)) == n
  {
    if n >= 10 {
      var r := NatToString(n);
      assert r[..|r| - 1] == NatToString(n / 10);
      NatToStringValue(n / 10);
    }
  }

  /** Different numbers render differently. */
  lemma NatToStringInjective(m: nat, n: nat)
    requires NatToString(m) == NatToString(n)
    ensures m == n
  {
    NatToStringValue(m);
    NatToStringValue(n);
  }

  /** `s.padStart(width, fill)` for a one-character fill. */
  function PadStart(s: string, width: nat, fill: char): (r: string)
    ensures |r| == if |s| < width then width else |s|
    ensures r[|r| - |s|..] == s
    ensures forall i :: 0 <= i < |r| - |s| ==> r[i] == fill
  {
    if |s| < width then seq(width - |s|, _ => fill) + s else s
  }
}
