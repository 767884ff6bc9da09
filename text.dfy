/**
 * The Python string primitives the pipeline relies on, over Dafny strings
 * (sequences of Unicode scalar values): whitespace and `strip`, case mapping,
 * substring search (`in`, `find`), slicing, `join` and the decimal rendering
 * of a natural number (`str(n)`, `f"{n}"`).
 */
module Text {
  import opened Wrappers

  /** Python's `str.isspace()`: what `str.strip()` removes and what the regex class `\s` matches. */
  predicate IsSpace(c: char) {
    var n := c as int;
    n == 0x20 || 0x09 <= n <= 0x0D || 0x1C <= n <= 0x1F || n == 0x85 || n == 0xA0 || n == 0x1680
    || 0x2000 <= n <= 0x200A || n == 0x2028 || n == 0x2029 || n == 0x202F || n == 0x205F || n == 0x3000
  }

  predicate AllSpace(s: string) {
    forall i :: 0 <= i < |s| ==> IsSpace(s[i])
  }

  predicate NoSpace(s: string) {
    forall i :: 0 <= i < |s| ==> !IsSpace(s[i])
  }

  /** `s.lstrip()`: drops the leading whitespace and nothing else. */
  /** The number of leading whitespace characters. */
  function Indent(s: string): (n: nat)
    ensures n <= |s|
    decreases |s|
  {
    if s != [] && IsSpace(s[0]) then 1 + Indent(s[1..]) else 0
  }

  function TrimStart(s: string): (r: string)
    ensures |r| <= |s|
    decreases |s|
  {
    if s != [] && IsSpace(s[0]) then TrimStart(s[1..]) else s
  }

  /** `lstrip` removes exactly the leading whitespace and stops at the first other character. */
  lemma {:induction false} TrimStartFacts(s: string)
    ensures TrimStart(s) == s[Indent(s)..]
    ensures TrimStart(s) == [] || !IsSpace(TrimStart(s)[0])
    ensures AllSpace(s[..Indent(s)])
    decreases |s|
  {
    if s != [] && IsSpace(s[0]) {
      TrimStartFacts(s[1..]);
      assert s[..Indent(s)] == [s[0]] + s[1..][..Indent(s[1..])];
      assert s[1..][Indent(s[1..])..] == s[Indent(s)..];
    }
  }

  /** The number of trailing whitespace characters. */
  function Trailing(s: string): (n: nat)
    ensures n <= |s|
    decreases |s|
  {
    if s != [] && IsSpace(s[|s| - 1]) then 1 + Trailing(s[..|s| - 1]) else 0
  }

  /** `s.rstrip()`: drops the trailing whitespace and nothing else. */
  function TrimEnd(s: string): (r: string)
    ensures |r| <= |s|
    decreases |s|
  {
    if s != [] && IsSpace(s[|s| - 1]) then TrimEnd(s[..|s| - 1]) else s
  }

  /** `rstrip` removes exactly the trailing whitespace and stops at the last other character. */
  lemma {:induction false} TrimEndFacts(s: string)
    ensures TrimEnd(s) == s[..|s| - Trailing(s)]
    ensures TrimEnd(s) == [] || !IsSpace(TrimEnd(s)[|TrimEnd(s)| - 1])
    ensures AllSpace(s[|s| - Trailing(s)..])
    decreases |s|
  {
    if s != [] && IsSpace(s[|s| - 1]) {
      var n := |s| - 1;
      TrimEndFacts(s[..n]);
      assert s[..n][..n - Trailing(s[..n])] == s[..|s| - Trailing(s)];
      assert s[|s| - Trailing(s)..] == s[..n][n - Trailing(s[..n])..] + [s[n]];
    }
  }

  /** `s.strip()`. */
  function Strip(s: string): (r: string)
    ensures |r| <= |s|
  {
    TrimEnd(TrimStart(s))
  }

  /** What `strip` leaves neither starts nor ends with whitespace, and is a slice of its input. */
  lemma StripFacts(s: string)
    ensures Strip(s) == [] || (!IsSpace(Strip(s)[0]) && !IsSpace(Strip(s)[|Strip(s)| - 1]))
  {
    TrimStartFacts(s);
    TrimEndFacts(TrimStart(s));
  }

  /** Text that neither starts nor ends with whitespace is its own strip. */
  lemma StripUnpadded(s: string)
    requires s == [] || (!IsSpace(s[0]) && !IsSpace(s[|s| - 1]))
    ensures Strip(s) == s
  {
    assert TrimStart(s) == s;
  }

  lemma {:induction false} TrimStartSkipsSpaces(pre: string, s: string)
    requires AllSpace(pre)
    ensures TrimStart(pre + s) == TrimStart(s)
    decreases |pre|
  {
    if pre != [] {
      assert (pre + s)[1..] == pre[1..] + s;
      TrimStartSkipsSpaces(pre[1..], s);
    } else {
      assert pre + s == s;
    }
  }

  lemma {:induction false} TrimEndSkipsSpaces(s: string, post: string)
    requires AllSpace(post)
    ensures TrimEnd(s + post) == TrimEnd(s)
    decreases |post|
  {
    if post != [] {
      var n := |post| - 1;
      assert (s + post)[..|s + post| - 1] == s + post[..n];
      TrimEndSkipsSpaces(s, post[..n]);
    } else {
      assert s + post == s;
    }
  }

  lemma {:induction false} TrimStartAppend(s: string, t: string)
    ensures TrimStart(s) != [] ==> TrimStart(s + t) == TrimStart(s) + t
    ensures TrimStart(s) == [] ==> TrimStart(s + t) == TrimStart(t)
    decreases |s|
  {
    if s == [] {
      assert s + t == t;
    } else if IsSpace(s[0]) {
      assert (s + t)[1..] == s[1..] + t;
      TrimStartAppend(s[1..], t);
    }
  }

  /** Surrounding whitespace does not change the stripped text. */
  lemma StripOfPadded(pre: string, s: string, post: string)
    requires AllSpace(pre) && AllSpace(post)
    ensures Strip(pre + s + post) == Strip(s)
  {
    assert pre + s + post == pre + (s + post);
    TrimStartSkipsSpaces(pre, s + post);
    TrimStartAppend(s, post);
    if TrimStart(s) != [] {
      TrimEndSkipsSpaces(TrimStart(s), post);
    } else {
      TrimStartFacts(s);
      TrimStartFacts(post);
      assert TrimStart(post) == [];
    }
  }

  /** When `s` starts with a non-space, stripping keeps every character up to its last non-space. */
  lemma StripKeepsPrefix(s: string, k: nat)
    requires 0 < k <= |s| && !IsSpace(s[0]) && !IsSpace(s[k - 1])
    ensures k <= |Strip(s)| && Strip(s)[..k] == s[..k]
  {
    assert TrimStart(s) == s;
    TrimEndFacts(s);
  }

  /** Applies a character map to every character. */
  function MapChars(f: char -> char, s: string): string {
    seq(|s|, i requires 0 <= i < |s| => f(s[i]))
  }

  lemma {:induction false} MapCharsConcat(f: char -> char, a: string, b: string)
    ensures MapChars(f, a + b) == MapChars(f, a) + MapChars(f, b)
  {
  }

  /** A character map that never turns a space into a non-space or back commutes with `strip`. */
  lemma {:induction false} StripCommutes(f: char -> char, s: string)
    requires forall c :: IsSpace(f(c)) <==> IsSpace(c)
    ensures Strip(MapChars(f, s)) == MapChars(f, Strip(s))
  {
    TrimStartCommutes(f, s);
    TrimEndCommutes(f, TrimStart(s));
  }

  lemma {:induction false} TrimStartCommutes(f: char -> char, s: string)
    requires forall c :: IsSpace(f(c)) <==> IsSpace(c)
    ensures TrimStart(MapChars(f, s)) == MapChars(f, TrimStart(s))
    decreases |s|
  {
    if s != [] {
      assert MapChars(f, s)[1..] == MapChars(f, s[1..]);
      TrimStartCommutes(f, s[1..]);
    }
  }

  lemma {:induction false} TrimEndCommutes(f: char -> char, s: string)
    requires forall c :: IsSpace(f(c)) <==> IsSpace(c)
    ensures TrimEnd(MapChars(f, s)) == MapChars(f, TrimEnd(s))
    decreases |s|
  {
    if s != [] {
      assert MapChars(f, s)[..|s| - 1] == MapChars(f, s[..|s| - 1]);
      TrimEndCommutes(f, s[..|s| - 1]);
    }
  }

  /**
   * `str.upper()` on one character. Python maps every cased character of Unicode;
   * this model maps the ASCII letters, the Latin-1 letters and the Vietnamese
   * letters (Ă Đ Ĩ Ũ Ơ Ư and the block U+1EA0-U+1EF9) and leaves the rest alone.
   * Of Latin-1, `µ` goes to U+039C and `ÿ` to U+0178, as in Python; `ß`, which
   * Python upper-cases to the two characters `SS`, is left as it is.
   */
  function UpperChar(c: char): char {
    var n := c as int;
    if 'a' <= c <= 'z' || (0xE0 <= n <= 0xFE && n != 0xF7) then (n - 32) as char
    else if n == 0xB5 then 0x39C as char
    else if n == 0xFF then 0x178 as char
    else if n == 0x103 || n == 0x111 || n == 0x129 || n == 0x169 || n == 0x1A1
         || (0x1EA1 <= n <= 0x1EF9 && n % 2 == 1) then (n - 1) as char
    else if n == 0x1B0 then 0x1AF as char
    else c
  }

  /** `str.lower()` on one character, over the same letters as UpperChar (U+0178 included). */
  function LowerChar(c: char): char {
    var n := c as int;
    if 'A' <= c <= 'Z' || (0xC0 <= n <= 0xDE && n != 0xD7) then (n + 32) as char
    else if n == 0x178 then 0xFF as char
    else if n == 0x102 || n == 0x110 || n == 0x128 || n == 0x168 || n == 0x1A0
         || (0x1EA0 <= n <= 0x1EF8 && n % 2 == 0) then (n + 1) as char
    else if n == 0x1AF then 0x1B0 as char
    else c
  }

  function Upper(s: string): string {
    MapChars(UpperChar, s)
  }

  function Lower(s: string): string {
    MapChars(LowerChar, s)
  }

  /** Upper-casing after lower-casing is upper-casing, and neither mapping touches whitespace. */
  lemma CaseMapsAgree(c: char)
    ensures UpperChar(LowerChar(c)) == UpperChar(c)
    ensures IsSpace(UpperChar(c)) <==> IsSpace(c)
    ensures IsSpace(LowerChar(c)) <==> IsSpace(c)
  {
  }

  /** ASCII text without lower-case letters is its own upper-case form. */
  lemma UpperKeepsAsciiUpper(s: string)
    requires forall i :: 0 <= i < |s| ==> s[i] as int < 0x80 && !('a' <= s[i] <= 'z')
    ensures Upper(s) == s
  {
    forall i | 0 <= i < |s|
      ensures Upper(s)[i] == s[i]
    {
      var n := s[i] as int;
      assert !('a' <= s[i] <= 'z') && n < 0x80;
      assert UpperChar(s[i]) == s[i];
    }
  }

  /** `pat` occurs in `s` starting at index `i`. */
  predicate MatchAt(s: string, pat: string, i: int) {
    0 <= i && i + |pat| <= |s| && s[i..i + |pat|] == pat
  }

  /** `s.find(pat, from)`: the first occurrence of `pat` at or after `from`. */
  function IndexOf(s: string, pat: string, from: nat): (r: Option<nat>)
    ensures r.Some? ==> from <= r.value && MatchAt(s, pat, r.value)
    ensures forall j :: from <= j && (r.None? || j < r.value) ==> !MatchAt(s, pat, j)
    decreases |s| - from
  {
    if from + |pat| > |s| then None
    else if s[from..from + |pat|] == pat then Some(from)
    else IndexOf(s, pat, from + 1)
  }

  /** Python's `pat in s`. */
  function Contains(s: string, pat: string): (r: bool)
    ensures r <==> exists j :: MatchAt(s, pat, j)
  {
    IndexOf(s, pat, 0).Some?
  }

  lemma MatchInSlice(s: string, a: nat, b: nat, pat: string, j: int)
    requires a <= b <= |s| && MatchAt(s[a..b], pat, j)
    ensures MatchAt(s, pat, a + j)
  {
    forall k | 0 <= k < |pat|
      ensures s[a + j..a + j + |pat|][k] == pat[k]
    {
      assert s[a..b][j..j + |pat|][k] == pat[k];
    }
  }

  lemma MatchInsideSpaces(s: string, a: nat, b: nat, pat: string, j: int)
    requires a <= b <= |s| && AllSpace(s[..a]) && AllSpace(s[b..])
    requires pat != [] && NoSpace(pat)
    requires MatchAt(s, pat, j)
    ensures MatchAt(s[a..b], pat, j - a)
  {
    assert s[j] == pat[0];
    var e := j + |pat| - 1;
    assert s[e] == pat[|pat| - 1];
    assert a <= j && e < b;
    forall k | 0 <= k < |pat|
      ensures s[a..b][j - a..j - a + |pat|][k] == pat[k]
    {
      assert s[j..j + |pat|][k] == pat[k];
    }
  }

  /** Stripping never hides or creates an occurrence of a pattern that holds no whitespace. */
  lemma ContainsIgnoresPadding(s: string, pat: string)
    requires pat != [] && NoSpace(pat)
    ensures Contains(Strip(s), pat) <==> Contains(s, pat)
  {
    var t := TrimStart(s);
    var r := TrimEnd(t);
    TrimStartFacts(s);
    TrimEndFacts(t);
    var a := Indent(s);
    var b := a + |r|;
    assert r == s[a..b];
    assert s[b..] == t[|r|..];
    if Contains(Strip(s), pat) {
      var j :| MatchAt(r, pat, j);
      MatchInSlice(s, a, b, pat, j);
    }
    if Contains(s, pat) {
      var j :| MatchAt(s, pat, j);
      MatchInsideSpaces(s, a, b, pat, j);
    }
  }

  /** `s.startswith(p)`. */
  predicate StartsWith(s: string, p: string) {
    |p| <= |s| && s[..|p|] == p
  }

  /** The slice `s[:n]`. */
  function Take<T>(s: seq<T>, n: nat): (r: seq<T>)
    ensures |r| <= n && |r| <= |s| && r == s[..|r|]
    ensures |s| <= n ==> r == s
    ensures n <= |s| ==> |r| == n
  {
    if |s| <= n then s else s[..n]
  }

  /** The slice `s[-n:]` for `n > 0`: the last `n` elements, or all of them when there are fewer. */
  function Last<T>(s: seq<T>, n: nat): (r: seq<T>)
    ensures |r| <= n && |r| <= |s| && r == s[|s| - |r|..]
    ensures n <= |s| ==> |r| == n
  {
    if |s| <= n then s else s[|s| - n..]
  }

  /** `sep.join(parts)`. */
  function Join(sep: string, parts: seq<string>): string
    decreases |parts|
  {
    if parts == [] then ""
    else if |parts| == 1 then parts[0]
    else parts[0] + sep + Join(sep, parts[1..])
  }

  predicate IsDigit(c: char) {
    '0' <= c <= '9'
  }

  function DigitChar(d: nat): (c: char)
    requires d < 10
    ensures IsDigit(c)
  {
    (('0' as int) + d) as char
  }

  /** `str(n)` for a natural number: decimal digits, no sign, no leading zeros. */
  function NatToString(n: nat): (r: string)
    ensures r != [] && forall i :: 0 <= i < |r| ==> IsDigit(r[i])
    decreases n
  {
    if n < 10 then [DigitChar(n)] else NatToString(n / 10) + [DigitChar(n % 10)]
  }

  /** `int(s)` for a string of decimal digits. */
  function DigitsValue(s: string): nat
    requires forall i :: 0 <= i < |s| ==> IsDigit(s[i])
    decreases |s|
  {
    if s == [] then 0
    else
      var d := (s[|s| - 1] as int) - ('0' as int);
      assert IsDigit(s[|s| - 1]);
      DigitsValue(s[..|s| - 1]) * 10 + d
  }

  /** `int(str(n)) == n`. */
  lemma {:induction false} DigitsValueOfNatToString(n: nat)
    ensures DigitsValue(NatToString(n)) == n
    decreases n
  {
    if n >= 10 {
      DigitsValueOfNatToString(n / 10);
      var s := NatToString(n);
      assert s[..|s| - 1] == NatToString(n / 10);
    }
  }

  /** Distinct numbers render as distinct strings. */
  lemma NatToStringInjective(m: nat, n: nat)
    requires NatToString(m) == NatToString(n)
    ensures m == n
  {
    DigitsValueOfNatToString(m);
    DigitsValueOfNatToString(n);
  }
}
