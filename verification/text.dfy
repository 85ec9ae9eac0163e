/** Python string helpers the core relies on: `str.strip`, `str.lower`, `str.endswith`, and hexadecimal digits. */
module Text {

  /** The characters for which Python's `str.isspace()` holds; `str.strip()` removes exactly these. */
  predicate IsSpace(c: char) {
    || c == ' ' || ('\t' <= c <= '\r') || ('\U{1C}' <= c <= '\U{1F}')
    || c == '\U{85}' || c == '\U{A0}' || c == '\U{1680}'
    || ('\U{2000}' <= c <= '\U{200A}') || c == '\U{2028}' || c == '\U{2029}'
    || c == '\U{202F}' || c == '\U{205F}' || c == '\U{3000}'
  }

  predicate AllSpace(s: string) {
    forall i :: 0 <= i < |s| ==> IsSpace(s[i])
  }

  /** `s.lstrip()`: the longest suffix of `s` that does not start with whitespace. */
  function TrimStart(s: string): (r: string)
    ensures |r| <= |s| && r == s[|s| - |r|..]
    ensures AllSpace(s[..|s| - |r|])
    ensures r == [] || !IsSpace(r[0])
  {
    if |s| > 0 && IsSpace(s[0]) then
      var tail := s[1..];
      var r := TrimStart(tail);
      var n := |s| - |r|;
      assert tail[n - 1..] == s[n..];
      SpacePrefix(s, n);
      r
    else s
  }

  /** A space followed by `n - 1` spaces is a run of `n` spaces. */
  lemma SpacePrefix(s: string, n: nat)
    requires 0 < n <= |s| && IsSpace(s[0]) && AllSpace(s[1..][..n - 1])
    ensures AllSpace(s[..n])
  {
    var spaces := s[1..][..n - 1];
    forall i | 0 <= i < n ensures IsSpace(s[i]) {
      if i > 0 { assert s[i] == spaces[i - 1]; }
    }
  }

  /** `s.rstrip()`: the longest prefix of `s` that does not end with whitespace. */
  function TrimEnd(s: string): (r: string)
    ensures |r| <= |s| && r == s[..|r|]
    ensures AllSpace(s[|r|..])
    ensures r == [] || !IsSpace(r[|r| - 1])
  {
    if |s| > 0 && IsSpace(s[|s| - 1]) then
      var r := TrimEnd(s[..|s| - 1]);
      assert s[..|s| - 1][..|r|] == s[..|r|];
      assert AllSpace(s[|r|..]) by {
        forall i | |r| <= i < |s| ensures IsSpace(s[i]) {
          if i < |s| - 1 { assert s[i] == s[..|s| - 1][|r|..][i - |r|]; }
        }
      }
      r
    else s
  }

  /** `s.strip()`. */
  function Strip(s: string): (r: string)
    ensures |r| <= |s|
    ensures r == [] || (!IsSpace(r[0]) && !IsSpace(r[|r| - 1]))
  {
    TrimEnd(TrimStart(s))
  }

  /** Padding a word that neither starts nor ends with whitespace is undone by `strip`. */
  lemma {:induction false} StripPadded(p: string, w: string, q: string)
    requires AllSpace(p) && AllSpace(q)
    requires w == [] || (!IsSpace(w[0]) && !IsSpace(w[|w| - 1]))
    requires w != [] || q == []
    ensures Strip(p + w + q) == w
  {
    assert p + w + q == p + (w + q);
    if w == [] {
      assert w + q == [];
    } else {
      assert (w + q)[0] == w[0];
    }
    StartOfPadded(p, w + q);
    EndOfPadded(w, q);
  }

  lemma {:induction false} StartOfPadded(p: string, t: string)
    requires AllSpace(p)
    requires t == [] || !IsSpace(t[0])
    ensures TrimStart(p + t) == t
  {
    if p != [] {
      assert (p + t)[1..] == p[1..] + t;
      StartOfPadded(p[1..], t);
    } else {
      assert p + t == t;
    }
  }

  lemma {:induction false} EndOfPadded(t: string, q: string)
    requires AllSpace(q)
    requires t == [] || !IsSpace(t[|t| - 1])
    requires t != [] || q == []
    ensures TrimEnd(t + q) == t
  {
    if q != [] {
      assert (t + q)[..|t + q| - 1] == t + q[..|q| - 1];
      EndOfPadded(t, q[..|q| - 1]);
    } else {
      assert t + q == t;
    }
  }

  /** Stripping is idempotent. */
  lemma StripIdempotent(s: string)
    ensures Strip(Strip(s)) == Strip(s)
  {
    var r := Strip(s);
    StripPadded([], r, []);
    assert [] + r + [] == r;
  }

  /** `c.lower()` on the ASCII letters; every other character is left as it is. */
  function LowerChar(c: char): (r: char)
    ensures 'A' <= c <= 'Z' ==> 'a' <= r <= 'z'
    ensures !('A' <= c <= 'Z') ==> r == c
  {
    if 'A' <= c <= 'Z' then (c as int + 32) as char else c
  }

  function Lower(s: string): (r: string)
    ensures |r| == |s|
    ensures forall i :: 0 <= i < |s| ==> r[i] == LowerChar(s[i])
  {
    if s == [] then [] else Lower(s[..|s| - 1]) + [LowerChar(s[|s| - 1])]
  }

  /** `s.endswith(suffix)`. */
  predicate EndsWith(s: string, suffix: string) {
    |suffix| <= |s| && s[|s| - |suffix|..] == suffix
  }

  /** Python's ordering of strings: lexicographic by code point. */
  predicate StrLe(a: string, b: string) {
    if a == [] then true
    else if b == [] then false
    else if a[0] != b[0] then a[0] < b[0]
    else StrLe(a[1..], b[1..])
  }

  lemma {:induction false} StrLeTotal(a: string, b: string)
    ensures StrLe(a, b) || StrLe(b, a)
  {
    if a != [] && b != [] && a[0] == b[0] {
      StrLeTotal(a[1..], b[1..]);
    }
  }

  lemma {:induction false} StrLeTransitive(a: string, b: string, c: string)
    requires StrLe(a, b) && StrLe(b, c)
    ensures StrLe(a, c)
  {
    if a != [] && b != [] && c != [] && a[0] == b[0] && b[0] == c[0] {
      StrLeTransitive(a[1..], b[1..], c[1..]);
    }
  }

  lemma {:induction false} StrLeAntisymmetric(a: string, b: string)
    requires StrLe(a, b) && StrLe(b, a)
    ensures a == b
  {
    if a != [] && b != [] {
      StrLeAntisymmetric(a[1..], b[1..]);
      assert a == [a[0]] + a[1..];
      assert b == [b[0]] + b[1..];
    }
  }

  predicate StrSorted(s: seq<string>) {
    forall i, j :: 0 <= i < j < |s| ==> StrLe(s[i], s[j])
  }

  /** Insert `x` after every string that is at most `x`. */
  function InsertStr(s: seq<string>, x: string): (r: seq<string>)
    ensures |r| == |s| + 1
  {
    if s == [] then [x]
    else if StrLe(s[|s| - 1], x) then s + [x]
    else InsertStr(s[..|s| - 1], x) + [s[|s| - 1]]
  }

  /** `sorted(names)` for a list of strings (insertion sort from the back). */
  function SortStrings(s: seq<string>): (r: seq<string>)
    ensures |r| == |s|
  {
    if s == [] then [] else InsertStr(SortStrings(s[..|s| - 1]), s[|s| - 1])
  }

  /** Every string of `InsertStr(s, x)` is `x` or a string of `s`. */
  lemma {:induction false} InsertStrElements(s: seq<string>, x: string)
    ensures forall y :: y in InsertStr(s, x) ==> y == x || y in s
  {
    if s != [] && !StrLe(s[|s| - 1], x) {
      InsertStrElements(s[..|s| - 1], x);
    }
  }

  lemma {:induction false} InsertStrSorted(s: seq<string>, x: string)
    requires StrSorted(s)
    ensures StrSorted(InsertStr(s, x))
  {
    if s == [] {
    } else if StrLe(s[|s| - 1], x) {
      forall i | 0 <= i < |s| - 1 ensures StrLe(s[i], x) {
        StrLeTransitive(s[i], s[|s| - 1], x);
      }
    } else {
      var init := s[..|s| - 1];
      var last := s[|s| - 1];
      var r := InsertStr(init, x);
      InsertStrSorted(init, x);
      InsertStrElements(init, x);
      StrLeTotal(last, x);
      forall i | 0 <= i < |r| ensures StrLe(r[i], last) {
        assert r[i] in r;
        if r[i] != x {
          var j :| 0 <= j < |init| && init[j] == r[i];
        }
      }
    }
  }

  lemma {:induction false} InsertStrPermutes(s: seq<string>, x: string)
    ensures multiset(InsertStr(s, x)) == multiset(s) + multiset{x}
  {
    if s != [] && !StrLe(s[|s| - 1], x) {
      InsertStrPermutes(s[..|s| - 1], x);
      assert s[..|s| - 1] + [s[|s| - 1]] == s;
    }
  }

  /** `sorted` returns its input in order... */
  lemma {:induction false} SortStringsOrdered(s: seq<string>)
    ensures StrSorted(SortStrings(s))
  {
    if s != [] {
      SortStringsOrdered(s[..|s| - 1]);
      InsertStrSorted(SortStrings(s[..|s| - 1]), s[|s| - 1]);
    }
  }

  /** ...and is a permutation of it. */
  lemma {:induction false} SortStringsPermutes(s: seq<string>)
    ensures multiset(SortStrings(s)) == multiset(s)
  {
    if s != [] {
      var init := s[..|s| - 1];
      var last := s[|s| - 1];
      SortStringsPermutes(init);
      InsertStrPermutes(SortStrings(init), last);
      assert init + [last] == s;
    }
  }

  /** `sep.join(names)`. */
  function Join(names: seq<string>, sep: string): string {
    if names == [] then ""
    else if |names| == 1 then names[0]
    else Join(names[..|names| - 1], sep) + sep + names[|names| - 1]
  }

  function DigitChar(d: nat): char
    requires d < 10
  {
    "0123456789"[d]
  }

  /** `str(n)` for a natural number. */
  function NatText(n: nat): (s: string)
    ensures |s| >= 1
    ensures forall i :: 0 <= i < |s| ==> '0' <= s[i] <= '9'
  {
    if n < 10 then [DigitChar(n)] else NatText(n / 10) + [DigitChar(n % 10)]
  }

  /** A lower-case hexadecimal digit, as `hexdigest()` and `repr`'s `\xhh` escapes write them. */
  function HexDigit(n: nat): (c: char)
    requires n < 16
    ensures IsHexDigit(c)
  {
    if n < 10 then ('0' as int + n) as char else ('a' as int + n - 10) as char
  }

  predicate IsHexDigit(c: char) {
    '0' <= c <= '9' || 'a' <= c <= 'f'
  }
}
