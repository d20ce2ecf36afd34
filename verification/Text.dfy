/** Facts about concatenation and slices that the solver does not use unprompted. */
module Seqs {
  lemma Assoc<T>(a: seq<T>, b: seq<T>, c: seq<T>, d: seq<T>)
    ensures a + (b + c + d) == (a + b) + c + d
    ensures a + (b + c) == (a + b) + c
  {
  }

  lemma PrefixOfConcat<T>(w: seq<T>, a: seq<T>, b: seq<T>)
    ensures |a| <= |w| ==> (w <= a + b <==> a == w[..|a|] && w[|a|..] <= b)
    ensures |w| <= |a| ==> (w <= a + b <==> w <= a)
  {
    if |a| <= |w| && a == w[..|a|] && w[|a|..] <= b {
      assert w == a + w[|a|..];
    }
  }

  lemma SliceLeft<T>(a: seq<T>, b: seq<T>, i: nat, j: nat)
    requires i <= j <= |a|
    ensures (a + b)[i..j] == a[i..j]
  {
  }

  lemma SliceRight<T>(a: seq<T>, b: seq<T>, i: nat, j: nat)
    requires |a| <= i <= j <= |a| + |b|
    ensures (a + b)[i..j] == b[i - |a|..j - |a|]
  {
  }

  lemma Drop<T>(a: seq<T>, c: T, b: seq<T>, k: nat)
    requires k <= |a|
    ensures (a + [c] + b)[k..] == a[k..] + [c] + b
    ensures (a + [c] + b)[..k] == a[..k]
  {
  }

  lemma PrefixSlice<T>(s: seq<T>, l: seq<T>, j: nat)
    requires s != [] && l <= s[1..] && j <= |l| + 1
    ensures ([s[0]] + l)[0..j] == s[..j]
  {
    var u, v := ([s[0]] + l)[0..j], s[..j];
    assert |u| == |v|;
    assert forall k :: 0 <= k < j ==> u[k] == v[k];
  }

  lemma SliceSlice<T>(s: seq<T>, i: nat, j: nat, p: nat, q: nat)
    requires i <= j <= |s| && p <= q <= j - i
    ensures s[i..j][p..q] == s[i + p..i + q]
  {
    var u, v := s[i..j][p..q], s[i + p..i + q];
    assert |u| == |v|;
    assert forall k :: 0 <= k < |u| ==> u[k] == v[k];
  }
}

/** Characters and decimal numerals. */
module Text {

  /**
    The character classes of the Unicode database that Python's `\w`, `\d`, `int` and
    `str.split`/`str.strip` use. The whole model is parametric in them; `Valid` only fixes
    what they say about ASCII, and `SpacesApart` a fact that stripping relies on.
   */
  datatype Unicode = Unicode(word: set<char>, digit: map<char, nat>, space: set<char>) {
    predicate Valid() {
      && (forall c: char :: c < 128 as char ==> (c in word <==> AsciiWord(c)))
      && (forall c: char :: c < 128 as char ==> (c in digit <==> AsciiDigit(c)))
      && (forall c: char :: AsciiDigit(c) ==> digit[c] == c as nat - '0' as nat)
      && (forall c: char :: c < 128 as char ==> (c in space <==> AsciiSpace(c)))
    }

    /** White space is neither a word character nor a digit, outside ASCII too. */
    predicate SpacesApart() {
      forall c :: c in space ==> c !in word && c !in digit
    }
  }

  predicate AsciiDigit(c: char) { '0' <= c <= '9' }

  predicate AsciiWord(c: char) {
    AsciiDigit(c) || 'a' <= c <= 'z' || 'A' <= c <= 'Z' || c == '_'
  }

  predicate AsciiSpace(c: char) {
    9 as char <= c <= 13 as char || 28 as char <= c <= 32 as char
  }

  const DIGITS := "0123456789"

  /** `str(n)` */
  function Dec(n: nat): (s: string)
    ensures s != "" && forall i :: 0 <= i < |s| ==> AsciiDigit(s[i])
    ensures n > 0 ==> s[0] != '0'
  {
    if n < 10 then [DIGITS[n]] else Dec(n / 10) + [DIGITS[n % 10]]
  }

  function DecValue(s: string): int
    requires forall i :: 0 <= i < |s| ==> AsciiDigit(s[i])
  {
    if s == "" then 0
    else 10 * DecValue(s[..|s| - 1]) + (s[|s| - 1] as int - '0' as int)
  }

  lemma {:induction false} DecRoundTrip(n: nat)
    ensures DecValue(Dec(n)) == n
  {
    if n >= 10 {
      DecRoundTrip(n / 10);
      assert Dec(n)[..|Dec(n)| - 1] == Dec(n / 10);
    }
  }

  lemma DecInjective(m: nat, n: nat)
    requires Dec(m) == Dec(n)
    ensures m == n
  {
    DecRoundTrip(m);
    DecRoundTrip(n);
  }

  function Pow10(d: nat): nat { if d == 0 then 1 else 10 * Pow10(d - 1) }

  lemma {:induction false} DecLength(n: nat, d: nat)
    requires 0 < d && n < Pow10(d)
    ensures |Dec(n)| <= d
  {
    if n >= 10 {
      DecLength(n / 10, d - 1);
    }
  }

  lemma DecMillion()
    ensures Dec(1_000_000) == "1000000"
  {
    assert Dec(1) == "1";
    assert Dec(10) == "10";
    assert Dec(100) == "100";
    assert Dec(1000) == "1000";
    assert Dec(10000) == "10000";
    assert Dec(100000) == "100000";
  }

  // ---------- joining and white space ----------

  /** `"".join(parts)` */
  function Concat(parts: seq<string>): string {
    if parts == [] then "" else parts[0] + Concat(parts[1..])
  }

  /** The text without its white space. */
  function NoSpace(u: Unicode, text: string): string {
    if text == "" then "" else (if text[0] in u.space then "" else [text[0]]) + NoSpace(u, text[1..])
  }

  lemma {:induction false} NoSpaceConcat(u: Unicode, a: string, b: string)
    ensures NoSpace(u, a + b) == NoSpace(u, a) + NoSpace(u, b)
  {
    if a == "" {
      assert a + b == b;
    } else {
      assert (a + b)[1..] == a[1..] + b;
      NoSpaceConcat(u, a[1..], b);
    }
  }
}
