/** Python's `str.replace`: leftmost, non-overlapping, never rescanning what was inserted. */
module Replacing {

  function Replace(s: string, v: string, c: string): string
    requires v != ""
    decreases |s|
  {
    if s == "" then ""
    else if v <= s then c + Replace(s[|v|..], v, c)
    else [s[0]] + Replace(s[1..], v, c)
  }

  ghost predicate Contains(s: string, v: string) {
    exists i :: 0 <= i <= |s| && v <= s[i..]
  }

  /** With `v` laid `d` characters behind the start of `c`, the two disagree somewhere. */
  predicate Clash(c: string, v: string, d: int) {
    exists j :: 0 <= j < |v| && 0 <= d + j < |c| && c[d + j] != v[j]
  }

  /** No occurrence of `v` can touch an occurrence of `c`: neither contains or overlaps the other. */
  predicate Apart(c: string, v: string) {
    c != "" && v != "" && forall d :: -|v| < d < |c| ==> Clash(c, v, d)
  }

  lemma ContainsTail(s: string, v: string)
    requires s != ""
    ensures Contains(s, v) <==> v <= s || Contains(s[1..], v)
  {
    if Contains(s, v) {
      var i :| 0 <= i <= |s| && v <= s[i..];
      if i > 0 {
        assert s[i..] == s[1..][i - 1..];
      } else {
        assert s[0..] == s;
      }
    }
    if v <= s {
      assert s[0..] == s;
    }
    if Contains(s[1..], v) {
      var i :| 0 <= i <= |s[1..]| && v <= s[1..][i..];
      assert s[1..][i..] == s[i + 1..];
    }
  }

  lemma NotContainsEmpty(v: string)
    requires v != ""
    ensures !Contains("", v)
  {
  }

  /** The scan copies the characters at which no occurrence starts. */
  lemma {:induction false} ReplaceSkip(s: string, v: string, c: string, m: nat)
    requires v != "" && m <= |s| && forall k :: 0 <= k < m ==> !(v <= s[k..])
    ensures Replace(s, v, c) == s[..m] + Replace(s[m..], v, c)
    decreases m
  {
    if m == 0 {
      assert s[0..] == s;
    } else {
      assert s[0..] == s;
      forall k | 0 <= k < m - 1 ensures !(v <= s[1..][k..]) {
        assert s[1..][k..] == s[k + 1..];
      }
      ReplaceSkip(s[1..], v, c, m - 1);
      assert s[1..][m - 1..] == s[m..];
    }
  }

  /** Where the text does not contain it, replacing changes nothing. */
  lemma ReplaceAbsent(s: string, v: string, c: string)
    requires v != "" && !Contains(s, v)
    ensures Replace(s, v, c) == s
  {
    ReplaceSkip(s, v, c, |s|);
  }

  /** Nothing starts inside a string that is apart from `v`. */
  lemma ApartInside(c: string, b: string, v: string, k: nat)
    requires Apart(c, v) && k < |c|
    ensures !(v <= (c + b)[k..])
  {
    assert Clash(c, v, k);
    var j :| 0 <= j < |v| && 0 <= k + j < |c| && c[k + j] != v[j];
    assert (c + b)[k..][j] != v[j];
  }

  /** Nothing reaches into it from before either. */
  lemma ApartBefore(c: string, b: string, v: string, k: nat)
    requires Apart(c, v) && k < |v|
    ensures !(v[k..] <= c + b)
  {
    assert Clash(c, v, -(k as int));
    var j :| 0 <= j < |v| && 0 <= -(k as int) + j < |c| && c[-(k as int) + j] != v[j];
    assert v[k..][j - k] != (c + b)[j - k];
  }

  lemma ReplaceBehind(c: string, b: string, v: string, x: string)
    requires Apart(c, v)
    ensures Replace(c + b, v, x) == c + Replace(b, v, x)
  {
    forall k | 0 <= k < |c| ensures !(v <= (c + b)[k..]) {
      ApartInside(c, b, v, k);
    }
    ReplaceSkip(c + b, v, x, |c|);
  }

  /** What a word apart from `c` finds in the result was in the text: here from position k of the word on. */
  lemma {:induction false} ReplaceReflects(s: string, v: string, c: string, w: string, k: nat)
    requires v != "" && Apart(c, w) && k <= |w|
    requires w[k..] <= Replace(s, v, c)
    ensures w[k..] <= s
    decreases |s|
  {
    if k < |w| && s != "" {
      if v <= s {
        ApartBefore(c, Replace(s[|v|..], v, c), w, k);
      } else {
        assert w[k..][1..] == w[k + 1..];
        assert w[k + 1..] <= Replace(s[1..], v, c);
        ReplaceReflects(s[1..], v, c, w, k + 1);
        assert w[k..] == [w[k]] + w[k + 1..];
      }
    }
  }

  /** Replacing by `c` creates no occurrence of a word apart from `c` and removes those of `v`. */
  lemma {:induction false} ReplaceNoNew(s: string, v: string, c: string, w: string)
    requires v != "" && Apart(c, w) && (w == v || !Contains(s, w))
    ensures !Contains(Replace(s, v, c), w)
    decreases |s|
  {
    var r := Replace(s, v, c);
    if s == "" {
      NotContainsEmpty(w);
    } else if v <= s {
      if w != v {
        NotContainsDrop(s, w, |v|);
      }
      ReplaceNoNew(s[|v|..], v, c, w);
      var b := Replace(s[|v|..], v, c);
      forall i | 0 <= i <= |r| ensures !(w <= r[i..]) {
        if i < |c| {
          ApartInside(c, b, w, i);
        } else {
          assert r[i..] == b[i - |c|..];
        }
      }
    } else {
      ContainsTail(s, w);
      ReplaceNoNew(s[1..], v, c, w);
      assert r[1..] == Replace(s[1..], v, c);
      if w <= r {
        assert w[0..] == w;
        ReplaceReflects(s, v, c, w, 0);
      }
      ContainsTail(r, w);
    }
  }

  lemma NotContainsDrop(s: string, w: string, k: nat)
    requires k <= |s| && !Contains(s, w)
    ensures !Contains(s[k..], w)
  {
    forall i | 0 <= i <= |s[k..]| ensures !(w <= s[k..][i..]) {
      assert s[k..][i..] == s[k + i..];
    }
  }
}
