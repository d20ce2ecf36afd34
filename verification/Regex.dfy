/**
  Python's `re` for the patterns the system uses. All three of them (e-mail, phone number,
  citation) are a concatenation of greedy repeats of one character class, so a pattern is a
  sequence of such repeats. `Match` is the backtracking matcher, trying longer repeats first;
  `Full` is the language of the pattern. Both look at strings only from a position onwards,
  so `s[i..]` stands for "scanning from position i".
 */
module Regex {
  import opened Seqs
  import opened Wrappers

  /** `[cls]{lo,hi}`; `hi` is None for an unbounded repeat. */
  datatype Item = Item(cls: set<char>, lo: nat, hi: Option<nat>)

  type Pattern = seq<Item>

  function Once(cls: set<char>): Item { Item(cls, 1, Some(1)) }

  function Plus(cls: set<char>): Item { Item(cls, 1, None) }

  predicate WithinHi(item: Item, k: nat) {
    item.hi.Some? ==> k <= item.hi.value
  }

  /** Number of leading characters of `s` in the class. */
  function Run(cls: set<char>, s: string): (n: nat)
    ensures n <= |s|
    ensures forall i :: 0 <= i < n ==> s[i] in cls
    ensures n < |s| ==> s[n] !in cls
  {
    if s != "" && s[0] in cls then 1 + Run(cls, s[1..]) else 0
  }

  /** The longest repeat of the item at the start of `s`. */
  function Greedy(item: Item, s: string): (n: nat)
    ensures n <= |s|
  {
    var run := Run(item.cls, s);
    if item.hi.Some? && item.hi.value < run then item.hi.value else run
  }

  /** Length of the match at the start of `s`, or None. */
  function Match(re: Pattern, s: string): (r: Option<nat>)
    ensures r.Some? ==> r.value <= |s|
    decreases |re|, |s| + 1
  {
    if re == [] then Some(0) else Try(re, s, Greedy(re[0], s))
  }

  /** Repeat the first item `k` times; if the rest fails, give one repeat back. */
  function Try(re: Pattern, s: string, k: nat): (r: Option<nat>)
    requires re != [] && k <= |s|
    ensures r.Some? ==> r.value <= |s|
    decreases |re|, k
  {
    if k < re[0].lo then None
    else
      match Match(re[1..], s[k..])
      case Some(n) => Some(k + n)
      case None => if k == 0 then None else Try(re, s, k - 1)
  }

  /** `k` characters of `t` may be taken by `item`. */
  predicate Takes(item: Item, t: string, k: nat) {
    && k <= |t|
    && item.lo <= k && WithinHi(item, k)
    && k <= Run(item.cls, t)
  }

  /** The whole of `t` matches the pattern (the declarative reading). */
  ghost predicate Full(re: Pattern, t: string)
    decreases |re|
  {
    if re == [] then t == ""
    else exists k: nat :: Takes(re[0], t, k) && Full(re[1..], t[k..])
  }

  /** No substring of `s` matches. */
  ghost predicate NoMatch(re: Pattern, s: string) {
    forall i, j :: 0 <= i <= j <= |s| ==> !Full(re, s[i..j])
  }

  predicate Avoids(re: Pattern, c: char) {
    forall item :: item in re ==> c !in item.cls
  }

  /** Every match has at least one character. */
  predicate Productive(re: Pattern) {
    re != [] && re[0].lo > 0
  }

  // ---------- runs ----------

  lemma {:induction false} RunPrefix(cls: set<char>, s: string, k: nat)
    requires k <= |s|
    ensures Run(cls, s[..k]) == if Run(cls, s) < k then Run(cls, s) else k
  {
    if k > 0 && s[0] in cls {
      assert s[..k][1..] == s[1..][..k - 1];
      RunPrefix(cls, s[1..], k - 1);
    }
  }

  lemma {:induction false} RunBarrier(cls: set<char>, a: string, c: char, b: string)
    requires c !in cls
    ensures Run(cls, a + [c] + b) == Run(cls, a)
  {
    if a != "" {
      assert (a + [c] + b)[1..] == a[1..] + [c] + b;
      RunBarrier(cls, a[1..], c, b);
    }
  }

  lemma AllInRun(cls: set<char>, s: string, k: nat)
    requires k <= |s| && forall i :: 0 <= i < k ==> s[i] in cls
    ensures k <= Run(cls, s)
  {
  }

  // ---------- the matcher decides the language ----------

  lemma {:induction false} MatchSound(re: Pattern, s: string)
    requires Match(re, s).Some?
    ensures Full(re, s[..Match(re, s).value])
    decreases |re|, |s| + 1
  {
    if re != [] {
      TrySound(re, s, Greedy(re[0], s));
    } else {
      assert s[..0] == "";
    }
  }

  lemma FullCons(re: Pattern, t: string, k: nat)
    requires re != [] && Takes(re[0], t, k) && Full(re[1..], t[k..])
    ensures Full(re, t)
  {
  }

  lemma {:induction false} TrySound(re: Pattern, s: string, k: nat)
    requires re != [] && k <= Greedy(re[0], s)
    requires Try(re, s, k).Some?
    ensures Full(re, s[..Try(re, s, k).value])
    decreases |re|, k
  {
    hide Full;
    hide Match;
    var rest := Match(re[1..], s[k..]);
    if rest.Some? {
      MatchSound(re[1..], s[k..]);
      var t := s[..k + rest.value];
      assert t[k..] == s[k..][..rest.value];
      RunPrefix(re[0].cls, s, k + rest.value);
      FullCons(re, t, k);
    } else {
      TrySound(re, s, k - 1);
    }
  }

  lemma {:induction false} MatchComplete(re: Pattern, s: string, n: nat)
    requires n <= |s| && Full(re, s[..n])
    ensures Match(re, s).Some?
    decreases |re|
  {
    hide Try;
    hide Run;
    if re != [] {
      var t := s[..n];
      var k: nat :| Takes(re[0], t, k) && Full(re[1..], t[k..]);
      RunPrefix(re[0].cls, s, n);
      assert t[k..] == s[k..][..n - k];
      MatchComplete(re[1..], s[k..], n - k);
      TryComplete(re, s, Greedy(re[0], s), k);
    }
  }

  lemma {:induction false} TryComplete(re: Pattern, s: string, from: nat, k: nat)
    requires re != [] && re[0].lo <= k <= from <= |s|
    requires Match(re[1..], s[k..]).Some?
    ensures Try(re, s, from).Some?
    decreases from
  {
    if k < from {
      TryComplete(re, s, from - 1, k);
    }
  }

  // ---------- and returns the greedy choice ----------

  /** With the largest repeat possible, the rest of the pattern matches: that is the match. */
  lemma MatchMax(re: Pattern, s: string, k: nat, n: nat)
    requires re != [] && k == Greedy(re[0], s) && re[0].lo <= k
    requires Match(re[1..], s[k..]) == Some(n)
    ensures Match(re, s) == Some(k + n)
  {
  }

  lemma {:induction false} TryBack(re: Pattern, s: string, from: nat, k: nat, n: nat)
    requires re != [] && re[0].lo <= k <= from <= |s|
    requires Match(re[1..], s[k..]) == Some(n)
    requires forall j :: k < j <= from ==> Match(re[1..], s[j..]).None?
    ensures Try(re, s, from) == Some(k + n)
    decreases from
  {
    hide Match;
    hide Greedy;
    if k < from {
      TryBack(re, s, from - 1, k, n);
    }
  }

  /** The largest repeat with which the rest of the pattern matches gives the match. */
  lemma MatchBack(re: Pattern, s: string, k: nat, n: nat)
    requires re != [] && re[0].lo <= k <= Greedy(re[0], s)
    requires Match(re[1..], s[k..]) == Some(n)
    requires forall j :: k < j <= Greedy(re[0], s) ==> Match(re[1..], s[j..]).None?
    ensures Match(re, s) == Some(k + n)
  {
    TryBack(re, s, Greedy(re[0], s), k, n);
    hide Try;
    hide Greedy;
  }

  /** Some prefix of `s` is in the language. */
  ghost predicate Starts(re: Pattern, s: string) {
    exists m :: 0 <= m <= |s| && Full(re, s[..m])
  }

  lemma MatchIffStarts(re: Pattern, s: string)
    ensures Match(re, s).Some? <==> Starts(re, s)
  {
    hide Full;
    hide Match;
    if Match(re, s).Some? {
      MatchSound(re, s);
    }
    if m :| 0 <= m <= |s| && Full(re, s[..m]) {
      MatchComplete(re, s, m);
    }
  }

  /**
    What greedy means: the first `n` characters match so that the first item repeats as often as it
    can with some match of the rest behind it, then the second item does, and so on.
   */
  ghost predicate Best(re: Pattern, s: string, n: nat)
    decreases |re|
  {
    if re == [] then n == 0 else exists k: nat :: k <= n && Picks(re, s, k) && Best(re[1..], s[k..], n - k)
  }

  ghost predicate Picks(re: Pattern, s: string, k: nat)
    requires re != []
  {
    && Takes(re[0], s, k) && Starts(re[1..], s[k..])
    && forall j :: k < j && Takes(re[0], s, j) ==> !Starts(re[1..], s[j..])
  }

  lemma GreedyTakes(item: Item, s: string, k: nat)
    requires item.hi.Some? ==> item.lo <= item.hi.value
    ensures Takes(item, s, k) <==> item.lo <= k <= Greedy(item, s)
  {
  }

  /** No item asks for more repeats than it allows. */
  predicate Sane(re: Pattern) {
    forall item :: item in re && item.hi.Some? ==> item.lo <= item.hi.value
  }

  lemma {:induction false} TryPicks(re: Pattern, s: string, from: nat) returns (k: nat)
    requires re != [] && from <= |s| && Try(re, s, from).Some?
    ensures re[0].lo <= k <= from && Match(re[1..], s[k..]).Some?
    ensures Try(re, s, from) == Some(k + Match(re[1..], s[k..]).value)
    ensures forall j :: k < j <= from ==> Match(re[1..], s[j..]).None?
    decreases from
  {
    hide Match;
    k := from;
    if Match(re[1..], s[from..]).None? {
      k := TryPicks(re, s, from - 1);
    }
  }

  /** A match as the matcher builds it, seen declaratively. */
  lemma PicksAre(re: Pattern, s: string, k: nat)
    requires re != [] && Sane(re)
    ensures Picks(re, s, k) <==>
              && re[0].lo <= k <= Greedy(re[0], s) && Match(re[1..], s[k..]).Some?
              && forall j :: k < j <= Greedy(re[0], s) ==> Match(re[1..], s[j..]).None?
  {
    hide Full;
    hide Starts;
    hide Match;
    hide Takes;
    hide Greedy;
    assert re[0] in re;
    forall j: nat | j <= |s|
      ensures Takes(re[0], s, j) <==> re[0].lo <= j <= Greedy(re[0], s)
      ensures Match(re[1..], s[j..]).Some? <==> Starts(re[1..], s[j..])
    {
      GreedyTakes(re[0], s, j);
      MatchIffStarts(re[1..], s[j..]);
    }
    TakesFits(re[0], s);
  }

  lemma TakesFits(item: Item, s: string)
    ensures forall k: nat :: Takes(item, s, k) ==> k <= |s|
  {
  }

  lemma SaneRest(re: Pattern)
    requires re != [] && Sane(re)
    ensures Sane(re[1..])
  {
    assert forall item :: item in re[1..] ==> item in re;
  }

  lemma BestCons(re: Pattern, s: string, k: nat, n: nat)
    requires re != [] && k <= n && k <= |s| && Picks(re, s, k) && Best(re[1..], s[k..], n - k)
    ensures Best(re, s, n)
  {
    hide Picks;
  }

  lemma {:induction false} MatchBest(re: Pattern, s: string)
    requires Sane(re) && Match(re, s).Some?
    ensures Best(re, s, Match(re, s).value)
    decreases |re|
  {
    hide Picks;
    hide Greedy;
    if re != [] {
      var k := TryPicks(re, s, Greedy(re[0], s));
      PicksAre(re, s, k);
      SaneRest(re);
      MatchBest(re[1..], s[k..]);
      hide Best;
      BestCons(re, s, k, Match(re, s).value);
    }
  }

  lemma {:induction false} BestMatch(re: Pattern, s: string, n: nat)
    requires Sane(re) && Best(re, s, n)
    ensures Match(re, s) == Some(n)
    decreases |re|
  {
    hide Match;
    hide Greedy;
    hide Picks;
    hide Best;
    if re == [] {
      NothingMatches(s);
    } else {
      var k := BestPick(re, s, n);
      PicksAre(re, s, k);
      SaneRest(re);
      BestMatch(re[1..], s[k..], n - k);
      MatchBack(re, s, k, n - k);
    }
  }

  lemma BestPick(re: Pattern, s: string, n: nat) returns (k: nat)
    requires re != [] && Best(re, s, n)
    ensures k <= n && k <= |s| && Picks(re, s, k) && Best(re[1..], s[k..], n - k)
  {
    hide Starts;
    k :| k <= n && Picks(re, s, k) && Best(re[1..], s[k..], n - k);
  }

  lemma NothingMatches(s: string)
    ensures Match([], s) == Some(0)
    ensures forall n :: Best([], s, n) ==> n == 0
  {
  }

  /** The matcher finds exactly the greedy match. */
  lemma MatchIsBest(re: Pattern, s: string, n: nat)
    requires Sane(re)
    ensures Match(re, s) == Some(n) <==> Best(re, s, n)
  {
    hide Match;
    hide Best;
    if Match(re, s) == Some(n) {
      MatchBest(re, s);
    }
    if Best(re, s, n) {
      BestMatch(re, s, n);
    }
  }

  // ---------- the language, item by item ----------

  /** `p` is a repeat of the item. */
  predicate Repeats(item: Item, p: string) {
    item.lo <= |p| && WithinHi(item, |p|) && forall i :: 0 <= i < |p| ==> p[i] in item.cls
  }

  lemma FirstItem(re: Pattern, t: string) returns (p: string, q: string)
    requires re != [] && Full(re, t)
    ensures t == p + q && Repeats(re[0], p) && Full(re[1..], q)
  {
    var k: nat :| Takes(re[0], t, k) && Full(re[1..], t[k..]);
    p, q := t[..k], t[k..];
  }

  lemma PutItem(re: Pattern, p: string, q: string)
    requires re != [] && Repeats(re[0], p) && Full(re[1..], q)
    ensures Full(re, p + q)
  {
    var t := p + q;
    assert t[|p|..] == q && forall i :: 0 <= i < |p| ==> t[i] == p[i];
    AllInRun(re[0].cls, t, |p|);
    FullCons(re, t, |p|);
  }

  lemma TooShort(re: Pattern, s: string)
    requires |s| < MinLength(re)
    ensures Match(re, s).None?
  {
    if Match(re, s).Some? {
      MatchSound(re, s);
      FullLength(re, s[..Match(re, s).value]);
    }
  }

  // ---------- characters outside every class are barriers ----------

  lemma {:induction false} FullAvoids(re: Pattern, t: string, c: char)
    requires Full(re, t) && Avoids(re, c)
    ensures c !in t
    decreases |re|
  {
    if re != [] {
      var k: nat :| Takes(re[0], t, k) && Full(re[1..], t[k..]);
      assert re[0] in re;
      forall item | item in re[1..] ensures c !in item.cls { assert item in re; }
      FullAvoids(re[1..], t[k..], c);
      assert t == t[..k] + t[k..];
      assert forall i :: 0 <= i < k ==> t[i] in re[0].cls;
    }
  }

  lemma BarrierNotFull(re: Pattern, t: string, c: char)
    requires Avoids(re, c) && c in t
    ensures !Full(re, t)
  {
    if Full(re, t) {
      FullAvoids(re, t, c);
    }
  }

  lemma {:induction false} MatchBarrier(re: Pattern, a: string, c: char, b: string)
    requires Avoids(re, c)
    ensures Match(re, a + [c] + b) == Match(re, a)
    decreases |re|, |a| + 1
  {
    hide Try;
    if re != [] {
      assert re[0] in re;
      RunBarrier(re[0].cls, a, c, b);
      TryBarrier(re, a, c, b, Greedy(re[0], a));
    }
  }

  lemma {:induction false} TryBarrier(re: Pattern, a: string, c: char, b: string, k: nat)
    requires re != [] && k <= |a| && Avoids(re, c)
    ensures Try(re, a + [c] + b, k) == Try(re, a, k)
    decreases |re|, k
  {
    hide Match;
    forall item | item in re[1..] ensures c !in item.cls { assert item in re; }
    Drop(a, c, b, k);
    MatchBarrier(re[1..], a[k..], c, b);
    if k > 0 {
      TryBarrier(re, a, c, b, k - 1);
    }
  }

  lemma ProductiveFull(re: Pattern, t: string)
    requires Productive(re) && Full(re, t)
    ensures t != ""
  {
  }

  lemma ProductiveMatch(re: Pattern, s: string)
    requires Productive(re) && Match(re, s).Some?
    ensures Match(re, s).value > 0
  {
    MatchSound(re, s);
    ProductiveFull(re, s[..Match(re, s).value]);
  }

  lemma ProductiveBarrier(re: Pattern, c: char, s: string)
    requires Productive(re) && Avoids(re, c)
    ensures Match(re, [c] + s).None?
  {
    assert [c] + s == "" + [c] + s;
    MatchBarrier(re, "", c, s);
    if Match(re, "").Some? {
      ProductiveMatch(re, "");
    }
  }

  // ---------- NoMatch ----------

  lemma NoMatchHere(re: Pattern, s: string)
    requires NoMatch(re, s)
    ensures Match(re, s).None?
  {
    if Match(re, s).Some? {
      assert s[0..Match(re, s).value] == s[..Match(re, s).value];
      MatchSound(re, s);
    }
  }

  lemma NoMatchSub(re: Pattern, s: string, i: nat, j: nat)
    requires NoMatch(re, s) && i <= j <= |s|
    ensures NoMatch(re, s[i..j])
  {
    var t := s[i..j];
    forall p, q | 0 <= p <= q <= |t| ensures !Full(re, t[p..q]) {
      SliceSlice(s, i, j, p, q);
    }
  }

  /** Two match-free strings stay match-free when glued by a barrier character. */
  lemma NoMatchGlue(re: Pattern, a: string, c: char, b: string)
    requires NoMatch(re, a) && NoMatch(re, b) && Avoids(re, c)
    ensures NoMatch(re, a + [c] + b)
  {
    var s := a + [c] + b;
    forall i, j | 0 <= i <= j <= |s| ensures !Full(re, s[i..j]) {
      if j <= |a| {
        assert s == a + ([c] + b);
        SliceLeft(a, [c] + b, i, j);
      } else if i > |a| {
        SliceRight(a + [c], b, i, j);
      } else {
        assert s[i..j][|a| - i] == c;
        BarrierNotFull(re, s[i..j], c);
      }
    }
  }

  /** A match in a part is a match in the whole. */
  lemma MatchInside(re: Pattern, a: string, m: string, b: string)
    requires !NoMatch(re, m)
    ensures !NoMatch(re, a + m + b)
  {
    var i, j :| 0 <= i <= j <= |m| && Full(re, m[i..j]);
    SliceRight(a, m, |a| + i, |a| + j);
    SliceLeft(a + m, b, |a| + i, |a| + j);
  }

  // ---------- suffixes of a pattern ----------

  lemma FullAt(re: Pattern, i: nat, t: string, k: nat)
    requires i < |re| && Takes(re[i], t, k) && Full(re[i + 1..], t[k..])
    ensures Full(re[i..], t)
  {
    assert re[i..][1..] == re[i + 1..];
    FullCons(re[i..], t, k);
  }

  function MinLength(re: Pattern): nat {
    if re == [] then 0 else re[0].lo + MinLength(re[1..])
  }

  lemma MinLengthAt(re: Pattern, i: nat)
    requires i < |re|
    ensures MinLength(re[i..]) == re[i].lo + MinLength(re[i + 1..])
  {
    assert re[i..][1..] == re[i + 1..];
  }

  lemma {:induction false} FullLength(re: Pattern, t: string)
    requires Full(re, t)
    ensures MinLength(re) <= |t|
    decreases |re|
  {
    if re != [] {
      var k: nat :| Takes(re[0], t, k) && Full(re[1..], t[k..]);
      FullLength(re[1..], t[k..]);
    }
  }

  // ---------- patterns from the front ----------

  lemma FullOnce(cls: set<char>, rest: Pattern, t: string)
    ensures Full([Once(cls)] + rest, t) <==> t != "" && t[0] in cls && Full(rest, t[1..])
  {
    var re := [Once(cls)] + rest;
    assert re[0] == Once(cls) && re[1..] == rest;
    if Full(re, t) {
      var k: nat :| Takes(re[0], t, k) && Full(re[1..], t[k..]);
      assert k == 1;
    }
    if t != "" && t[0] in cls && Full(rest, t[1..]) {
      AllInRun(cls, t, 1);
      FullCons(re, t, 1);
    }
  }

  /** The first `k` characters are in the class. */
  predicate Leads(cls: set<char>, t: string, k: nat) {
    0 < k <= |t| && forall i :: 0 <= i < k ==> t[i] in cls
  }

  lemma FullPlus(cls: set<char>, rest: Pattern, t: string)
    ensures Full([Plus(cls)] + rest, t) <==> exists k: nat :: Leads(cls, t, k) && Full(rest, t[k..])
  {
    var re := [Plus(cls)] + rest;
    assert re[0] == Plus(cls) && re[1..] == rest;
    if Full(re, t) {
      var k: nat :| Takes(re[0], t, k) && Full(re[1..], t[k..]);
      assert Leads(cls, t, k);
    }
    if k: nat :| Leads(cls, t, k) && Full(rest, t[k..]) {
      AllInRun(cls, t, k);
      FullCons(re, t, k);
    }
  }

  lemma FullNothing(t: string)
    ensures Full([], t) <==> t == ""
  {
  }
}
