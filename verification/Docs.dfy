/**
  Masked documents: literal text cut by numbered placeholders. `Render` is the masked string,
  `Original` the text behind it, and `Scan` is what one `re.sub` pass with a counting
  replacement does to a string.
 */
module Docs {
  import opened Wrappers
  import opened Regex
  import opened Seqs

  /** What a placeholder says inside its brackets, and the text it stands for. */
  datatype Hole = Hole(tag: string, original: string)

  /** The tag of the n-th placeholder of a pass. */
  type Tags = nat -> string

  datatype Doc = End(lit: string) | Cut(lit: string, hole: Hole, rest: Doc)

  function Token(tag: string): string { "[" + tag + "]" }

  function Render(d: Doc): string {
    match d
    case End(l) => l
    case Cut(l, h, rest) => l + Token(h.tag) + Render(rest)
  }

  function Original(d: Doc): string {
    match d
    case End(l) => l
    case Cut(l, h, rest) => l + h.original + Original(rest)
  }

  function Holes(d: Doc): seq<Hole> {
    match d
    case End(_) => []
    case Cut(_, h, rest) => [h] + Holes(rest)
  }

  /** Literal text in front of a document. */
  function Plain(s: string, d: Doc): (r: Doc)
    ensures r.lit == s + d.lit
  {
    match d
    case End(l) => End(s + l)
    case Cut(l, h, rest) => Cut(s + l, h, rest)
  }

  /** `re.sub` over `s`, numbering the matches from `n + 1`. */
  function Scan(re: Pattern, tags: Tags, s: string, n: nat): (d: Doc)
    requires Productive(re)
    decreases |s|
  {
    if s == "" then End("")
    else
      match Match(re, s)
      case Some(k) =>
        ProductiveMatch(re, s);
        Cut("", Hole(tags(n + 1), s[..k]), Scan(re, tags, s[k..], n + 1))
      case None => Plain([s[0]], Scan(re, tags, s[1..], n))
  }

  /** The counter after the pass. */
  function Next(re: Pattern, tags: Tags, s: string, n: nat): nat
    requires Productive(re)
  {
    n + |Holes(Scan(re, tags, s, n))|
  }

  lemma PlainViews(s: string, d: Doc)
    ensures Render(Plain(s, d)) == s + Render(d)
    ensures Original(Plain(s, d)) == s + Original(d)
    ensures Holes(Plain(s, d)) == Holes(d)
  {
    if d.Cut? {
      Assoc(s, d.lit, Token(d.hole.tag), Render(d.rest));
      Assoc(s, d.lit, d.hole.original, Original(d.rest));
    }
  }

  lemma {:induction false} ScanOriginal(re: Pattern, tags: Tags, s: string, n: nat)
    requires Productive(re)
    ensures Original(Scan(re, tags, s, n)) == s
    decreases |s|
  {
    if s != "" {
      match Match(re, s)
      case Some(k) =>
        ProductiveMatch(re, s);
        ScanOriginal(re, tags, s[k..], n + 1);
        assert s == "" + s[..k] + s[k..];
      case None =>
        ScanOriginal(re, tags, s[1..], n);
        PlainViews([s[0]], Scan(re, tags, s[1..], n));
    }
  }

  /** Numbered consecutively from `n + 1`. */
  predicate Numbered(hs: seq<Hole>, tags: Tags, n: nat) {
    forall i :: 0 <= i < |hs| ==> hs[i].tag == tags(n + 1 + i)
  }

  lemma {:induction false} ScanNumbers(re: Pattern, tags: Tags, s: string, n: nat)
    requires Productive(re)
    ensures Numbered(Holes(Scan(re, tags, s, n)), tags, n)
    decreases |s|
  {
    if s != "" {
      match Match(re, s)
      case Some(k) =>
        ProductiveMatch(re, s);
        ScanNumbers(re, tags, s[k..], n + 1);
      case None =>
        ScanNumbers(re, tags, s[1..], n);
        PlainViews([s[0]], Scan(re, tags, s[1..], n));
    }
  }

  // ---------- cleanliness ----------

  ghost predicate LitsClean(re: Pattern, d: Doc) {
    NoMatch(re, d.lit) && (d.Cut? ==> LitsClean(re, d.rest))
  }

  ghost predicate HolesClean(re: Pattern, hs: seq<Hole>) {
    forall i :: 0 <= i < |hs| ==> NoMatch(re, hs[i].tag)
  }

  ghost predicate AvoidsBrackets(re: Pattern) {
    Avoids(re, '[') && Avoids(re, ']')
  }

  lemma {:induction false} RenderClean(re: Pattern, d: Doc)
    requires LitsClean(re, d) && HolesClean(re, Holes(d)) && AvoidsBrackets(re)
    ensures NoMatch(re, Render(d))
  {
    if d.Cut? {
      assert Holes(d)[0] == d.hole;
      assert forall i :: 0 <= i < |Holes(d.rest)| ==> Holes(d.rest)[i] == Holes(d)[i + 1];
      RenderClean(re, d.rest);
      var inner := d.hole.tag;
      NoMatchGlue(re, d.lit, '[', inner);
      NoMatchGlue(re, d.lit + ['['] + inner, ']', Render(d.rest));
      assert Render(d) == d.lit + ['['] + inner + [']'] + Render(d.rest);
    }
  }

  /** A scan leaves no match in the text between the placeholders. */
  lemma {:induction false} ScanClean(re: Pattern, tags: Tags, s: string, n: nat)
    requires Productive(re)
    ensures LitsClean(re, Scan(re, tags, s, n))
    ensures Scan(re, tags, s, n).lit <= s
    decreases |s|
  {
    if s == "" {
      NoMatchEmpty(re);
    } else {
      match Match(re, s)
      case Some(k) =>
        ProductiveMatch(re, s);
        ScanClean(re, tags, s[k..], n + 1);
        NoMatchEmpty(re);
      case None =>
        ScanClean(re, tags, s[1..], n);
        NoMatchExtend(re, s, Scan(re, tags, s[1..], n).lit);
    }
  }

  lemma NoMatchEmpty(re: Pattern)
    requires Productive(re)
    ensures NoMatch(re, "")
  {
    forall i, j | 0 <= i <= j <= |""| ensures !Full(re, ""[i..j]) {
      assert ""[i..j] == "";
    }
  }

  lemma NoMatchExtend(re: Pattern, s: string, l: string)
    requires s != "" && Match(re, s).None? && l <= s[1..] && NoMatch(re, l)
    ensures NoMatch(re, [s[0]] + l)
  {
    var t := [s[0]] + l;
    forall i, j | 0 <= i <= j <= |t| ensures !Full(re, t[i..j]) {
      if i == 0 {
        PrefixSlice(s, l, j);
        NoneNotFull(re, s, j);
      } else {
        SliceRight([s[0]], l, i, j);
      }
    }
  }

  lemma NoneNotFull(re: Pattern, s: string, j: nat)
    requires Match(re, s).None? && j <= |s|
    ensures !Full(re, s[..j])
  {
    if Full(re, s[..j]) {
      MatchComplete(re, s, j);
    }
  }

  /** What one pattern does not find in a string, it does not find between the cuts of another. */
  lemma {:induction false} ScanKeepsClean(re: Pattern, tags: Tags, s: string, n: nat, other: Pattern)
    requires Productive(re) && NoMatch(other, s)
    ensures LitsClean(other, Scan(re, tags, s, n))
    decreases |s|
  {
    ScanClean(re, tags, s, n);
    var d := Scan(re, tags, s, n);
    assert d.lit == s[0..|d.lit|];
    NoMatchSub(other, s, 0, |d.lit|);
    if s != "" {
      match Match(re, s)
      case Some(k) =>
        ProductiveMatch(re, s);
        NoMatchSub(other, s, k, |s|);
        assert s[k..|s|] == s[k..];
        ScanKeepsClean(re, tags, s[k..], n + 1, other);
      case None =>
        NoMatchSub(other, s, 1, |s|);
        assert s[1..|s|] == s[1..];
        ScanKeepsClean(re, tags, s[1..], n, other);
    }
  }

  // ---------- a scan works piece by piece between barriers ----------

  /** `d` is `da`, the character `c`, then `db`. */
  ghost predicate Splits(d: Doc, da: Doc, c: char, db: Doc) {
    && Render(d) == Render(da) + [c] + Render(db)
    && Holes(d) == Holes(da) + Holes(db)
  }

  lemma SplitsBehindHole(h: Hole, d: Doc, da: Doc, c: char, db: Doc)
    requires Splits(d, da, c, db)
    ensures Splits(Cut("", h, d), Cut("", h, da), c, db)
  {
    Assoc("" + Token(h.tag), Render(da), [c], Render(db));
    Assoc([h], Holes(da), Holes(db), []);
  }

  lemma SplitsBehindChar(x: char, d: Doc, da: Doc, c: char, db: Doc)
    requires Splits(d, da, c, db)
    ensures Splits(Plain([x], d), Plain([x], da), c, db)
  {
    PlainViews([x], d);
    PlainViews([x], da);
    Assoc([x], Render(da), [c], Render(db));
  }

  lemma ScanSplitAtStart(re: Pattern, tags: Tags, c: char, b: string, n: nat)
    requires Productive(re) && Avoids(re, c)
    ensures Scan(re, tags, [c] + b, n) == Plain([c], Scan(re, tags, b, n))
    ensures Splits(Plain([c], Scan(re, tags, b, n)), End(""), c, Scan(re, tags, b, n))
  {
    assert ([c] + b)[1..] == b;
    ProductiveBarrier(re, c, b);
    PlainViews([c], Scan(re, tags, b, n));
  }

  lemma ScanEmpty(re: Pattern, tags: Tags, n: nat)
    requires Productive(re)
    ensures Scan(re, tags, "", n) == End("")
  {
  }

  lemma ScanHit(re: Pattern, tags: Tags, s: string, n: nat, k: nat)
    requires Productive(re) && s != "" && Match(re, s) == Some(k)
    ensures k > 0
    ensures Scan(re, tags, s, n) == Cut("", Hole(tags(n + 1), s[..k]), Scan(re, tags, s[k..], n + 1))
    ensures Next(re, tags, s, n) == Next(re, tags, s[k..], n + 1)
  {
    ProductiveMatch(re, s);
  }

  lemma ScanMiss(re: Pattern, tags: Tags, s: string, n: nat)
    requires Productive(re) && s != "" && Match(re, s) == None
    ensures Scan(re, tags, s, n) == Plain([s[0]], Scan(re, tags, s[1..], n))
    ensures Next(re, tags, s, n) == Next(re, tags, s[1..], n)
  {
    PlainViews([s[0]], Scan(re, tags, s[1..], n));
  }

  /** A pass treats what comes before and behind a barrier character separately. */
  lemma {:induction false} ScanSplit(re: Pattern, tags: Tags, a: string, c: char, b: string, n: nat)
    requires Productive(re) && Avoids(re, c)
    ensures Splits(Scan(re, tags, a + [c] + b, n), Scan(re, tags, a, n), c,
                   Scan(re, tags, b, Next(re, tags, a, n)))
    decreases |a|
  {
    var s := a + [c] + b;
    if a == "" {
      assert "" + [c] + b == [c] + b;
      ScanSplitAtStart(re, tags, c, b, n);
    } else {
      hide Match;
      hide Scan;
      hide Render;
      MatchBarrier(re, a, c, b);
      var db := Scan(re, tags, b, Next(re, tags, a, n));
      match Match(re, a)
      case Some(k) =>
        ScanHit(re, tags, a, n, k);
        ScanHit(re, tags, s, n, k);
        Drop(a, c, b, k);
        ScanSplit(re, tags, a[k..], c, b, n + 1);
        SplitsBehindHole(Hole(tags(n + 1), a[..k]), Scan(re, tags, s[k..], n + 1),
                         Scan(re, tags, a[k..], n + 1), c, db);
      case None =>
        ScanMiss(re, tags, a, n);
        ScanMiss(re, tags, s, n);
        Drop(a, c, b, 1);
        assert s[0] == a[0];
        ScanSplit(re, tags, a[1..], c, b, n);
        SplitsBehindChar(a[0], Scan(re, tags, s[1..], n), Scan(re, tags, a[1..], n), c, db);
    }
  }

  lemma {:induction false} ScanInert(re: Pattern, tags: Tags, s: string, n: nat)
    requires Productive(re) && NoMatch(re, s)
    ensures Scan(re, tags, s, n) == End(s)
    decreases |s|
  {
    if s != "" {
      NoMatchHere(re, s);
      NoMatchSub(re, s, 1, |s|);
      assert s[1..|s|] == s[1..];
      ScanInert(re, tags, s[1..], n);
    }
  }

  /** Put `h` and `rest` behind the last literal of `d`. */
  function Join(d: Doc, h: Hole, rest: Doc): Doc {
    match d
    case End(l) => Cut(l, h, rest)
    case Cut(l, g, q) => Cut(l, g, Join(q, h, rest))
  }

  lemma {:induction false} JoinViews(d: Doc, h: Hole, rest: Doc)
    ensures Render(Join(d, h, rest)) == Render(d) + Token(h.tag) + Render(rest)
    ensures Original(Join(d, h, rest)) == Original(d) + h.original + Original(rest)
    ensures Holes(Join(d, h, rest)) == Holes(d) + [h] + Holes(rest)
  {
    if d.Cut? {
      JoinViews(d.rest, h, rest);
      Assoc(d.lit + Token(d.hole.tag), Render(d.rest), Token(h.tag), Render(rest));
      Assoc(d.lit + d.hole.original, Original(d.rest), h.original, Original(rest));
      Assoc([d.hole], Holes(d.rest), [h], Holes(rest));
    }
  }

  /** A pass over the literals only, leaving earlier placeholders alone. */
  function Weave(re: Pattern, tags: Tags, d: Doc, n: nat): Doc
    requires Productive(re)
  {
    match d
    case End(l) => Scan(re, tags, l, n)
    case Cut(l, h, rest) =>
      Join(Scan(re, tags, l, n), h, Weave(re, tags, rest, Next(re, tags, l, n)))
  }

  lemma {:induction false} WeaveOriginal(re: Pattern, tags: Tags, d: Doc, n: nat)
    requires Productive(re)
    ensures Original(Weave(re, tags, d, n)) == Original(d)
    decreases d
  {
    ScanOriginal(re, tags, d.lit, n);
    if d.Cut? {
      WeaveOriginal(re, tags, d.rest, Next(re, tags, d.lit, n));
      JoinViews(Scan(re, tags, d.lit, n), d.hole, Weave(re, tags, d.rest, Next(re, tags, d.lit, n)));
    }
  }

  /** The same string, and `woven` has the holes of `d` besides those of `scan`. */
  ghost predicate Interleaves(scan: Doc, woven: Doc, d: Doc) {
    && Render(scan) == Render(woven)
    && multiset(Holes(woven)) == multiset(Holes(d)) + multiset(Holes(scan))
  }

  /**
    When no placeholder contains a match, `re.sub` over the masked string is the pass over the
    literals: no earlier placeholder is cut or swallowed.
   */
  lemma {:induction false} ScanIsWeave(re: Pattern, tags: Tags, d: Doc, n: nat)
    requires Productive(re) && AvoidsBrackets(re) && HolesClean(re, Holes(d))
    ensures Interleaves(Scan(re, tags, Render(d), n), Weave(re, tags, d, n), d)
    decreases d
  {
    if d.Cut? {
      HolesCleanRest(re, d);
      var inner := d.hole.tag;
      var m := Next(re, tags, d.lit, n);
      ScanIsWeave(re, tags, d.rest, m);
      var tail := inner + [']'] + Render(d.rest);
      ScanSplit(re, tags, inner, ']', Render(d.rest), m);
      ScanInert(re, tags, inner, m);
      ScanSplit(re, tags, d.lit, '[', tail, n);
      Brackets(d.lit, d.hole.tag, Render(d.rest));
      InterleavesBehindHole(Scan(re, tags, Render(d), n), Scan(re, tags, d.lit, n), d.hole,
                            Scan(re, tags, tail, m), Scan(re, tags, Render(d.rest), m),
                            Weave(re, tags, d.rest, m), d);
    }
  }

  lemma HolesCleanRest(re: Pattern, d: Doc)
    requires d.Cut? && HolesClean(re, Holes(d))
    ensures NoMatch(re, d.hole.tag) && HolesClean(re, Holes(d.rest))
  {
    assert Holes(d)[0] == d.hole;
    assert forall i :: 0 <= i < |Holes(d.rest)| ==> Holes(d.rest)[i] == Holes(d)[i + 1];
  }

  lemma InterleavesBehindHole(scan: Doc, l: Doc, h: Hole, tail: Doc, rest: Doc, woven: Doc, d: Doc)
    requires d.Cut? && d.hole == h && Interleaves(rest, woven, d.rest)
    requires Splits(scan, l, '[', tail) && Splits(tail, End(h.tag), ']', rest)
    ensures Interleaves(scan, Join(l, h, woven), d)
  {
    JoinViews(l, h, woven);
    Brackets(Render(l), h.tag, Render(woven));
  }

  lemma Brackets(x: string, tag: string, y: string)
    ensures x + ['['] + (tag + [']'] + y) == x + Token(tag) + y
  {
  }
}
