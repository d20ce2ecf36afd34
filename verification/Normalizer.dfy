/** The notation normaliser (app/infra/text/normalize.py). */
module Normalizer {
  import opened Replacing

  /** One confirmed correspondence, spelling variant to canonical form. */
  datatype Correction = Correction(variant: string, canonical: string)

  /** Stable insertion: behind every entry that is at least as long. */
  function Insert(p: Correction, ps: seq<Correction>): (r: seq<Correction>)
    ensures multiset(r) == multiset(ps) + multiset{p}
  {
    if ps == [] then [p]
    else if |p.variant| > |ps[0].variant| then
      assert multiset([p] + ps) == multiset{p} + multiset(ps);
      [p] + ps
    else
      assert ps == [ps[0]] + ps[1..];
      [ps[0]] + Insert(p, ps[1..])
  }

  /** `sorted(pairs, key=lambda p: len(p[0]), reverse=True)`, which Python keeps stable. */
  function ByLength(ps: seq<Correction>): (r: seq<Correction>)
    ensures multiset(r) == multiset(ps)
  {
    if ps == [] then []
    else
      assert ps == ps[..|ps| - 1] + [ps[|ps| - 1]];
      Insert(ps[|ps| - 1], ByLength(ps[..|ps| - 1]))
  }

  /** The passes from entry `k` on. */
  function Passes(ordered: seq<Correction>, text: string, k: nat): string
    requires k <= |ordered|
    decreases |ordered| - k
  {
    if k == |ordered| then text else Passes(ordered, Pass(text, ordered[k]), k + 1)
  }

  function Pass(text: string, p: Correction): string {
    if p.variant == "" then text else Replace(text, p.variant, p.canonical)
  }

  function Normalized(corrections: seq<Correction>, text: string): string {
    Passes(ByLength(corrections), text, 0)
  }

  class TextNormalizer {
    const ordered: seq<Correction>

    constructor (corrections: seq<Correction>)
      ensures ordered == ByLength(corrections)
      ensures Descending(ordered) && multiset(ordered) == multiset(corrections)
    {
      ordered := ByLength(corrections);
      ByLengthDescending(corrections);
    }

    method Normalize(text: string) returns (r: string)
      ensures r == Passes(ordered, text, 0)
    {
      r := text;
      for i := 0 to |ordered|
        invariant Passes(ordered, r, i) == Passes(ordered, text, 0)
      {
        if ordered[i].variant != "" {
          r := Replace(r, ordered[i].variant, ordered[i].canonical);
        }
      }
    }
  }

  // ---------- the order ----------

  predicate Descending(ps: seq<Correction>) {
    forall i, j :: 0 <= i < j < |ps| ==> |ps[i].variant| >= |ps[j].variant|
  }

  lemma {:induction false} InsertDescending(p: Correction, ps: seq<Correction>)
    requires Descending(ps)
    ensures Descending(Insert(p, ps))
  {
    if ps != [] && |p.variant| <= |ps[0].variant| {
      var r := Insert(p, ps[1..]);
      InsertDescending(p, ps[1..]);
      forall q | q in r ensures |q.variant| <= |ps[0].variant| {
        assert q in multiset(r);
        assert q == p || q in ps[1..];
      }
    }
  }

  ghost predicate Precedes(ps: seq<Correction>, x: Correction, y: Correction) {
    exists i, j :: 0 <= i < j < |ps| && ps[i] == x && ps[j] == y
  }

  lemma PrecedesIn(ps: seq<Correction>, i: nat, j: nat)
    requires i < j < |ps|
    ensures Precedes(ps, ps[i], ps[j])
  {
  }

  lemma PrecedesBehind(q: Correction, ps: seq<Correction>, x: Correction, y: Correction)
    requires Precedes(ps, x, y)
    ensures Precedes([q] + ps, x, y)
  {
    var i, j :| 0 <= i < j < |ps| && ps[i] == x && ps[j] == y;
    PrecedesIn([q] + ps, i + 1, j + 1);
  }

  lemma PrecedesHead(q: Correction, ps: seq<Correction>, y: Correction)
    requires y in ps
    ensures Precedes([q] + ps, q, y)
  {
    var j :| 0 <= j < |ps| && ps[j] == y;
    PrecedesIn([q] + ps, 0, j + 1);
  }

  lemma InsertMembers(p: Correction, ps: seq<Correction>, q: Correction)
    requires q == p || q in ps
    ensures q in Insert(p, ps)
  {
    assert q in multiset(ps) + multiset{p};
    assert q in multiset(Insert(p, ps));
  }

  /** Inserting keeps the order of the others. */
  lemma {:induction false} InsertKeepsOrder(p: Correction, ps: seq<Correction>, i: nat, j: nat)
    requires i < j < |ps|
    ensures Precedes(Insert(p, ps), ps[i], ps[j])
  {
    hide Precedes;
    PrecedesIn(ps, i, j);
    if |p.variant| > |ps[0].variant| {
      PrecedesBehind(p, ps, ps[i], ps[j]);
    } else {
      var rest := ps[1..];
      assert ps[j] == rest[j - 1];
      if i == 0 {
        InsertMembers(p, rest, rest[j - 1]);
        PrecedesHead(ps[0], Insert(p, rest), ps[j]);
      } else {
        assert ps[i] == rest[i - 1];
        InsertKeepsOrder(p, rest, i - 1, j - 1);
        PrecedesBehind(ps[0], Insert(p, rest), ps[i], ps[j]);
      }
    }
  }

  /** The new entry goes behind everything at least as long. */
  lemma {:induction false} InsertBehind(p: Correction, ps: seq<Correction>, x: Correction)
    requires Descending(ps) && x in ps && |x.variant| >= |p.variant|
    ensures Precedes(Insert(p, ps), x, p)
  {
    hide Precedes;
    var rest := ps[1..];
    assert |p.variant| <= |ps[0].variant|;
    if x == ps[0] {
      InsertMembers(p, rest, p);
      PrecedesHead(ps[0], Insert(p, rest), p);
    } else {
      InsertBehind(p, rest, x);
      PrecedesBehind(ps[0], Insert(p, rest), x, p);
    }
  }

  lemma {:induction false} ByLengthDescending(ps: seq<Correction>)
    ensures Descending(ByLength(ps))
  {
    if ps != [] {
      ByLengthDescending(ps[..|ps| - 1]);
      InsertDescending(ps[|ps| - 1], ByLength(ps[..|ps| - 1]));
    }
  }

  /** Of two entries the earlier one stays first unless it is shorter; otherwise the longer one is first. */
  lemma {:induction false} ByLengthStable(ps: seq<Correction>, i: nat, j: nat)
    requires i < j < |ps| && |ps[i].variant| >= |ps[j].variant|
    ensures Precedes(ByLength(ps), ps[i], ps[j])
    decreases |ps|
  {
    var init, last := ps[..|ps| - 1], ps[|ps| - 1];
    var sorted := ByLength(init);
    assert ps[i] == init[i];
    if j < |init| {
      assert ps[j] == init[j];
      ByLengthStable(init, i, j);
      var a, b :| 0 <= a < b < |sorted| && sorted[a] == ps[i] && sorted[b] == ps[j];
      InsertKeepsOrder(last, sorted, a, b);
    } else {
      SortedMembers(init);
      ByLengthDescending(init);
      InsertBehind(last, sorted, ps[i]);
    }
  }

  // ---------- normal form ----------

  /** Canonical forms are non-empty and no variant overlaps one. */
  ghost predicate Separated(ps: seq<Correction>) {
    forall p, q :: p in ps && q in ps && p.variant != "" && q.variant != "" ==> Apart(p.canonical, q.variant)
  }

  ghost predicate FreeOf(text: string, ps: seq<Correction>) {
    forall p :: p in ps && p.variant != "" ==> !Contains(text, p.variant)
  }

  lemma {:induction false} PassesNormal(ordered: seq<Correction>, text: string, k: nat)
    requires k <= |ordered| && Separated(ordered) && FreeOf(text, ordered[..k])
    ensures FreeOf(Passes(ordered, text, k), ordered)
    decreases |ordered| - k
  {
    if k == |ordered| {
      assert ordered[..k] == ordered;
    } else {
      var p := ordered[k];
      forall q | q in ordered[..k + 1] && q.variant != "" ensures !Contains(Pass(text, p), q.variant) {
        assert q in ordered && (q == p || q in ordered[..k]);
        if p.variant != "" {
          ReplaceNoNew(text, p.variant, p.canonical, q.variant);
        }
      }
      PassesNormal(ordered, Pass(text, p), k + 1);
    }
  }

  lemma SortedMembers(ps: seq<Correction>)
    ensures forall p :: p in ByLength(ps) <==> p in ps
  {
    forall p ensures p in ByLength(ps) <==> p in ps {
      assert p in ByLength(ps) <==> p in multiset(ByLength(ps));
      assert p in ps <==> p in multiset(ps);
    }
  }

  /** No variant of the table occurs in a normalised text. */
  lemma NormalForm(ps: seq<Correction>, text: string)
    requires Separated(ps)
    ensures FreeOf(Normalized(ps, text), ps)
  {
    SortedMembers(ps);
    PassesNormal(ByLength(ps), text, 0);
  }

  lemma {:induction false} PassesIdle(ordered: seq<Correction>, text: string, k: nat)
    requires k <= |ordered| && FreeOf(text, ordered)
    ensures Passes(ordered, text, k) == text
    decreases |ordered| - k
  {
    if k < |ordered| {
      var p := ordered[k];
      if p.variant != "" {
        ReplaceAbsent(text, p.variant, p.canonical);
      }
      PassesIdle(ordered, text, k + 1);
    }
  }

  lemma LongerNotInside(text: string, v: string)
    requires v != text && |v| >= |text|
    ensures !Contains(text, v)
  {
    forall i | 0 <= i <= |text| ensures !(v <= text[i..]) {
      if i == 0 {
        assert text[0..] == text;
      }
    }
  }

  lemma {:induction false} PassesWaste(ordered: seq<Correction>, text: string, k: nat, m: nat)
    requires k <= m <= |ordered|
    requires forall i :: k <= i < m && ordered[i].variant != "" ==> !Contains(text, ordered[i].variant)
    ensures Passes(ordered, text, k) == Passes(ordered, text, m)
    decreases m - k
  {
    hide Contains;
    hide Replace;
    if k < m {
      if ordered[k].variant != "" {
        ReplaceAbsent(text, ordered[k].variant, ordered[k].canonical);
      }
      PassesWaste(ordered, text, k + 1, m);
    }
  }

  /**
    A text that is one variant becomes its canonical form, also when shorter variants occur in it: the
    longer one comes first.
   */
  lemma LongestWins(ps: seq<Correction>, p: Correction)
    requires p in ps && p.variant != "" && forall q :: q in ps && q.variant == p.variant ==> q == p
    requires FreeOf(p.canonical, ps)
    ensures Normalized(ps, p.variant) == p.canonical
  {
    hide Contains;
    hide Pass;
    hide ByLength;
    var ordered := ByLength(ps);
    SortedMembers(ps);
    ByLengthDescending(ps);
    var m := FirstOf(ordered, p);
    forall i | 0 <= i < m && ordered[i].variant != "" ensures !Contains(p.variant, ordered[i].variant) {
      assert ordered[i] in ps;
      LongerNotInside(p.variant, ordered[i].variant);
    }
    PassesWaste(ordered, p.variant, 0, m);
    WholePass(p);
    forall i | m + 1 <= i < |ordered| && ordered[i].variant != "" ensures !Contains(p.canonical, ordered[i].variant) {
      assert ordered[i] in ps;
    }
    PassesWaste(ordered, p.canonical, m + 1, |ordered|);
  }

  lemma WholePass(p: Correction)
    requires p.variant != ""
    ensures Pass(p.variant, p) == p.canonical
  {
    assert p.variant[|p.variant|..] == "";
    assert Replace("", p.variant, p.canonical) == "";
  }

  lemma FirstOf(s: seq<Correction>, p: Correction) returns (m: nat)
    requires p in s
    ensures m < |s| && s[m] == p && forall i :: 0 <= i < m ==> s[i] != p
  {
    m := 0;
    while s[m] != p
      invariant m < |s| && forall i :: 0 <= i < m ==> s[i] != p
      decreases |s| - m
    {
      m := m + 1;
    }
  }

  /** Normalising twice is normalising once, and exactly the variant-free texts are left alone. */
  lemma NormalizeIdempotent(ps: seq<Correction>, text: string)
    requires Separated(ps)
    ensures Normalized(ps, Normalized(ps, text)) == Normalized(ps, text)
    ensures Normalized(ps, text) == text <==> FreeOf(text, ps)
  {
    SortedMembers(ps);
    NormalForm(ps, text);
    PassesIdle(ByLength(ps), Normalized(ps, text), 0);
    if FreeOf(text, ps) {
      PassesIdle(ByLength(ps), text, 0);
    }
  }
}
