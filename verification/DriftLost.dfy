/** Texts that are not safe are not recovered: a character count tells the result from the text. */
module DriftLost {
  import opened Seqs
  import opened Replacing
  import opened Normalizer
  import opened Drift
  import opened NotationTable
  import opened DriftExact

  // ---------- counting characters through replacements ----------

  function Weight(cs: set<char>, s: string): nat {
    if s == "" then 0 else (if s[0] in cs then 1 else 0) + Weight(cs, s[1..])
  }

  lemma {:induction false} WeightConcat(cs: set<char>, a: string, b: string)
    ensures Weight(cs, a + b) == Weight(cs, a) + Weight(cs, b)
  {
    if a == "" {
      assert a + b == b;
    } else {
      assert (a + b)[1..] == a[1..] + b;
      WeightConcat(cs, a[1..], b);
    }
  }

  /** Replacements `Replace` makes. */
  function Hits(s: string, v: string): nat
    requires v != ""
    decreases |s|
  {
    if s == "" then 0
    else if v <= s then 1 + Hits(s[|v|..], v)
    else Hits(s[1..], v)
  }

  lemma {:induction false} WeightReplace(cs: set<char>, s: string, v: string, c: string, grows: bool)
    requires v != "" && Weight(cs, c) == Weight(cs, v) + if grows then 1 else 0
    ensures Weight(cs, Replace(s, v, c)) == Weight(cs, s) + if grows then Hits(s, v) else 0
    decreases |s|
  {
    if s == "" {
    } else if v <= s {
      var rest := s[|v|..];
      assert s == v + rest;
      WeightReplace(cs, rest, v, c, grows);
      WeightConcat(cs, v, rest);
      WeightConcat(cs, c, Replace(rest, v, c));
    } else {
      WeightReplace(cs, s[1..], v, c, grows);
      assert Replace(s, v, c)[1..] == Replace(s[1..], v, c);
    }
  }

  /** Places where `v` starts. */
  function Places(s: string, v: string): nat {
    if s == "" then 0 else (if v <= s then 1 else 0) + Places(s[1..], v)
  }

  ghost predicate Unbordered(v: string) {
    forall d :: 0 < d < |v| ==> Clash(v, v, d)
  }

  lemma {:induction false} PlacesSkip(s: string, v: string, m: nat)
    requires m <= |s| && forall k :: 0 <= k < m ==> !(v <= s[k..])
    ensures Places(s, v) == Places(s[m..], v)
    decreases m
  {
    assert s[0..] == s;
    if m > 0 {
      forall k | 0 <= k < m - 1 ensures !(v <= s[1..][k..]) {
        assert s[1..][k..] == s[k + 1..];
      }
      PlacesSkip(s[1..], v, m - 1);
      assert s[1..][m - 1..] == s[m..];
    }
  }

  /** The scan hits every place, as no two places overlap. */
  lemma {:induction false} HitsAll(s: string, v: string)
    requires v != "" && Unbordered(v)
    ensures Hits(s, v) == Places(s, v)
    decreases |s|
  {
    if s == "" {
    } else if v <= s {
      HitsAll(s[|v|..], v);
      forall k | 0 <= k < |v| - 1 ensures !(v <= s[1..][k..]) {
        assert Clash(v, v, k + 1);
        var j :| 0 <= j < |v| && 0 <= k + 1 + j < |v| && v[k + 1 + j] != v[j];
        assert s[1..][k..][j] == s[k + 1 + j];
      }
      PlacesSkip(s[1..], v, |v| - 1);
      assert s[1..][|v| - 1..] == s[|v|..];
    } else {
      HitsAll(s[1..], v);
    }
  }

  lemma {:induction false} PlacesBehind(s: string, v: string, m: nat)
    requires m <= |s|
    ensures Places(s, v) >= Places(s[m..], v)
    decreases m
  {
    assert s[0..] == s;
    if m > 0 {
      PlacesBehind(s[1..], v, m - 1);
      assert s[1..][m - 1..] == s[m..];
    }
  }

  lemma {:induction false} PlacesExtra(s: string, v: string, q: nat, m: nat)
    requires q < m <= |s| && v <= s[q..]
    ensures Places(s, v) >= Places(s[m..], v) + 1
    decreases m
  {
    assert s[0..] == s;
    assert s[1..][m - 1..] == s[m..];
    if q == 0 {
      PlacesBehind(s[1..], v, m - 1);
    } else {
      assert s[1..][q - 1..] == s[q..];
      PlacesExtra(s[1..], v, q - 1, m - 1);
    }
  }

  // ---------- terms and places ----------

  function Terms(ps: seq<Piece>, e: Correction): nat {
    if ps == [] then 0 else (if ps[0] == Term(e) then 1 else 0) + Terms(ps[1..], e)
  }

  /** In the pieces from `i` on, the variant of `e` starts `q` characters into a piece that is not a term of `e`. */
  ghost predicate Stray(ps: seq<Piece>, done: set<Correction>, e: Correction, i: nat, q: nat) {
    && i < |ps| && ps[i] != Term(e)
    && q < |Written(ps[i], done)| && e.variant <= Show(ps[i..], done)[q..]
  }

  lemma {:induction false} TermsArePlaces(ps: seq<Piece>, done: set<Correction>, e: Correction)
    requires e !in done && e.variant != ""
    ensures Places(Show(ps, done), e.variant) >= Terms(ps, e)
  {
    if ps != [] {
      TermsArePlaces(ps[1..], done, e);
      var s, m := Show(ps, done), |Written(ps[0], done)|;
      assert s[m..] == Show(ps[1..], done);
      if ps[0] == Term(e) {
        assert s[0..] == s;
        PlacesExtra(s, e.variant, 0, m);
      } else {
        PlacesBehind(s, e.variant, m);
      }
    }
  }

  lemma {:induction false} StrayIsExtra(ps: seq<Piece>, done: set<Correction>, e: Correction, i: nat, q: nat)
    requires e !in done && e.variant != "" && Stray(ps, done, e, i, q)
    ensures Places(Show(ps, done), e.variant) > Terms(ps, e)
  {
    var s, m := Show(ps, done), |Written(ps[0], done)|;
    assert s[m..] == Show(ps[1..], done);
    if i == 0 {
      assert ps[0..] == ps;
      TermsArePlaces(ps[1..], done, e);
      PlacesExtra(s, e.variant, q, m);
    } else {
      assert ps[1..][i - 1..] == ps[i..];
      StrayIsExtra(ps[1..], done, e, i - 1, q);
      if ps[0] == Term(e) {
        assert s[0..] == s;
        PlacesExtra(s, e.variant, 0, m);
      } else {
        PlacesBehind(s, e.variant, m);
      }
    }
  }

  // ---------- a tally that only the entry in question moves ----------

  /** Restoring an `e` adds one to the tally; restoring any other entry leaves it. */
  ghost predicate Tallies(cs: set<char>, e: Correction, table: seq<Correction>) {
    forall f :: f in table ==> Weight(cs, f.canonical) == Weight(cs, f.variant) + if f == e then 1 else 0
  }

  lemma {:induction false} TallyShow(cs: set<char>, e: Correction, table: seq<Correction>, ps: seq<Piece>,
                                     done: set<Correction>, all: set<Correction>)
    requires Tallies(cs, e, table) && TermsIn(ps, table) && e !in done && forall f :: f in table ==> f in all
    ensures Weight(cs, Show(ps, all)) == Weight(cs, Show(ps, done)) + Terms(ps, e)
  {
    if ps != [] {
      TallyShow(cs, e, table, ps[1..], done, all);
      WeightConcat(cs, Written(ps[0], all), Show(ps[1..], all));
      WeightConcat(cs, Written(ps[0], done), Show(ps[1..], done));
    }
  }

  lemma {:induction false} TallyPasses(cs: set<char>, e: Correction, ordered: seq<Correction>, text: string, k: nat)
    requires k <= |ordered| && Tallies(cs, e, ordered)
    requires forall i :: k <= i < |ordered| ==> ordered[i] != e
    ensures Weight(cs, Passes(ordered, text, k)) == Weight(cs, text)
    decreases |ordered| - k
  {
    if k < |ordered| {
      var p := ordered[k];
      assert p in ordered;
      if p.variant != "" {
        WeightReplace(cs, text, p.variant, p.canonical, false);
      }
      TallyPasses(cs, e, ordered, Pass(text, p), k + 1);
    }
  }

  /** A pass that finds a stray makes too many replacements, and no later pass takes one back. */
  lemma StrayIsFatal(cs: set<char>, ordered: seq<Correction>, ps: seq<Piece>, k: nat, i: nat, q: nat,
                     all: set<Correction>)
    requires k < |ordered| && NoDup(ordered) && Tallies(cs, ordered[k], ordered) && TermsIn(ps, ordered)
    requires ordered[k].variant != "" && Unbordered(ordered[k].variant)
    requires Stray(ps, DoneBefore(ordered, k), ordered[k], i, q)
    requires forall f :: f in ordered ==> f in all
    ensures Passes(ordered, Show(ps, DoneBefore(ordered, k)), k) != Show(ps, all)
  {
    var e, done := ordered[k], DoneBefore(ordered, k);
    var s := Show(ps, done);
    DoneStep(ordered, k);
    hide DoneBefore;
    hide Stray;
    StrayIsExtra(ps, done, e, i, q);
    HitsAll(s, e.variant);
    assert e in ordered;
    WeightReplace(cs, s, e.variant, e.canonical, true);
    TallyShow(cs, e, ordered, ps, done, all);
    TallyPasses(cs, e, ordered, Pass(s, e), k + 1);
  }

  // ---------- finding the stray behind a trap ----------

  /** No run of raw pieces spells `w`. */
  ghost predicate Unspelled(ps: seq<Piece>, w: string) {
    ps == [] || (!SpellsRaw(ps, w) && Unspelled(ps[1..], w))
  }

  lemma {:induction false} MarkReflects(ps: seq<Piece>, e: Correction, w: string)
    requires e.canonical != "" && SpellsRaw(Mark(ps, e), w)
    ensures SpellsRaw(ps, w)
    decreases |ps|
  {
    if w != "" {
      assert Mark(ps, e)[0] == Raw(w[0]);
      assert ps != [] && !SpellsRaw(ps, e.canonical);
      var m := Mark(ps[1..], e);
      forall i | 0 <= i < |w[1..]| ensures m[i] == Raw(w[1..][i]) {
        assert m[i] == Mark(ps, e)[i + 1];
      }
      MarkReflects(ps[1..], e, w[1..]);
      forall i | 0 <= i < |w| ensures ps[i] == Raw(w[i]) {
        if i > 0 {
          assert ps[i] == ps[1..][i - 1] && w[i] == w[1..][i - 1];
        }
      }
    }
  }

  lemma {:induction false} UnspelledDrop(ps: seq<Piece>, w: string, k: nat)
    requires k <= |ps| && Unspelled(ps, w)
    ensures Unspelled(ps[k..], w)
    decreases k
  {
    if k == 0 {
      assert ps[0..] == ps;
    } else {
      UnspelledDrop(ps[1..], w, k - 1);
      assert ps[1..][k - 1..] == ps[k..];
    }
  }

  lemma {:induction false} MarkUnspelled(ps: seq<Piece>, e: Correction, w: string)
    requires e.canonical != "" && w != "" && (w == e.canonical || Unspelled(ps, w))
    ensures Unspelled(Mark(ps, e), w)
    decreases |ps|
  {
    if ps != [] {
      var k := if SpellsRaw(ps, e.canonical) then |e.canonical| else 1;
      if w != e.canonical {
        UnspelledDrop(ps, w, k);
      }
      MarkUnspelled(ps[k..], e, w);
      assert Mark(ps, e)[1..] == Mark(ps[k..], e);
      if k == 1 && !SpellsRaw(ps, e.canonical) {
        if SpellsRaw(Mark(ps, e), w) {
          MarkReflects(ps, e, w);
        }
      } else {
        assert Mark(ps, e)[0] == Term(e);
      }
    }
  }

  lemma {:induction false} MarkedUnspelled(table: seq<Correction>, ps: seq<Piece>, k: nat, f: Correction)
    requires k <= |table| && (forall e :: e in table ==> e.canonical != "") && f in table
    requires f in table[k..] || Unspelled(ps, f.canonical)
    ensures Unspelled(Marked(table, ps, k), f.canonical)
    decreases |table| - k
  {
    if k < |table| {
      if f == table[k] || Unspelled(ps, f.canonical) {
        MarkUnspelled(ps, table[k], f.canonical);
      } else {
        assert f in table[k + 1..];
      }
      MarkedUnspelled(table, Mark(ps, table[k]), k + 1, f);
    }
  }

  // ---------- the traps of the shipped table ----------

  function Tally(e: Correction): set<char> {
    if e == ROSUI then {'漏', 'み'} else if e == FUGUAI then {'不'} else if e == ION then {'異'} else {'騒'}
  }

  function One(cs: set<char>, s: string, i: nat): nat { if i < |s| && s[i] in cs then 1 else 0 }

  lemma WeightAt(cs: set<char>, s: string, i: nat)
    requires i <= |s|
    ensures Weight(cs, s[i..]) == if i == |s| then 0 else One(cs, s, i) + Weight(cs, s[i + 1..])
  {
    if i < |s| {
      assert s[i..][1..] == s[i + 1..];
    }
  }

  /** `Weight` of a short string, written out. */
  lemma ShortWeight(cs: set<char>, s: string)
    requires 2 <= |s| <= 4
    ensures Weight(cs, s) == One(cs, s, 0) + One(cs, s, 1) + One(cs, s, 2) + One(cs, s, 3)
  {
    assert s[0..] == s;
    WeightAt(cs, s, 0);
    WeightAt(cs, s, 1);
    WeightAt(cs, s, 2);
    if |s| > 2 {
      WeightAt(cs, s, 3);
    }
    if |s| > 3 {
      WeightAt(cs, s, 4);
    }
  }

  /** The tally letters among the canonical forms and the variants. */
  lemma TallyLetters(f: Correction)
    requires f in NOTATION_DRIFT
    ensures forall i :: 0 <= i < |f.canonical| ==>
              && (f.canonical[i] == '不' ==> f == FUGUAI && i == 0)
              && (f.canonical[i] == '騒' ==> f == SOON && i == 0)
              && (f.canonical[i] == '異' ==> f == ION && i == 0)
              && (f.canonical[i] == '漏' ==> (f == ROSUI && i == 0) || (f == MIZUMORE && i == 1))
              && f.canonical[i] != 'み'
    ensures forall i :: 0 <= i < |f.variant| && f.variant[i] == 'み' ==> f == MIZUMORE && i == 0
  {
  }

  lemma TallyHolds(e: Correction, f: Correction)
    requires Trap(e) != "" && f in NOTATION_DRIFT
    ensures Weight(Tally(e), f.canonical) == Weight(Tally(e), f.variant) + if f == e then 1 else 0
  {
    TableWords(f);
    TallyLetters(f);
    hide NOTATION_DRIFT;
    if e == ROSUI {
      RosuiTally(f);
    } else if e == FUGUAI {
      LetterTally('不', f, f == e);
    } else if e == ION {
      LetterTally('異', f, f == e);
    } else {
      LetterTally('騒', f, f == e);
    }
  }

  lemma RosuiTally(f: Correction)
    requires f in NOTATION_DRIFT
    ensures Weight(Tally(ROSUI), f.canonical) == Weight(Tally(ROSUI), f.variant) + if f == ROSUI then 1 else 0
  {
    hide NOTATION_DRIFT;
    hide Weight;
    TableWords(f);
    TallyLetters(f);
    ShortWeight(Tally(ROSUI), f.canonical);
    ShortWeight(Tally(ROSUI), f.variant);
    assert ROSUI.canonical[0] == '漏' && MIZUMORE.canonical[1] == '漏' && MIZUMORE.variant[0] == 'み';
  }

  lemma LetterTally(x: char, f: Correction, own: bool)
    requires KanjiWord(f.canonical) && KanaWord(f.variant) && !Hiragana(x)
    requires forall i :: 0 <= i < |f.canonical| ==> (f.canonical[i] == x <==> own && i == 0)
    ensures Weight({x}, f.canonical) == Weight({x}, f.variant) + if own then 1 else 0
  {
    ShortWeight({x}, f.canonical);
    ShortWeight({x}, f.variant);
  }

  lemma VariantUnbordered(e: Correction)
    requires e in NOTATION_DRIFT
    ensures Unbordered(e.variant)
  {
    forall d | 0 < d < |e.variant| ensures Clash(e.variant, e.variant, d) {
      if !Clash(e.variant, e.variant, d) {
        Overlaps(e, e, d);
      }
    }
  }

  /** Characters of no canonical form. */
  const KANA: set<char> := {'お', 'ん', 'ろ', 'う', 'す', 'ふ', 'ぐ', 'あ'}

  lemma CanonicalNotKana(g: Correction)
    requires g in NOTATION_DRIFT
    ensures g.canonical != "" && forall i :: 0 <= i < |g.canonical| ==> g.canonical[i] !in KANA
  {
    TableWords(g);
    hide NOTATION_DRIFT;
    assert forall c :: c in KANA ==> Hiragana(c) && c != 'れ';
  }

  /** The entries whose canonical form stands in a trap. */
  predicate InTrap(f: Correction) { f == ION || f == KASAI || f == SEISO }

  lemma TrapLetters(f: Correction)
    requires InTrap(f)
    ensures |f.canonical| == 2 && f in NOTATION_DRIFT
  {
    assert NOTATION_DRIFT[4] == ION && NOTATION_DRIFT[9] == SEISO && NOTATION_DRIFT[10] == KASAI;
  }

  /** Its first character starts no other canonical form and is inside none, its second starts none. */
  lemma CanonicalLetters(f: Correction, g: Correction)
    requires InTrap(f) && g in NOTATION_DRIFT
    ensures |f.canonical| == 2
    ensures forall i :: 0 <= i < |g.canonical| && g.canonical[i] == f.canonical[0] ==> i == 0 && g == f
    ensures g.canonical != "" && g.canonical[0] != f.canonical[1]
  {
  }

  /** Letters of no canonical form that the text shows are raw pieces. */
  lemma {:induction false} KanaIsRaw(ps: seq<Piece>, w: string)
    requires TermsIn(ps, NOTATION_DRIFT) && w <= Show(ps, ALL) && forall i :: 0 <= i < |w| ==> w[i] in KANA
    ensures SpellsRaw(ps, w)
  {
    hide NOTATION_DRIFT;
    hide ALL;
    if w != "" {
      assert ps != [];
      if ps[0].Term? {
        InAll(ps[0].e);
        CanonicalNotKana(ps[0].e);
      }
      assert w == [w[0]] + w[1..];
      KanaIsRaw(ps[1..], w[1..]);
      forall i | 0 <= i < |w| ensures ps[i] == Raw(w[i]) {
        if i > 0 {
          assert ps[i] == ps[1..][i - 1];
        }
      }
    }
  }

  /** A canonical form from a trap that the text shows, and raw pieces do not spell, is a term. */
  lemma HoleAt(ps: seq<Piece>, f: Correction)
    requires TermsIn(ps, NOTATION_DRIFT) && InTrap(f) && f.canonical <= Show(ps, ALL)
    requires !SpellsRaw(ps, f.canonical)
    ensures ps != [] && ps[0] == Term(f)
  {
    hide NOTATION_DRIFT;
    hide ALL;
    TrapLetters(f);
    assert ps != [];
    match ps[0]
    case Term(g) =>
      InAll(g);
      CanonicalLetters(f, g);
      assert g.canonical[0] == Show(ps, ALL)[0];
    case Raw(c) =>
      var rest := ps[1..];
      assert Show(rest, ALL)[0] == f.canonical[1];
      assert rest != [] && rest[0] == ps[1];
      if rest[0].Term? {
        InAll(rest[0].e);
        CanonicalNotKana(rest[0].e);
        assert Show(rest, ALL)[0] == rest[0].e.canonical[0];
        CanonicalLetters(f, rest[0].e);
      }
  }

  /** An occurrence that cannot start inside a canonical form starts with a piece. */
  lemma {:induction false} Locate(ps: seq<Piece>, w: string) returns (i: nat)
    requires TermsIn(ps, NOTATION_DRIFT) && w != "" && Contains(Show(ps, ALL), w)
    requires forall g, j :: g in NOTATION_DRIFT && 0 < j < |g.canonical| ==> g.canonical[j] != w[0]
    ensures i < |ps| && w <= Show(ps[i..], ALL)
  {
    hide NOTATION_DRIFT;
    hide ALL;
    var s := Show(ps, ALL);
    var p :| 0 <= p <= |s| && w <= s[p..];
    assert ps != [] && s[p] == w[0];
    if ps[0].Term? {
      InAll(ps[0].e);
    }
    var m := |Written(ps[0], ALL)|;
    if p == 0 {
      i := 0;
      assert ps[0..] == ps && s[0..] == s;
    } else {
      assert p >= m;
      assert s[p..] == Show(ps[1..], ALL)[p - m..];
      i := Locate(ps[1..], w);
      assert ps[1..][i..] == ps[i + 1..];
      i := i + 1;
    }
  }

  lemma FirstLetters(e: Correction)
    requires Trap(e) != ""
    ensures forall g, j :: g in NOTATION_DRIFT && 0 < j < |g.canonical| ==> g.canonical[j] != Trap(e)[0]
  {
    var f := if e == SOON then SEISO else if e == ION then KASAI else ION;
    forall g, j | g in NOTATION_DRIFT && 0 < j < |g.canonical| ensures g.canonical[j] != Trap(e)[0] {
      CanonicalLetters(f, g);
      CanonicalNotKana(g);
      hide NOTATION_DRIFT;
      assert e == ROSUI ==> Trap(e)[0] == 'ろ';
      assert e == FUGUAI ==> Trap(e)[0] == 'ふ';
      assert e == ION || e == SOON ==> Trap(e)[0] == f.canonical[0];
    }
  }

  lemma TrapSpelled(e: Correction)
    requires e == ROSUI || e == FUGUAI
    ensures |Trap(e)| == 5 && |e.variant| == 4
    ensures Trap(e)[..3] == e.variant[..3] && forall i :: 0 <= i < 3 ==> Trap(e)[i] in KANA
    ensures Trap(e) == Trap(e)[..3] + ION.canonical && Trap(e)[3..] == ION.canonical
    ensures e.variant[3..] == ION.variant[..1]
  {
  }

  /** Kana, then 異音: the variant of `e` is spelled across the raw pieces and the term. */
  lemma StrayBefore(ps: seq<Piece>, done: set<Correction>, e: Correction)
    requires TermsIn(ps, NOTATION_DRIFT) && Unspelled(ps, ION.canonical) && ION !in done
    requires (e == ROSUI || e == FUGUAI) && Trap(e) <= Show(ps, ALL)
    ensures Stray(ps, done, e, 0, 0)
  {
    hide NOTATION_DRIFT;
    hide ALL;
    hide Written;
    var w := Trap(e)[..3];
    TrapSpelled(e);
    hide Trap;
    KanaIsRaw(ps, w);
    ShowSpelled(ps, w, ALL);
    ShowSpelled(ps, w, done);
    UnspelledDrop(ps, ION.canonical, 3);
    PrefixOfConcat(Trap(e), w, Show(ps[3..], ALL));
    HoleAt(ps[3..], ION);
    PrefixOfConcat(e.variant, w, Show(ps[3..], done));
    assert ps[0] == Raw(w[0]);
    TermShows(ps[3..], done, ION);
    assert e.variant[3..] <= Show(ps[3..], done);
    assert e.variant <= Show(ps, done);
    StrayAtStart(ps, done, e);
  }

  lemma TermShows(ps: seq<Piece>, done: set<Correction>, f: Correction)
    requires ps != [] && ps[0] == Term(f) && f !in done
    ensures f.variant <= Show(ps, done)
  {
  }

  lemma StrayAtStart(ps: seq<Piece>, done: set<Correction>, e: Correction)
    requires ps != [] && ps[0].Raw? && e.variant <= Show(ps, done)
    ensures Stray(ps, done, e, 0, 0)
  {
    hide Show;
    assert ps[0..] == ps && Show(ps, done)[0..] == Show(ps, done);
  }

  /** A term, then おん: the variant of `e` starts inside the term. */
  lemma StrayBehind(ps: seq<Piece>, done: set<Correction>, e: Correction, f: Correction)
    requires TermsIn(ps, NOTATION_DRIFT) && Unspelled(ps, f.canonical) && f !in done
    requires (f == KASAI && e == ION) || (f == SEISO && e == SOON)
    requires f in ALL && Trap(e) <= Show(ps, ALL)
    ensures Stray(ps, done, e, 0, 2)
  {
    hide NOTATION_DRIFT;
    hide ALL;
    assert Trap(e) == f.canonical + "おん";
    HoleAt(ps, f);
    var rest := ps[1..];
    PrefixOfConcat(Trap(e), f.canonical, Show(rest, ALL));
    assert Trap(e)[|f.canonical|..] == "おん";
    KanaIsRaw(rest, "おん");
    ShowSpelled(rest, "おん", done);
    OverTheEdge(e, f, Show(rest[2..], done));
    assert ps[0..] == ps;
  }

  lemma OverTheEdge(e: Correction, f: Correction, tail: string)
    requires (f == KASAI && e == ION) || (f == SEISO && e == SOON)
    ensures |f.variant| > 2 && e.variant <= (f.variant + ("おん" + tail))[2..]
  {
    assert e.variant == f.variant[2..] + "おん";
    assert (f.variant + ("おん" + tail))[2..] == f.variant[2..] + ("おん" + tail);
    assert f.variant[2..] + ("おん" + tail) == e.variant + tail;
  }

  lemma PiecesUnspelled(text: string, f: Correction)
    requires f in NOTATION_DRIFT
    ensures Unspelled(PiecesOf(text), f.canonical)
  {
    CanonicalsNonEmpty();
    assert NOTATION_DRIFT[0..] == NOTATION_DRIFT;
    MarkedUnspelled(NOTATION_DRIFT, Raws(text), 0, f);
  }

  lemma StrayInText(text: string, done: set<Correction>, e: Correction) returns (i: nat, q: nat)
    requires Trap(e) != "" && InOrder(done, e) && Contains(text, Trap(e))
    ensures Stray(PiecesOf(text), done, e, i, q)
  {
    PiecesOfShow(text);
    FirstLetters(e);
    var f := if e == SOON then SEISO else if e == ION then KASAI else ION;
    TrapLetters(f);
    InAll(f);
    PiecesUnspelled(text, f);
    hide NOTATION_DRIFT;
    hide ALL;
    hide PiecesOf;
    var ps := PiecesOf(text);
    i := Locate(ps, Trap(e));
    UnspelledDrop(ps, f.canonical, i);
    if e == ROSUI || e == FUGUAI {
      StrayBefore(ps[i..], done, e);
      q := 0;
    } else {
      StrayBehind(ps[i..], done, e, f);
      q := 2;
    }
    assert ps[i..][0..] == ps[i..];
  }

  // ---------- the exact condition ----------

  lemma OrderTallies(e: Correction)
    requires Trap(e) != ""
    ensures Tallies(Tally(e), e, Order())
  {
    hide Order;
    hide Tally;
    forall f | f in Order()
      ensures Weight(Tally(e), f.canonical) == Weight(Tally(e), f.variant) + if f == e then 1 else 0
    {
      var i :| 0 <= i < |Order()| && Order()[i] == f;
      OrderEntry(i);
      TallyHolds(e, f);
    }
  }

  /** A text with a trap in it, safe for all entries before the trapped one, comes back different. */
  lemma TrappedIsLost(text: string, m: nat)
    requires m < |Order()| && forall i :: 0 <= i < m ==> SafeFor(text, Order()[i])
    requires Trap(Order()[m]) != "" && Contains(text, Trap(Order()[m]))
    ensures NormalOf(DriftOf(text)) != text
  {
    hide NOTATION_DRIFT;
    hide ALL;
    hide PiecesOf;
    hide Order;
    hide NormalOf;
    hide DriftOf;
    hide Tally;
    hide Stray;
    hide NoDup;
    hide Tallies;
    hide TermsIn;
    hide SafeFor;
    hide Trap;
    hide InOrder;
    hide DoneBefore;
    hide Unbordered;
    hide KeyPlaces;
    hide Descending;
    var e := Order()[m];
    PassesWhileSafe(text, m);
    PiecesOfShow(text);
    TableIsOrdered();
    OrderHolds(Order(), m);
    OrderEntry(m);
    VariantUnbordered(e);
    Starts(e);
    OrderTallies(e);
    OrderSorted();
    var ps := PiecesOf(text);
    var i, q := StrayInText(text, DoneBefore(Order(), m), e);
    forall f | f in Order() ensures f in ALL { assert f in Entries(Order()); }
    InOrderTerms(ps);
    StrayIsFatal(Tally(e), Order(), ps, m, i, q, ALL);
  }

  lemma InOrderTerms(ps: seq<Piece>)
    requires TermsIn(ps, NOTATION_DRIFT)
    ensures TermsIn(ps, Order())
  {
    SortedTerms(ps, NOTATION_DRIFT);
  }

  lemma SortedTerms(ps: seq<Piece>, table: seq<Correction>)
    requires TermsIn(ps, table)
    ensures TermsIn(ps, ByLength(table))
  {
    SortedMembers(table);
  }

  lemma PlaceInOrder(e: Correction) returns (k: nat)
    requires e in NOTATION_DRIFT
    ensures k < |Order()| && Order()[k] == e
  {
    k := SortedPlace(NOTATION_DRIFT, e);
  }

  lemma SortedPlace(table: seq<Correction>, e: Correction) returns (k: nat)
    requires e in table
    ensures k < |ByLength(table)| && ByLength(table)[k] == e
  {
    SortedMembers(table);
    k :| 0 <= k < |ByLength(table)| && ByLength(table)[k] == e;
  }

  lemma TableSeparated()
    ensures Separated(NOTATION_DRIFT)
  {
    IsDriftTable();
  }

  lemma UnsafeIsLost(text: string)
    requires !Safe(text)
    ensures NormalOf(DriftOf(text)) != text
  {
    var e :| e in NOTATION_DRIFT && !SafeFor(text, e);
    var k := PlaceInOrder(e);
    var m := FirstUnsafe(text, Order(), k);
    OrderEntry(m);
    var f := Order()[m];
    Starts(f);
    if Contains(text, f.variant) {
      TableSeparated();
      NormalForm(NOTATION_DRIFT, DriftOf(text));
    } else {
      TrappedIsLost(text, m);
    }
  }

  lemma FirstUnsafe(text: string, s: seq<Correction>, k: nat) returns (m: nat)
    requires k < |s| && !SafeFor(text, s[k])
    ensures m < |s| && !SafeFor(text, s[m])
    ensures forall i :: 0 <= i < m ==> SafeFor(text, s[i])
  {
    hide SafeFor;
    m := 0;
    while SafeFor(text, s[m])
      invariant m <= k && forall i :: 0 <= i < m ==> SafeFor(text, s[i])
      decreases k - m
    {
      m := m + 1;
    }
  }

  /**
    The shipped normaliser recovers a text from the shipped drift exactly when the text contains no
    variant and none of ろうす異音, ふぐあ異音, 火災おん, 清掃おん.
   */
  lemma ShippedRoundTrip(text: string)
    ensures NormalOf(DriftOf(text)) == text <==> Safe(text)
  {
    if Safe(text) {
      SafeIsRecovered(text);
    } else {
      UnsafeIsLost(text);
    }
  }

  /** For instance: 火災おん drifts to かさいおん, whose いおん is taken for a sound. */
  lemma FireSoundIsLost()
    ensures NormalOf(DriftOf("火災おん")) != "火災おん"
  {
    var text := "火災おん";
    hide NormalOf;
    hide DriftOf;
    assert ION == NOTATION_DRIFT[4];
    assert Trap(ION) == text && text[0..] == text;
    assert Contains(text, Trap(ION));
    assert !SafeFor(text, ION);
    hide NOTATION_DRIFT;
    UnsafeIsLost(text);
  }
}
