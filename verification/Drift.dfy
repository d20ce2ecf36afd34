/**
  Notation drift (scripts/synth.py) and the normaliser that must undo it. A drifted text is seen
  as pieces: raw characters, and the terms that drift replaced. `Show` writes the pieces down with
  some entries already restored to their canonical form.
 */
module Drift {
  import opened Seqs
  import opened Replacing
  import opened Normalizer

  /** `for canonical, variant in NOTATION_DRIFT.items(): drifted = drifted.replace(canonical, variant)` */
  function Drifted(table: seq<Correction>, text: string, k: nat): string
    requires k <= |table| && forall e :: e in table ==> e.canonical != ""
    decreases |table| - k
  {
    if k == |table| then text
    else Drifted(table, Replace(text, table[k].canonical, table[k].variant), k + 1)
  }

  method ApplyNotationDrift(table: seq<Correction>, text: string) returns (drifted: string, changed: bool)
    requires forall e :: e in table ==> e.canonical != ""
    ensures drifted == Drifted(table, text, 0) && (changed <==> drifted != text)
  {
    drifted := text;
    for i := 0 to |table|
      invariant Drifted(table, drifted, i) == Drifted(table, text, 0)
    {
      drifted := Replace(drifted, table[i].canonical, table[i].variant);
    }
    changed := drifted != text;
  }

  datatype Piece = Raw(c: char) | Term(e: Correction)

  function Written(p: Piece, done: set<Correction>): string {
    match p
    case Raw(c) => [c]
    case Term(e) => if e in done then e.canonical else e.variant
  }

  function Show(ps: seq<Piece>, done: set<Correction>): string {
    if ps == [] then "" else Written(ps[0], done) + Show(ps[1..], done)
  }

  function Raws(s: string): (ps: seq<Piece>)
    ensures |ps| == |s| && forall i :: 0 <= i < |s| ==> ps[i] == Raw(s[i])
  {
    seq(|s|, i requires 0 <= i < |s| => Raw(s[i]))
  }

  predicate SpellsRaw(ps: seq<Piece>, w: string) {
    |w| <= |ps| && forall i :: 0 <= i < |w| ==> ps[i] == Raw(w[i])
  }

  /** One drift step on pieces. */
  function Mark(ps: seq<Piece>, e: Correction): seq<Piece>
    requires e.canonical != ""
    decreases |ps|
  {
    if ps == [] then []
    else if SpellsRaw(ps, e.canonical) then [Term(e)] + Mark(ps[|e.canonical|..], e)
    else [ps[0]] + Mark(ps[1..], e)
  }

  /** All drift steps from entry `k` on. */
  function Marked(table: seq<Correction>, ps: seq<Piece>, k: nat): seq<Piece>
    requires k <= |table| && forall e :: e in table ==> e.canonical != ""
    decreases |table| - k
  {
    if k == |table| then ps else Marked(table, Mark(ps, table[k]), k + 1)
  }

  /** The pieces of a drifted text. */
  function Pieces(table: seq<Correction>, text: string): seq<Piece>
    requires forall e :: e in table ==> e.canonical != ""
  {
    Marked(table, Raws(text), 0)
  }

  function Entries(table: seq<Correction>): set<Correction> { set e | e in table }

  ghost predicate TermsIn(ps: seq<Piece>, table: seq<Correction>) {
    forall i :: 0 <= i < |ps| && ps[i].Term? ==> ps[i].e in table
  }

  ghost predicate NoDup(table: seq<Correction>) {
    forall i, j :: 0 <= i < j < |table| ==> table[i] != table[j]
  }

  /** No canonical form overlaps a variant, and none of them is empty. */
  ghost predicate DriftTable(table: seq<Correction>) {
    && (forall e, f :: e in table && f in table ==> Apart(e.canonical, f.variant) && Apart(f.variant, e.canonical))
    && (forall e :: e in table ==> e.canonical != "" && e.variant != "")
    && NoDup(table)
  }

  // ---------- drift on pieces ----------

  lemma {:induction false} ShowRaws(s: string, done: set<Correction>)
    ensures Show(Raws(s), done) == s
  {
    if s != "" {
      assert Raws(s)[1..] == Raws(s[1..]);
      ShowRaws(s[1..], done);
      assert [s[0]] + s[1..] == s;
    }
  }

  lemma {:induction false} ShowSpelled(ps: seq<Piece>, w: string, done: set<Correction>)
    requires SpellsRaw(ps, w)
    ensures Show(ps, done) == w + Show(ps[|w|..], done)
  {
    if w == "" {
      assert ps[0..] == ps;
    } else {
      assert ps[1..][|w[1..]|..] == ps[|w|..];
      ShowSpelled(ps[1..], w[1..], done);
      assert w == [w[0]] + w[1..];
    }
  }

  /** A canonical form found in the drifted text is spelled by raw pieces: here from position k of it on. */
  lemma {:induction false} FoundIsRaw(ps: seq<Piece>, table: seq<Correction>, w: string, k: nat)
    requires TermsIn(ps, table) && forall f :: f in table ==> Apart(f.variant, w)
    requires k <= |w| && w[k..] <= Show(ps, {})
    ensures SpellsRaw(ps, w[k..])
    decreases |ps|
  {
    if k < |w| {
      assert ps != [];
      match ps[0]
      case Term(f) =>
        ApartBefore(f.variant, Show(ps[1..], {}), w, k);
      case Raw(c) =>
        assert w[k..][0] == c && w[k..][1..] == w[k + 1..];
        FoundIsRaw(ps[1..], table, w, k + 1);
        forall i | 0 <= i < |w[k..]| ensures ps[i] == Raw(w[k..][i]) {
          if i > 0 {
            assert ps[i] == ps[1..][i - 1];
          }
        }
    }
  }

  lemma {:induction false} MarkShows(ps: seq<Piece>, table: seq<Correction>, e: Correction, all: set<Correction>)
    requires DriftTable(table) && TermsIn(ps, table) && e in table && e in all
    ensures Show(Mark(ps, e), {}) == Replace(Show(ps, {}), e.canonical, e.variant)
    ensures Show(Mark(ps, e), all) == Show(ps, all)
    ensures TermsIn(Mark(ps, e), table)
    decreases |ps|
  {
    if ps == [] {
    } else if SpellsRaw(ps, e.canonical) {
      var rest := ps[|e.canonical|..];
      ShowSpelled(ps, e.canonical, {});
      ShowSpelled(ps, e.canonical, all);
      MarkShows(rest, table, e, all);
      assert Mark(ps, e)[1..] == Mark(rest, e);
    } else {
      var rest := ps[1..];
      MarkShows(rest, table, e, all);
      assert Mark(ps, e)[1..] == Mark(rest, e);
      match ps[0]
      case Term(f) =>
        ReplaceBehind(f.variant, Show(rest, {}), e.canonical, e.variant);
      case Raw(c) =>
        if e.canonical <= Show(ps, {}) {
          assert e.canonical[0..] == e.canonical;
          FoundIsRaw(ps, table, e.canonical, 0);
        }
    }
  }

  lemma {:induction false} MarkedShows(table: seq<Correction>, ps: seq<Piece>, k: nat)
    requires DriftTable(table) && k <= |table| && TermsIn(ps, table)
    ensures Show(Marked(table, ps, k), {}) == Drifted(table, Show(ps, {}), k)
    ensures Show(Marked(table, ps, k), Entries(table)) == Show(ps, Entries(table))
    ensures TermsIn(Marked(table, ps, k), table)
    decreases |table| - k
  {
    if k < |table| {
      MarkShows(ps, table, table[k], Entries(table));
      MarkedShows(table, Mark(ps, table[k]), k + 1);
    }
  }

  /** The pieces show the drifted text, and fully restored they show the text itself. */
  lemma PiecesShow(table: seq<Correction>, text: string)
    requires DriftTable(table)
    ensures Show(Pieces(table, text), {}) == Drifted(table, text, 0)
    ensures Show(Pieces(table, text), Entries(table)) == text
    ensures TermsIn(Pieces(table, text), table)
  {
    ShowRaws(text, {});
    ShowRaws(text, Entries(table));
    MarkedShows(table, Raws(text), 0);
  }

  // ---------- one normaliser pass on pieces ----------

  /** In what the pieces show, the variant of `e` starts only where a term of `e` does. */
  ghost predicate OnlyAt(ps: seq<Piece>, done: set<Correction>, e: Correction) {
    ps == [] || (OnlyAt(ps[1..], done, e) && OnlyHere(ps, done, e))
  }

  ghost predicate OnlyHere(ps: seq<Piece>, done: set<Correction>, e: Correction)
    requires ps != []
  {
    forall q :: 0 <= q < |Written(ps[0], done)| && e.variant <= Show(ps, done)[q..] ==> ps[0] == Term(e) && q == 0
  }

  lemma {:induction false} PassRestores(ps: seq<Piece>, done: set<Correction>, e: Correction)
    requires OnlyAt(ps, done, e) && e !in done && e.variant != ""
    ensures Replace(Show(ps, done), e.variant, e.canonical) == Show(ps, done + {e})
  {
    if ps != [] {
      PassRestores(ps[1..], done, e);
      var w, rest := Written(ps[0], done), Show(ps[1..], done);
      if ps[0] == Term(e) {
        assert (e.variant + rest)[|e.variant|..] == rest;
      } else {
        ReplaceSkip(Show(ps, done), e.variant, e.canonical, |w|);
        assert Show(ps, done)[..|w|] == w && Show(ps, done)[|w|..] == rest;
      }
    }
  }

  /** What a variant finds among partly restored pieces it found before: here from position k of it on. */
  lemma {:induction false} ShowReflects(ps: seq<Piece>, done: set<Correction>, w: string, k: nat)
    requires forall i :: 0 <= i < |ps| && ps[i].Term? ==> Apart(ps[i].e.canonical, w)
    requires k <= |w| && w[k..] <= Show(ps, done)
    ensures w[k..] <= Show(ps, {})
    decreases |ps|
  {
    hide Apart;
    if k < |w| {
      assert ps != [];
      var t, rest := Written(ps[0], done), ps[1..];
      if ps[0].Term? && ps[0].e in done {
        ApartBefore(t, Show(rest, done), w, k);
      } else if k + |t| < |w| {
        PrefixOfConcat(w[k..], t, Show(rest, done));
        PrefixOfConcat(w[k..], t, Show(rest, {}));
        assert w[k..][|t|..] == w[k + |t|..];
        ShowReflects(rest, done, w, k + |t|);
      } else {
        PrefixOfConcat(w[k..], t, Show(rest, done));
        PrefixOfConcat(w[k..], t, Show(rest, {}));
      }
    }
  }

  /** If only drift put variants into the text, this stays so while entries are restored. */
  lemma {:induction false} OnlyAtStays(ps: seq<Piece>, table: seq<Correction>, done: set<Correction>, e: Correction)
    requires DriftTable(table) && TermsIn(ps, table) && e in table && OnlyAt(ps, {}, e)
    ensures OnlyAt(ps, done, e)
  {
    if ps != [] {
      OnlyAtStays(ps[1..], table, done, e);
      var t, w := Written(ps[0], done), e.variant;
      forall q | 0 <= q < |t| && w <= Show(ps, done)[q..] ensures ps[0] == Term(e) && q == 0 {
        if ps[0].Term? && ps[0].e in done {
          ApartInside(t, Show(ps[1..], done), w, q);
        } else {
          TailReflects(ps, done, w, q);
        }
      }
    }
  }

  lemma TailReflects(ps: seq<Piece>, done: set<Correction>, w: string, q: nat)
    requires ps != [] && (forall i :: 0 <= i < |ps| && ps[i].Term? ==> Apart(ps[i].e.canonical, w))
    requires q < |Written(ps[0], done)| && w <= Show(ps, done)[q..]
    requires Written(ps[0], done) == Written(ps[0], {})
    ensures w <= Show(ps, {})[q..]
  {
    hide Apart;
    hide Written;
    var t, rest := Written(ps[0], done), ps[1..];
    assert Show(ps, done)[q..] == t[q..] + Show(rest, done);
    assert Show(ps, {})[q..] == t[q..] + Show(rest, {});
    PrefixOfConcat(w, t[q..], Show(rest, done));
    PrefixOfConcat(w, t[q..], Show(rest, {}));
    if |t| - q <= |w| {
      ShowReflects(rest, done, w, |t| - q);
    }
  }

  // ---------- the round trip ----------

  function DoneBefore(ordered: seq<Correction>, k: nat): set<Correction>
    requires k <= |ordered|
  {
    Entries(ordered[..k])
  }

  /** While each pass meets only terms of its own entry, the passes restore one entry after the other. */
  lemma {:induction false} PassesRestore(ps: seq<Piece>, ordered: seq<Correction>, k: nat, m: nat)
    requires k <= m <= |ordered|
    requires NoDup(ordered)
    requires forall i :: k <= i < m ==> ordered[i].variant != ""
    requires forall i :: k <= i < m ==> OnlyAt(ps, DoneBefore(ordered, i), ordered[i])
    ensures Passes(ordered, Show(ps, DoneBefore(ordered, k)), k) ==
            Passes(ordered, Show(ps, DoneBefore(ordered, m)), m)
    decreases m - k
  {
    hide DoneBefore;
    hide Show;
    hide OnlyAt;
    hide Replace;
    if k < m {
      DoneStep(ordered, k);
      PassRestores(ps, DoneBefore(ordered, k), ordered[k]);
      PassesRestore(ps, ordered, k + 1, m);
    }
  }

  lemma DoneStep(ordered: seq<Correction>, k: nat)
    requires k < |ordered|
    requires NoDup(ordered)
    ensures DoneBefore(ordered, k + 1) == DoneBefore(ordered, k) + {ordered[k]}
    ensures ordered[k] !in DoneBefore(ordered, k)
  {
  }

  lemma DoneAll(ordered: seq<Correction>)
    ensures DoneBefore(ordered, 0) == {} && DoneBefore(ordered, |ordered|) == Entries(ordered)
  {
    assert ordered[..|ordered|] == ordered;
  }

  lemma SortedEntries(table: seq<Correction>)
    requires DriftTable(table)
    ensures Entries(ByLength(table)) == Entries(table)
    ensures NoDup(ByLength(table))
  {
    SortedMembers(table);
    var s := ByLength(table);
    forall i, j | 0 <= i < j < |s| ensures s[i] != s[j] {
      if s[i] == s[j] {
        Twice(s, i, j);
        OnceEach(table, s[i]);
      }
    }
  }

  lemma Twice<T>(s: seq<T>, i: nat, j: nat)
    requires i < j < |s| && s[i] == s[j]
    ensures multiset(s)[s[i]] >= 2
  {
    assert s == s[..i] + [s[i]] + s[i + 1..j] + [s[j]] + s[j + 1..];
  }

  lemma {:induction false} OnceEach<T>(s: seq<T>, x: T)
    requires forall i, j :: 0 <= i < j < |s| ==> s[i] != s[j]
    ensures multiset(s)[x] <= 1
  {
    if s != [] {
      assert s == [s[0]] + s[1..];
      OnceEach(s[1..], x);
      if x == s[0] {
        assert x !in s[1..];
      }
    }
  }

  /**
    The normaliser undoes drift, in whatever order either applies its entries, on every text whose
    drifted form contains no variant except those drift put there.
   */
  lemma RoundTrip(table: seq<Correction>, text: string)
    requires DriftTable(table)
    requires forall e :: e in table ==> OnlyAt(Pieces(table, text), {}, e)
    ensures Normalized(table, Drifted(table, text, 0)) == text
  {
    var ps, ordered := Pieces(table, text), ByLength(table);
    PiecesShow(table, text);
    SortedEntries(table);
    forall i | 0 <= i < |ordered| ensures ordered[i].variant != "" && OnlyAt(ps, DoneBefore(ordered, i), ordered[i]) {
      assert ordered[i] in Entries(ordered);
      OnlyAtStays(ps, table, DoneBefore(ordered, i), ordered[i]);
    }
    DoneAll(ordered);
    PassesRestore(ps, ordered, 0, |ordered|);
  }
}
