/** Merging reviewed corrections into the dictionary (scripts/export_corrections.py). */
module Corrections {
  import opened Wrappers
  import opened Text
  import opened Chunking

  datatype Entry = Entry(variant: string, canonical: string, source: string)

  // ---------- reading ----------

  function Cleaned(u: Unicode, e: Entry): Entry {
    e.(variant := Strip(u, e.variant), canonical := Strip(u, e.canonical))
  }

  predicate Usable(e: Entry) {
    e.variant != "" && e.canonical != "" && e.variant != e.canonical
  }

  /** `_load_corrections`: strip, and drop what says nothing. */
  function Load(u: Unicode, items: seq<Entry>): seq<Entry> {
    if items == [] then []
    else
      var e := Cleaned(u, items[|items| - 1]);
      Load(u, items[..|items| - 1]) + if Usable(e) then [e] else []
  }

  ghost predicate Clean(u: Unicode, e: Entry) {
    Cleaned(u, e) == e && Usable(e)
  }

  ghost predicate AllClean(u: Unicode, items: seq<Entry>) {
    forall e :: e in items ==> Clean(u, e)
  }

  lemma {:induction false} StripTrimmed(u: Unicode, s: string)
    requires s == "" || Trimmed(u, s)
    ensures Strip(u, s) == s
  {
  }

  lemma {:induction false} LoadConcat(u: Unicode, a: seq<Entry>, b: seq<Entry>)
    ensures Load(u, a + b) == Load(u, a) + Load(u, b)
    decreases |b|
  {
    hide Strip;
    hide Usable;
    if b == [] {
      assert a + b == a;
    } else {
      var init, last := b[..|b| - 1], b[|b| - 1];
      LoadConcat(u, a, init);
      assert (a + b)[..|a + b| - 1] == a + init;
    }
  }

  /** `s` is `t` with white space before and behind, and `t` has none there. */
  ghost predicate Strips(u: Unicode, s: string, t: string) {
    && (t == "" || Trimmed(u, t))
    && exists a, b :: AllSpace(u, a) && AllSpace(u, b) && s == a + t + b
  }

  lemma StripStrips(u: Unicode, s: string)
    ensures Strips(u, s, Strip(u, s))
  {
    var a, b := StripTakes(u, s);
  }

  /** `out` is what becomes of `item`: the same correction and source, stripped. */
  ghost predicate Tidied(u: Unicode, item: Entry, out: Entry) {
    Strips(u, item.variant, out.variant) && Strips(u, item.canonical, out.canonical) && out.source == item.source
  }

  /** A list is read entry by entry. One entry gives itself, stripped, or nothing if it then says nothing. */
  lemma LoadOne(u: Unicode, item: Entry) returns (out: Entry)
    ensures Tidied(u, item, out)
    ensures Load(u, [item]) ==
            if out.variant == "" || out.canonical == "" || out.variant == out.canonical then [] else [out]
  {
    hide Strip;
    hide Strips;
    out := Cleaned(u, item);
    StripStrips(u, item.variant);
    StripStrips(u, item.canonical);
    assert [item][..0] == [];
  }

  lemma {:induction false} LoadIsClean(u: Unicode, items: seq<Entry>)
    ensures AllClean(u, Load(u, items))
  {
    hide Strip;
    hide Trimmed;
    if items != [] {
      LoadIsClean(u, items[..|items| - 1]);
      var e := items[|items| - 1];
      StripKeeps(u, e.variant);
      StripKeeps(u, e.canonical);
      StripTrimmed(u, Strip(u, e.variant));
      StripTrimmed(u, Strip(u, e.canonical));
    }
  }

  /** Reading back what is clean changes nothing. */
  lemma {:induction false} LoadKeepsClean(u: Unicode, items: seq<Entry>)
    requires AllClean(u, items)
    ensures Load(u, items) == items
  {
    hide Strip;
    if items != [] {
      var e := items[|items| - 1];
      assert Clean(u, e);
      LoadKeepsClean(u, items[..|items| - 1]);
      assert items == items[..|items| - 1] + [e];
    }
  }

  // ---------- dictionaries ----------

  /** `{c["variant"]: c for c in items}`: the last entry wins. */
  function DictOf(items: seq<Entry>): map<string, Entry> {
    if items == [] then map[]
    else
      var last := items[|items| - 1];
      DictOf(items[..|items| - 1])[last.variant := last]
  }

  /** The dictionary holds entries of the list under their variants, and has every variant. */
  ghost predicate Holds(m: map<string, Entry>, items: seq<Entry>) {
    && (forall v :: v in m ==> m[v].variant == v && m[v] in items)
    && (forall e :: e in items ==> e.variant in m)
  }

  lemma HoldsStep(m: map<string, Entry>, items: seq<Entry>, last: Entry)
    requires Holds(m, items)
    ensures Holds(m[last.variant := last], items + [last])
  {
  }

  lemma {:induction false} DictHolds(items: seq<Entry>)
    ensures Holds(DictOf(items), items)
  {
    if items != [] {
      hide Holds;
      var init, last := items[..|items| - 1], items[|items| - 1];
      DictHolds(init);
      HoldsStep(DictOf(init), init, last);
      assert items == init + [last];
    }
  }

  /** The last entry for a variant. */
  function LastFor(items: seq<Entry>, v: string): Option<Entry> {
    if items == [] then None
    else if items[|items| - 1].variant == v then Some(items[|items| - 1])
    else LastFor(items[..|items| - 1], v)
  }

  predicate NoneBehind(items: seq<Entry>, v: string, i: int) {
    forall j :: 0 <= j < |items| && i < j ==> items[j].variant != v
  }

  /** It stands somewhere in the list, and no later entry has the variant; without one, no entry has it. */
  lemma {:induction false} LastForIsLast(items: seq<Entry>, v: string) returns (i: int)
    ensures -1 <= i < |items| && NoneBehind(items, v, i)
    ensures if i < 0 then LastFor(items, v) == None else LastFor(items, v) == Some(items[i]) && items[i].variant == v
  {
    if items == [] {
      i := -1;
    } else if items[|items| - 1].variant == v {
      i := |items| - 1;
    } else {
      i := LastForIsLast(items[..|items| - 1], v);
      NoneBehindMore(items, v, i);
    }
  }

  lemma NoneBehindMore(items: seq<Entry>, v: string, i: int)
    requires items != [] && NoneBehind(items[..|items| - 1], v, i) && items[|items| - 1].variant != v
    ensures NoneBehind(items, v, i)
  {
    forall j | 0 <= j < |items| && i < j ensures items[j].variant != v {
      if j < |items| - 1 {
        assert items[j] == items[..|items| - 1][j];
      }
    }
  }

  function Find(m: map<string, Entry>, v: string): Option<Entry> {
    if v in m then Some(m[v]) else None
  }

  lemma {:induction false} DictIsLast(items: seq<Entry>, v: string)
    ensures Find(DictOf(items), v) == LastFor(items, v)
  {
    if items != [] {
      DictIsLast(items[..|items| - 1], v);
    }
  }

  lemma DictStep(items: seq<Entry>, last: Entry)
    ensures DictOf(items + [last]) == DictOf(items)[last.variant := last]
  {
    assert (items + [last])[..|items|] == items;
  }

  lemma OverlaySet<K, V>(m: map<K, V>, n: map<K, V>, k: K, v: V)
    ensures (m + n)[k := v] == m + n[k := v]
  {
  }

  lemma OverlayNothing<K, V>(m: map<K, V>)
    ensures m + map[] == m
  {
  }

  lemma {:induction false} DictConcat(a: seq<Entry>, b: seq<Entry>)
    ensures DictOf(a + b) == DictOf(a) + DictOf(b)
    decreases |b|
  {
    hide DictOf;
    if b == [] {
      assert a + b == a;
      DictEmpty();
      OverlayNothing(DictOf(a));
    } else {
      var init, last := b[..|b| - 1], b[|b| - 1];
      DictConcat(a, init);
      calc {
        DictOf(a + b);
        { assert b == init + [last] && a + b == (a + init) + [last]; }
        DictOf((a + init) + [last]);
        { DictStep(a + init, last); }
        DictOf(a + init)[last.variant := last];
        (DictOf(a) + DictOf(init))[last.variant := last];
        { OverlaySet(DictOf(a), DictOf(init), last.variant, last); }
        DictOf(a) + DictOf(init)[last.variant := last];
        { DictStep(init, last); assert b == init + [last]; }
        DictOf(a) + DictOf(b);
      }
    }
  }

  lemma DictEmpty()
    ensures DictOf([]) == map[]
  {
  }

  // ---------- order ----------

  /** Python's `<` on strings, by code point. */
  predicate Less(a: string, b: string) {
    b != "" && (a == "" || a[0] < b[0] || (a[0] == b[0] && Less(a[1..], b[1..])))
  }

  /** The strings agree up to `k`, where the first ends or has the smaller character. */
  predicate LessAt(a: string, b: string, k: nat) {
    k <= |a| && k < |b| && a[..k] == b[..k] && (k == |a| || a[k] < b[k])
  }

  /** The order is that of the first difference; a proper prefix comes first. */
  lemma {:induction false} LessIsFirstDifference(a: string, b: string)
    ensures Less(a, b) <==> exists k :: 0 <= k < |b| && LessAt(a, b, k)
  {
    if a == "" || b == "" || a[0] != b[0] {
      if Less(a, b) {
        assert LessAt(a, b, 0);
      }
    } else {
      LessIsFirstDifference(a[1..], b[1..]);
      if k :| 0 <= k < |b[1..]| && LessAt(a[1..], b[1..], k) {
        LessFurther(a, b, k);
      }
      if k :| 0 <= k < |b| && LessAt(a, b, k) {
        assert k > 0;
        LessFurther(a, b, k - 1);
      }
    }
  }

  lemma LessFurther(a: string, b: string, k: nat)
    requires a != "" && b != "" && a[0] == b[0]
    ensures LessAt(a[1..], b[1..], k) <==> LessAt(a, b, k + 1)
  {
    if k + 1 <= |a| && k + 1 <= |b| {
      assert a[..k + 1] == [a[0]] + a[1..][..k] && b[..k + 1] == [b[0]] + b[1..][..k];
    }
  }

  lemma {:induction false} LessTotal(a: string, b: string)
    ensures Less(a, b) || Less(b, a) || a == b
    ensures !(Less(a, b) && Less(b, a)) && !Less(a, a)
  {
    if a != "" {
      LessTotal(a[1..], a[1..]);
    }
    if a != "" && b != "" {
      LessTotal(a[1..], b[1..]);
      assert a == [a[0]] + a[1..] && b == [b[0]] + b[1..];
    }
  }

  lemma {:induction false} LessTransitive(a: string, b: string, c: string)
    requires Less(a, b) && Less(b, c)
    ensures Less(a, c)
  {
    if a != "" && a[0] == b[0] && b[0] == c[0] {
      LessTransitive(a[1..], b[1..], c[1..]);
    }
  }

  ghost predicate Ascending(s: seq<Entry>) {
    forall i, j :: 0 <= i < j < |s| ==> Less(s[i].variant, s[j].variant)
  }

  /** The dictionary, as a list in order. */
  ghost predicate Lists(s: seq<Entry>, m: map<string, Entry>) {
    Ascending(s) && forall e :: e in s <==> e.variant in m && m[e.variant] == e
  }

  method Insert(e: Entry, s: seq<Entry>) returns (r: seq<Entry>)
    requires Ascending(s) && forall x :: x in s ==> x.variant != e.variant
    ensures Ascending(r) && |r| == |s| + 1 && forall x :: x in r <==> x == e || x in s
  {
    var k := 0;
    while k < |s| && Less(s[k].variant, e.variant)
      invariant k <= |s| && forall i :: 0 <= i < k ==> Less(s[i].variant, e.variant)
    {
      k := k + 1;
    }
    InsertAt(e, s, k);
    r := s[..k] + [e] + s[k..];
  }

  lemma InsertAt(e: Entry, s: seq<Entry>, k: nat)
    requires Ascending(s) && k <= |s| && forall x :: x in s ==> x.variant != e.variant
    requires forall i :: 0 <= i < k ==> Less(s[i].variant, e.variant)
    requires k < |s| ==> !Less(s[k].variant, e.variant)
    ensures var r := s[..k] + [e] + s[k..]; Ascending(r) && forall x :: x in r <==> x == e || x in s
  {
    hide Less;
    var r := s[..k] + [e] + s[k..];
    forall j | k <= j < |s| ensures Less(e.variant, s[j].variant) {
      LessTotal(e.variant, s[k].variant);
      assert s[k] in s;
      if k < j {
        LessTransitive(e.variant, s[k].variant, s[j].variant);
      }
    }
    forall i, j | 0 <= i < j < |r| ensures Less(r[i].variant, r[j].variant) {
      assert r[i] == if i < k then s[i] else if i == k then e else s[i - 1];
      assert r[j] == if j < k then s[j] else if j == k then e else s[j - 1];
    }
    assert s == s[..k] + s[k..];
    forall x ensures x in r <==> x == e || x in s {
      assert x in s <==> x in s[..k] || x in s[k..];
    }
  }

  /** `sorted(by_variant.values(), key=lambda c: c["variant"])` */
  method Sorted(m: map<string, Entry>) returns (r: seq<Entry>)
    requires forall v :: v in m ==> m[v].variant == v
    ensures Lists(r, m) && |r| == |m|
  {
    hide Less;
    r := [];
    var left := m.Keys;
    while left != {}
      invariant left <= m.Keys && Ascending(r) && |r| + |left| == |m|
      invariant forall e :: e in r <==> e.variant in m && e.variant !in left && m[e.variant] == e
      decreases left
    {
      var v :| v in left;
      r := Insert(m[v], r);
      left := left - {v};
    }
  }

  /** A dictionary has one listing. */
  lemma {:induction false} ListingUnique(a: seq<Entry>, b: seq<Entry>)
    requires Ascending(a) && Ascending(b) && forall e :: e in a <==> e in b
    ensures a == b
  {
    hide Less;
    EmptyTogether(a, b);
    EmptyTogether(b, a);
    if a != [] {
      FirstAgrees(a, b);
      var x, y := a[1..], b[1..];
      RestMembers(a);
      RestMembers(b);
      ListingUnique(x, y);
      assert a == [a[0]] + x && b == [b[0]] + y;
    }
  }

  lemma EmptyTogether(a: seq<Entry>, b: seq<Entry>)
    requires forall e :: e in a ==> e in b
    ensures b == [] ==> a == []
  {
    if a != [] {
      assert a[0] in a;
    }
  }

  lemma RestMembers(a: seq<Entry>)
    requires Ascending(a) && a != []
    ensures Ascending(a[1..]) && forall e :: e in a[1..] <==> e in a && e != a[0]
  {
    assert a == [a[0]] + a[1..];
    forall e | e in a[1..] ensures e != a[0] {
      var i :| 0 <= i < |a[1..]| && a[1..][i] == e;
      LessTotal(a[0].variant, a[i + 1].variant);
    }
  }

  lemma FirstAgrees(a: seq<Entry>, b: seq<Entry>)
    requires Ascending(a) && Ascending(b) && a != [] && b != [] && forall e :: e in a <==> e in b
    ensures a[0] == b[0]
  {
    hide Less;
    assert a[0] in b && b[0] in a;
    var i :| 0 <= i < |b| && b[i] == a[0];
    var j :| 0 <= j < |a| && a[j] == b[0];
    LessTotal(a[0].variant, b[0].variant);
  }

  // ---------- merging ----------

  /** The counting loop over the incoming entries. */
  method Overlay(existing: map<string, Entry>, incoming: seq<Entry>)
    returns (byVariant: map<string, Entry>, added: nat)
    ensures byVariant == existing + DictOf(incoming)
    ensures |byVariant| == |existing| + added
  {
    hide DictOf;
    byVariant, added := existing, 0;
    DictEmpty();
    for i := 0 to |incoming|
      invariant byVariant == existing + DictOf(incoming[..i])
      invariant |byVariant| == |existing| + added
    {
      var c := incoming[i];
      assert incoming[..i + 1] == incoming[..i] + [c];
      DictStep(incoming[..i], c);
      OverlaySet(existing, DictOf(incoming[..i]), c.variant, c);
      SetSize(byVariant, c.variant, c);
      if c.variant !in byVariant {
        added := added + 1;
      }
      byVariant := byVariant[c.variant := c];
    }
    assert incoming[..|incoming|] == incoming;
  }

  lemma SetSize<K, V>(m: map<K, V>, k: K, v: V)
    ensures |m[k := v]| == |m| + if k in m then 0 else 1
  {
    assert m[k := v].Keys == m.Keys + {k};
  }

  /** `merge`: what is written back, how many variants are new, and how many there are. */
  method Merge(u: Unicode, golden: Option<seq<Entry>>, incoming: seq<Entry>)
    returns (written: seq<Entry>, added: nat, total: nat)
    ensures var existing := if golden.Some? then Load(u, golden.value) else [];
            Merged(existing, incoming, written, added, total)
  {
    var existing := if golden.Some? then Load(u, golden.value) else [];
    var byVariant, count := Overlay(DictOf(existing), incoming);
    DictConcat(existing, incoming);
    DictHolds(existing + incoming);
    hide DictOf;
    written := Sorted(byVariant);
    added, total := count, |written|;
  }

  ghost predicate Merged(existing: seq<Entry>, incoming: seq<Entry>, written: seq<Entry>, added: nat, total: nat) {
    && Lists(written, DictOf(existing + incoming))
    && |written| == |DictOf(existing + incoming)|
    && total == |written| == |DictOf(existing)| + added
  }

  /** Every variant has its last incoming entry, or else its last old one; nothing else is written. */
  lemma MergeIsLastWins(existing: seq<Entry>, incoming: seq<Entry>,
                        written: seq<Entry>, added: nat, total: nat, e: Entry)
    requires Merged(existing, incoming, written, added, total)
    ensures e in written <==>
            Some(e) == (if LastFor(incoming, e.variant).Some? then LastFor(incoming, e.variant)
                        else LastFor(existing, e.variant))
  {
    DictConcat(existing, incoming);
    DictIsLast(existing, e.variant);
    DictIsLast(incoming, e.variant);
    hide DictOf;
    hide LastFor;
  }

  lemma {:induction false} DictOfListing(s: seq<Entry>, m: map<string, Entry>)
    requires Lists(s, m) && forall v :: v in m ==> m[v].variant == v
    ensures DictOf(s) == m
  {
    hide Less;
    hide DictOf;
    DictHolds(s);
    var d := DictOf(s);
    forall v ensures v in d <==> v in m {
      if v in m {
        assert m[v] in s;
      }
    }
    forall v | v in m ensures d[v] == m[v] {
      assert d[v] in s && d[v].variant == v;
    }
  }

  lemma DictIsStable(existing: seq<Entry>, incoming: seq<Entry>, written: seq<Entry>)
    requires Lists(written, DictOf(existing + incoming))
    ensures DictOf(written) == DictOf(existing + incoming) == DictOf(written + incoming)
  {
    hide Less;
    hide DictOf;
    hide Lists;
    DictHolds(existing + incoming);
    DictOfListing(written, DictOf(existing + incoming));
    DictConcat(existing, incoming);
    DictConcat(written, incoming);
    OverlayTwice(DictOf(existing), DictOf(incoming));
  }

  lemma OverlayTwice<K, V>(m: map<K, V>, n: map<K, V>)
    ensures m + n + n == m + n
  {
  }

  /** Merging the same entries into the result again adds nothing and changes nothing. */
  lemma MergeTwice(u: Unicode, existing: seq<Entry>, incoming: seq<Entry>,
                   written: seq<Entry>, added: nat, total: nat, written2: seq<Entry>, added2: nat, total2: nat)
    requires AllClean(u, existing) && AllClean(u, incoming)
    requires Merged(existing, incoming, written, added, total)
    requires Merged(Load(u, written), incoming, written2, added2, total2)
    ensures written2 == written && added2 == 0 && total2 == total
  {
    hide Less;
    hide Clean;
    hide Ascending;
    WrittenIsClean(u, existing + incoming, written);
    LoadKeepsClean(u, written);
    hide Load;
    hide DictOf;
    DictIsStable(existing, incoming, written);
    ListingUnique(written, written2);
  }

  lemma WrittenIsClean(u: Unicode, items: seq<Entry>, written: seq<Entry>)
    requires AllClean(u, items) && Lists(written, DictOf(items))
    ensures AllClean(u, written)
  {
    hide Clean;
    hide Less;
    hide DictOf;
    DictHolds(items);
  }
}
