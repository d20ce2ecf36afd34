/**
  The shipped drift table (scripts/synth.py) and its inverse, the shipped corrections
  (tests/llm_eval/golden_corrections.json, same order).
 */
module NotationTable {
  import opened Replacing
  import opened Normalizer
  import opened Drift

  const ROSUI := Correction("ろうすい", "漏水")
  const MIZUMORE := Correction("みずもれ", "水漏れ")
  const KOSHO := Correction("こしょう", "故障")
  const HASON := Correction("はそん", "破損")
  const ION := Correction("いおん", "異音")
  const TEISHI := Correction("ていし", "停止")
  const FUGUAI := Correction("ふぐあい", "不具合")
  const KUJO := Correction("くじょう", "苦情")
  const SOON := Correction("そうおん", "騒音")
  const SEISO := Correction("せいそう", "清掃")
  const KASAI := Correction("かさい", "火災")
  const GASU := Correction("がす", "ガス")
  const YOBO := Correction("ようぼう", "要望")

  const NOTATION_DRIFT: seq<Correction> :=
    [ROSUI, MIZUMORE, KOSHO, HASON, ION, TEISHI, FUGUAI, KUJO, SOON, SEISO, KASAI, GASU, YOBO]

  predicate Hiragana(c: char) { 0x3041 as char <= c <= 0x3096 as char }

  /** The text of a variant: hiragana, two to four characters, not starting with れ. */
  predicate KanaWord(v: string) {
    2 <= |v| <= 4 && v[0] != 'れ' && forall i :: 0 <= i < |v| ==> Hiragana(v[i])
  }

  /** The text of a canonical form: hiragana only, possibly, as a final れ. */
  predicate KanjiWord(c: string) {
    && 2 <= |c| <= 3
    && forall i :: 0 <= i < |c| ==> !Hiragana(c[i]) || (0 < i == |c| - 1 && c[i] == 'れ')
  }

  lemma VariantWords(e: Correction)
    requires e in NOTATION_DRIFT
    ensures KanaWord(e.variant)
  {
  }

  lemma CanonicalWords(e: Correction)
    requires e in NOTATION_DRIFT
    ensures KanjiWord(e.canonical)
  {
  }

  lemma TableWords(e: Correction)
    requires e in NOTATION_DRIFT
    ensures KanaWord(e.variant) && KanjiWord(e.canonical)
  {
    hide NOTATION_DRIFT;
    hide KanaWord;
    hide KanjiWord;
    VariantWords(e);
    CanonicalWords(e);
  }

  lemma ClashSymmetric(c: string, v: string, d: int)
    requires Clash(c, v, d)
    ensures Clash(v, c, -d)
  {
    var j :| 0 <= j < |v| && 0 <= d + j < |c| && c[d + j] != v[j];
    assert v[-d + (d + j)] != c[d + j];
  }

  lemma KanjiApart(c: string, v: string)
    requires KanaWord(v) && KanjiWord(c)
    ensures Apart(c, v) && Apart(v, c)
  {
    forall d | -|v| < d < |c| ensures Clash(c, v, d) {
      var j := if d < 0 then -d else 0;
      assert c[d + j] != v[j];
    }
    forall d | -|c| < d < |v| ensures Clash(v, c, d) {
      assert Clash(c, v, -d);
      ClashSymmetric(c, v, -d);
    }
  }

  /** The entry whose variant starts with `c`, if there is one. */
  function StartingWith(c: char): Correction {
    if c == 'ろ' then ROSUI else if c == 'み' then MIZUMORE else if c == 'こ' then KOSHO
    else if c == 'は' then HASON else if c == 'い' then ION else if c == 'て' then TEISHI
    else if c == 'ふ' then FUGUAI else if c == 'く' then KUJO else if c == 'そ' then SOON
    else if c == 'せ' then SEISO else if c == 'か' then KASAI else if c == 'が' then GASU
    else YOBO
  }

  /** The variants start with different characters. */
  lemma Starts(e: Correction)
    requires e in NOTATION_DRIFT
    ensures |e.variant| >= 2 && e == StartingWith(e.variant[0])
    ensures e.variant[0] in {'ろ', 'み', 'こ', 'は', 'い', 'て', 'ふ', 'く', 'そ', 'せ', 'か', 'が', 'よ'}
  {
  }

  /** Behind its start a variant has a starting character only at these places. */
  lemma InnerStarts(f: Correction, d: nat)
    requires f in NOTATION_DRIFT && 0 < d < |f.variant|
    ensures var c := f.variant[d];
            || c !in {'ろ', 'み', 'こ', 'は', 'い', 'て', 'ふ', 'く', 'そ', 'せ', 'か', 'が', 'よ'}
            || (c == 'い' && (f, d) in {(ROSUI, 3), (FUGUAI, 3), (KASAI, 2)})
            || (c == 'い' && d + 1 < |f.variant| && f.variant[d + 1] != 'お')
            || (c == 'そ' && (f, d) == (SEISO, 2))
            || (c == 'そ' && d + 1 < |f.variant| && f.variant[d + 1] != 'う')
  {
  }

  /** The place of the entry whose variant starts with `c`. */
  function PlaceOf(c: char): nat {
    if c == 'ろ' then 0 else if c == 'み' then 1 else if c == 'こ' then 2 else if c == 'は' then 3
    else if c == 'い' then 4 else if c == 'て' then 5 else if c == 'ふ' then 6 else if c == 'く' then 7
    else if c == 'そ' then 8 else if c == 'せ' then 9 else if c == 'か' then 10 else if c == 'が' then 11
    else 12
  }

  lemma EntriesDiffer()
    ensures NoDup(NOTATION_DRIFT)
  {
    assert forall i :: 0 <= i < |NOTATION_DRIFT| ==> PlaceOf(NOTATION_DRIFT[i].variant[0]) == i;
    hide NOTATION_DRIFT;
    hide PlaceOf;
  }

  lemma EntriesApart(e: Correction, f: Correction)
    requires e in NOTATION_DRIFT && f in NOTATION_DRIFT
    ensures Apart(e.canonical, f.variant) && Apart(f.variant, e.canonical)
    ensures e.canonical != "" && e.variant != ""
  {
    TableWords(e);
    TableWords(f);
    KanjiApart(e.canonical, f.variant);
  }

  lemma IsDriftTable()
    ensures DriftTable(NOTATION_DRIFT)
  {
    hide Apart;
    hide NOTATION_DRIFT;
    EntriesDiffer();
    forall e, f | e in NOTATION_DRIFT && f in NOTATION_DRIFT
      ensures Apart(e.canonical, f.variant) && Apart(f.variant, e.canonical)
      ensures e.canonical != "" && e.variant != ""
    {
      EntriesApart(e, f);
    }
  }

  /** The second variant, laid `d` characters behind the start of the first, agrees with it. */
  predicate KnownOverlap(f: Correction, e: Correction, d: nat) {
    || (f == ROSUI && e == ION && d == 3)
    || (f == FUGUAI && e == ION && d == 3)
    || (f == KASAI && e == ION && d == 2)
    || (f == SEISO && e == SOON && d == 2)
  }

  lemma NoOtherOverlap(f: Correction, e: Correction, d: nat)
    requires f in NOTATION_DRIFT && e in NOTATION_DRIFT
    requires 0 < d < |f.variant| && !Clash(f.variant, e.variant, d)
    ensures KnownOverlap(f, e, d)
  {
    Starts(e);
    InnerStarts(f, d);
    assert ION.variant[1] == 'お' && SOON.variant[1] == 'う';
    hide NOTATION_DRIFT;
    assert f.variant[d] == e.variant[0];
    assert d + 1 < |f.variant| ==> f.variant[d + 1] == e.variant[1];
  }

  lemma KnownOverlaps(f: Correction, e: Correction, d: nat)
    requires KnownOverlap(f, e, d)
    ensures 0 < d < |f.variant| && !Clash(f.variant, e.variant, d)
  {
    hide NOTATION_DRIFT;
    assert |f.variant| - d <= 2;
    assert f.variant[d] == e.variant[0];
    assert d + 1 < |f.variant| ==> f.variant[d + 1] == e.variant[1];
  }

  /** Exactly where two variants of the table overlap. */
  lemma Overlaps(f: Correction, e: Correction, d: nat)
    requires f in NOTATION_DRIFT && e in NOTATION_DRIFT && 0 < d < |f.variant|
    ensures !Clash(f.variant, e.variant, d) <==> KnownOverlap(f, e, d)
  {
    hide NOTATION_DRIFT;
    hide Clash;
    hide KnownOverlap;
    if !Clash(f.variant, e.variant, d) {
      NoOtherOverlap(f, e, d);
    }
    if KnownOverlap(f, e, d) {
      KnownOverlaps(f, e, d);
    }
  }

  // ---------- the order of the table ----------

  lemma {:induction false} DriftIdle(table: seq<Correction>, text: string, k: nat)
    requires k <= |table| && forall e :: e in table ==> e.canonical != "" && !Contains(text, e.canonical)
    ensures Drifted(table, text, k) == text
    decreases |table| - k
  {
    hide Contains;
    if k < |table| {
      ReplaceAbsent(text, table[k].canonical, table[k].variant);
      DriftIdle(table, text, k + 1);
    }
  }

  lemma NoCanonicalLeft(e: Correction)
    requires e in NOTATION_DRIFT
    ensures !Contains("ろうすい漏れ", e.canonical)
  {
    var text := "ろうすい漏れ";
    CanonicalWords(e);
    NotTheRest(e);
    hide NOTATION_DRIFT;
    forall i | 0 <= i <= |text| ensures !(e.canonical <= text[i..]) {
      if i < |text| && i != 4 {
        assert Hiragana(text[i]) && text[i..][0] == text[i];
      } else if i == 4 {
        assert text[4..] == "漏れ";
      }
    }
  }

  lemma NotTheRest(e: Correction)
    requires e in NOTATION_DRIFT
    ensures e.canonical != "漏れ"
  {
  }

  /** Where two canonical forms overlap, the one that comes first in the table is replaced. */
  lemma EarlierEntryFirst()
    ensures (forall e :: e in NOTATION_DRIFT ==> e.canonical != "")
    ensures Drifted(NOTATION_DRIFT, "漏水漏れ", 0) == "ろうすい漏れ"
  {
    forall e | e in NOTATION_DRIFT ensures e.canonical != "" && !Contains("ろうすい漏れ", e.canonical) {
      CanonicalWords(e);
      NoCanonicalLeft(e);
    }
    assert NOTATION_DRIFT[0] == ROSUI && |NOTATION_DRIFT| > 0;
    hide NOTATION_DRIFT;
    RosuiReplaced();
    DriftIdle(NOTATION_DRIFT, "ろうすい漏れ", 1);
  }

  lemma RosuiReplaced()
    ensures Replace("漏水漏れ", "漏水", "ろうすい") == "ろうすい漏れ"
  {
    var rest := "漏水漏れ"[2..];
    assert rest == "漏れ" && rest[1] != "漏水"[1];
    assert !("漏水" <= rest);
    assert rest[1..] == "れ" && !("漏水" <= rest[1..]) && rest[1..][1..] == "";
    assert Replace(rest, "漏水", "ろうすい") == rest;
  }
}
