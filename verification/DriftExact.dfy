/**
  Exactly which texts the shipped normaliser recovers from the shipped drift: those that contain
  no variant to begin with and none of four strings around which two variants run into each other.
 */
module DriftExact {
  import opened Seqs
  import opened Replacing
  import opened Normalizer
  import opened Drift
  import opened NotationTable

  const ALL := Entries(NOTATION_DRIFT)

  /** The shipped drift, the shipped normaliser, and the pieces of a drifted text. */
  function DriftOf(text: string): string {
    CanonicalsNonEmpty();
    Drifted(NOTATION_DRIFT, text, 0)
  }

  function NormalOf(text: string): string { Normalized(NOTATION_DRIFT, text) }

  function PiecesOf(text: string): seq<Piece> {
    CanonicalsNonEmpty();
    Pieces(NOTATION_DRIFT, text)
  }

  lemma CanonicalsNonEmpty()
    ensures forall e :: e in NOTATION_DRIFT ==> e.canonical != ""
  {
    IsDriftTable();
  }

  lemma PiecesOfShow(text: string)
    ensures Show(PiecesOf(text), {}) == DriftOf(text)
    ensures Show(PiecesOf(text), ALL) == text
    ensures TermsIn(PiecesOf(text), NOTATION_DRIFT)
  {
    IsDriftTable();
    hide DriftTable;
    PiecesShow(NOTATION_DRIFT, text);
  }

  lemma NormalOfPasses(text: string)
    ensures NormalOf(text) == Passes(Order(), text, 0)
  {
  }

  /**
    What lets drift put the variant of `e` where no term of `e` stood, at a time when the
    normaliser still sees it there. Empty for the entries to which this does not happen.
   */
  function Trap(e: Correction): string {
    if e == ROSUI then "ろうす" + ION.canonical
    else if e == FUGUAI then "ふぐあ" + ION.canonical
    else if e == ION then KASAI.canonical + "おん"
    else if e == SOON then SEISO.canonical + "おん"
    else ""
  }

  ghost predicate SafeFor(text: string, e: Correction) {
    !Contains(text, e.variant) && (Trap(e) != "" ==> !Contains(text, Trap(e)))
  }

  ghost predicate Safe(text: string) {
    forall e :: e in NOTATION_DRIFT ==> SafeFor(text, e)
  }

  /** What the normaliser's order guarantees when it comes to `e`. */
  predicate InOrder(done: set<Correction>, e: Correction) {
    && e !in done
    && (e == ION ==> ROSUI in done && FUGUAI in done && KASAI !in done)
    && (e == KASAI ==> ION in done)
    && (e == SEISO ==> SOON in done)
    && (e == SOON ==> SEISO !in done)
    && (e == ROSUI || e == FUGUAI ==> ION !in done)
  }

  lemma PrecedesIndex(s: seq<Correction>, x: Correction, y: Correction, k: nat)
    requires Precedes(s, x, y) && k < |s| && NoDup(s)
    ensures s[k] == y ==> x in DoneBefore(s, k)
    ensures s[k] == x ==> y !in DoneBefore(s, k)
  {
    var i, j :| 0 <= i < j < |s| && s[i] == x && s[j] == y;
    if s[k] == y {
      assert s[..k][i] == x;
    }
    if s[k] == x {
      assert i == k;
      assert forall l :: 0 <= l < k ==> s[l] != s[j];
    }
  }

  /** The facts about the sorted table that decide what comes before what. */
  ghost predicate TableOrder(s: seq<Correction>) {
    NoDup(s) && Descending(s) && KeyPlaces(s)
  }

  lemma StableAt(ps: seq<Correction>, i: nat, j: nat, x: Correction, y: Correction)
    requires i < j < |ps| && ps[i] == x && ps[j] == y && |x.variant| >= |y.variant|
    ensures Precedes(ByLength(ps), x, y)
  {
    ByLengthStable(ps, i, j);
  }

  /** The order in which the normaliser takes the shipped corrections. */
  function Order(): seq<Correction> { ByLength(NOTATION_DRIFT) }

  lemma OrderSorted()
    ensures NoDup(Order()) && Descending(Order()) && Entries(Order()) == ALL
  {
    hide DriftTable;
    hide NoDup;
    hide Descending;
    IsDriftTable();
    SortedEntries(NOTATION_DRIFT);
    ByLengthDescending(NOTATION_DRIFT);
  }

  ghost predicate KeyPlaces(s: seq<Correction>) {
    ROSUI in s && FUGUAI in s && Precedes(s, ION, KASAI) && Precedes(s, SOON, SEISO)
  }

  lemma OrderStable()
    ensures KeyPlaces(Order())
  {
    hide KeyPlaces;
    StableIn(NOTATION_DRIFT);
  }

  lemma StableIn(ps: seq<Correction>)
    requires |ps| == 13 && ps[4] == ION && ps[10] == KASAI && ps[8] == SOON && ps[9] == SEISO
    requires ps[0] == ROSUI && ps[6] == FUGUAI
    ensures KeyPlaces(ByLength(ps))
  {
    MembersIn(ps);
    hide Precedes;
    StableAt(ps, 4, 10, ION, KASAI);
    StableAt(ps, 8, 9, SOON, SEISO);
  }

  lemma MembersIn(ps: seq<Correction>)
    requires |ps| == 13 && ps[0] == ROSUI && ps[6] == FUGUAI
    ensures ROSUI in ByLength(ps) && FUGUAI in ByLength(ps)
  {
    SortedMembers(ps);
  }

  lemma TableIsOrdered()
    ensures TableOrder(Order())
  {
    hide Order;
    hide NoDup;
    hide Descending;
    hide KeyPlaces;
    OrderSorted();
    OrderStable();
  }

  lemma OrderHolds(s: seq<Correction>, k: nat)
    requires TableOrder(s) && k < |s|
    ensures InOrder(DoneBefore(s, k), s[k])
  {
    DoneStep(s, k);
    hide DoneBefore;
    hide Precedes;
    PrecedesIndex(s, ION, KASAI, k);
    PrecedesIndex(s, SOON, SEISO, k);
    LongerFirst(s, ROSUI, ION, k);
    LongerFirst(s, FUGUAI, ION, k);
  }

  lemma LongerFirst(s: seq<Correction>, x: Correction, y: Correction, k: nat)
    requires Descending(s) && |x.variant| > |y.variant| && x in s && k < |s|
    ensures s[k] == y ==> x in DoneBefore(s, k)
    ensures s[k] == x ==> y !in DoneBefore(s, k)
  {
    var i :| 0 <= i < |s| && s[i] == x;
    if s[k] == y {
      assert i < k;
      assert s[..k][i] == x;
    }
    if s[k] == x {
      assert forall l :: 0 <= l < k ==> |s[l].variant| >= |x.variant|;
    }
  }

  // ---------- where a variant can turn up ----------

  lemma NoClash(c: string, v: string, k: nat)
    requires k < |v| && !Clash(c, v, -(k as int))
    ensures !Clash(v, c, k)
  {
    if Clash(v, c, k) {
      ClashSymmetric(v, c, k);
    }
  }

  /** `w` lies over `t`, which is followed by `rest`: they agree where both are. */
  lemma LiesOver(t: string, rest: string, w: string, k: nat)
    requires k < |w| && w[k..] <= t + rest
    ensures !Clash(t, w, -(k as int))
  {
    forall j | 0 <= j < |w| && 0 <= -(k as int) + j < |t| ensures t[-(k as int) + j] == w[j] {
      assert w[k..][j - k] == (t + rest)[j - k];
    }
  }

  lemma LiesInside(t: string, rest: string, w: string, q: nat)
    requires q < |t| && w <= (t + rest)[q..]
    ensures !Clash(t, w, q)
  {
    forall j | 0 <= j < |w| && 0 <= q + j < |t| ensures t[q + j] == w[j] {
      assert w[j] == (t + rest)[q..][j];
    }
  }

  /** From position `k` on, the variant is all there, or it is cut short by 異音. */
  ghost predicate GoesOn(e: Correction, k: nat, text: string)
    requires k <= |e.variant|
  {
    || e.variant[k..] <= text
    || ((e == ROSUI || e == FUGUAI) && k <= 3 && e.variant[k..3] + ION.canonical <= text)
  }

  lemma PrefixBehind(w: string, k: nat, n: nat, tail: string, c: char, text: string)
    requires k < n <= |w| && w[k] == c && w[k + 1..n] + tail <= text
    ensures w[k..n] + tail <= [c] + text
  {
    var v := w[k + 1..n];
    assert w[k..n] == [c] + v;
    assert w[k..n] + tail == [c] + (v + tail);
    assert ([c] + text)[1..] == text;
  }

  lemma LongVariants()
    ensures |ROSUI.variant| >= 3 && |FUGUAI.variant| >= 3
  {
  }

  lemma GoesOnBefore(e: Correction, k: nat, c: char, text: string)
    requires k < |e.variant| && e.variant[k] == c && GoesOn(e, k + 1, text)
    ensures GoesOn(e, k, [c] + text)
  {
    hide ROSUI;
    hide FUGUAI;
    hide ION;
    var w := e.variant;
    if w[k + 1..] <= text {
      assert w[k + 1..|w|] + "" == w[k + 1..] && w[k..|w|] + "" == w[k..];
      PrefixBehind(w, k, |w|, "", c, text);
    } else {
      LongVariants();
      PrefixBehind(w, k, 3, ION.canonical, c, text);
    }
  }

  /** The rest of a variant that has begun is raw text, or runs into 異音. */
  lemma {:induction false} Walk(ps: seq<Piece>, done: set<Correction>, e: Correction, k: nat)
    requires TermsIn(ps, NOTATION_DRIFT) && e in NOTATION_DRIFT && InOrder(done, e)
    requires 0 < k <= |e.variant| && e.variant[k..] <= Show(ps, done)
    ensures GoesOn(e, k, Show(ps, ALL))
    decreases |ps|
  {
    hide NOTATION_DRIFT;
    hide ALL;
    if k < |e.variant| {
      assert ps != [];
      match ps[0]
      case Raw(c) =>
        assert e.variant[k..][1..] == e.variant[k + 1..];
        Walk(ps[1..], done, e, k + 1);
        hide GoesOn;
        GoesOnBefore(e, k, c, Show(ps[1..], ALL));
      case Term(f) => WalkOnTerm(ps, done, e, k, f);
    }
  }

  lemma WalkOnTerm(ps: seq<Piece>, done: set<Correction>, e: Correction, k: nat, f: Correction)
    requires ps != [] && ps[0] == Term(f) && f in NOTATION_DRIFT && e in NOTATION_DRIFT && InOrder(done, e)
    requires 0 < k < |e.variant| && e.variant[k..] <= Show(ps, done)
    ensures GoesOn(e, k, Show(ps, ALL))
  {
    hide NOTATION_DRIFT;
    var w, rest := e.variant, Show(ps[1..], done);
    if f in done {
      EntriesApart(f, e);
      ApartBefore(f.canonical, rest, w, k);
    } else {
      LiesOver(f.variant, rest, w, k);
      NoClash(f.variant, w, k);
      Overlaps(e, f, k);
      hide Clash;
      hide Apart;
      assert w[3..3] == "";
    }
  }

  // ---------- safe texts are recovered ----------

  /** A variant that starts where no term of its entry does betrays itself in the text. */
  lemma Spurious(ps: seq<Piece>, done: set<Correction>, e: Correction, q: nat)
    requires ps != [] && TermsIn(ps, NOTATION_DRIFT) && e in NOTATION_DRIFT && InOrder(done, e)
    requires q < |Written(ps[0], done)| && e.variant <= Show(ps, done)[q..]
    requires !(ps[0] == Term(e) && q == 0)
    ensures !SafeFor(Show(ps, ALL), e)
  {
    match ps[0]
    case Raw(c) => SpuriousOnRaw(ps, done, e, c);
    case Term(f) => SpuriousOnTerm(ps, done, e, q, f);
  }

  lemma InAll(f: Correction)
    requires f in NOTATION_DRIFT
    ensures f in ALL
  {
  }

  lemma StartsWith(s: string, w: string)
    requires w <= s
    ensures Contains(s, w)
  {
    assert s[0..] == s;
  }

  lemma SpuriousOnRaw(ps: seq<Piece>, done: set<Correction>, e: Correction, c: char)
    requires ps != [] && TermsIn(ps, NOTATION_DRIFT) && e in NOTATION_DRIFT && InOrder(done, e)
    requires ps[0] == Raw(c) && e.variant <= Show(ps, done)
    ensures !SafeFor(Show(ps, ALL), e)
  {
    Starts(e);
    hide NOTATION_DRIFT;
    hide ALL;
    var w, rest := e.variant, Show(ps[1..], ALL);
    assert w[0] == c && w[1..] <= Show(ps[1..], done);
    Walk(ps[1..], done, e, 1);
    Betrayed(e, c, rest);
  }

  lemma Betrayed(e: Correction, c: char, rest: string)
    requires |e.variant| >= 2 && e.variant[0] == c && GoesOn(e, 1, rest)
    ensures !SafeFor([c] + rest, e)
  {
    var w := e.variant;
    assert w == [c] + w[1..];
    if w[1..] <= rest {
      StartsWith([c] + rest, w);
    } else {
      assert Trap(e) == [c] + (w[1..3] + ION.canonical);
      StartsWith([c] + rest, Trap(e));
    }
  }

  lemma SpuriousOnTerm(ps: seq<Piece>, done: set<Correction>, e: Correction, q: nat, f: Correction)
    requires ps != [] && TermsIn(ps, NOTATION_DRIFT) && e in NOTATION_DRIFT && InOrder(done, e)
    requires ps[0] == Term(f) && f in NOTATION_DRIFT && !(f == e && q == 0)
    requires q < |Written(ps[0], done)| && e.variant <= Show(ps, done)[q..]
    ensures !SafeFor(Show(ps, ALL), e)
  {
    hide NOTATION_DRIFT;
    hide ALL;
    var w, rest := e.variant, Show(ps[1..], done);
    if f in done {
      EntriesApart(f, e);
      ApartInside(f.canonical, rest, w, q);
    } else {
      Starts(e);
      Starts(f);
      assert w[0] == f.variant[q];
      LiesInside(f.variant, rest, w, q);
      Overlaps(f, e, q);
      hide Clash;
      InAll(f);
      TrappedBehindTerm(ps, done, e, f, q);
    }
  }

  lemma TrappedBehindTerm(ps: seq<Piece>, done: set<Correction>, e: Correction, f: Correction, q: nat)
    requires ps != [] && TermsIn(ps, NOTATION_DRIFT) && InOrder(done, e) && ps[0] == Term(f) && f !in done
    requires (f == KASAI && e == ION) || (f == SEISO && e == SOON)
    requires q == 2 && e.variant <= Show(ps, done)[q..]
    requires e in NOTATION_DRIFT && f in ALL
    ensures !SafeFor(Show(ps, ALL), e)
  {
    hide NOTATION_DRIFT;
    hide ALL;
    var w, rest := e.variant, Show(ps[1..], done);
    var k := |f.variant| - 2;
    assert Show(ps, done)[2..] == f.variant[2..] + rest;
    PrefixOfConcat(w, f.variant[2..], rest);
    Walk(ps[1..], done, e, k);
    OnTail(e, f, Show(ps[1..], ALL));
  }

  lemma OnTail(e: Correction, f: Correction, rest: string)
    requires (f == KASAI && e == ION) || (f == SEISO && e == SOON)
    requires GoesOn(e, |f.variant| - 2, rest)
    ensures !SafeFor(f.canonical + rest, e)
  {
    assert e.variant[|f.variant| - 2..] == "おん";
    assert Trap(e) == f.canonical + "おん";
    StartsWith(f.canonical + rest, Trap(e));
  }

  lemma {:induction false} OnlyAtIfSafe(ps: seq<Piece>, done: set<Correction>, e: Correction)
    requires TermsIn(ps, NOTATION_DRIFT) && e in NOTATION_DRIFT && InOrder(done, e)
    requires SafeFor(Show(ps, ALL), e)
    ensures OnlyAt(ps, done, e)
  {
    hide NOTATION_DRIFT;
    hide ALL;
    if ps != [] {
      var all := Show(ps, ALL);
      var m := |Written(ps[0], ALL)|;
      assert all[m..] == Show(ps[1..], ALL);
      NotContainsDrop(all, e.variant, m);
      if Trap(e) != "" {
        NotContainsDrop(all, Trap(e), m);
      }
      OnlyAtIfSafe(ps[1..], done, e);
      forall q | 0 <= q < |Written(ps[0], done)| && e.variant <= Show(ps, done)[q..]
        ensures ps[0] == Term(e) && q == 0
      {
        if !(ps[0] == Term(e) && q == 0) {
          Spurious(ps, done, e, q);
        }
      }
    }
  }

  /** The passes before the `m`-th restore their entries if the text is safe for them. */
  lemma PassesWhileSafe(text: string, m: nat)
    requires m <= |Order()|
    requires forall i :: 0 <= i < m ==> SafeFor(text, Order()[i])
    ensures NormalOf(DriftOf(text)) == Passes(Order(), Show(PiecesOf(text), DoneBefore(Order(), m)), m)
  {
    PiecesOfShow(text);
    NormalOfPasses(DriftOf(text));
    TableIsOrdered();
    OrderSorted();
    hide NOTATION_DRIFT;
    hide DriftOf;
    hide PiecesOf;
    hide NormalOf;
    hide Order;
    hide ALL;
    var ps, s := PiecesOf(text), Order();
    forall i | 0 <= i < m ensures s[i].variant != "" && OnlyAt(ps, DoneBefore(s, i), s[i]) {
      OrderHolds(s, i);
      OrderEntry(i);
      Starts(s[i]);
      OnlyAtIfSafe(ps, DoneBefore(s, i), s[i]);
    }
    DoneAll(s);
    PassesRestore(ps, s, 0, m);
  }

  lemma OrderEntry(i: nat)
    requires i < |Order()|
    ensures Order()[i] in NOTATION_DRIFT
  {
    SortedEntry(NOTATION_DRIFT, i);
  }

  lemma SortedEntry(ps: seq<Correction>, i: nat)
    requires i < |ByLength(ps)|
    ensures ByLength(ps)[i] in ps
  {
    SortedMembers(ps);
  }

  lemma SafeIsRecovered(text: string)
    requires Safe(text)
    ensures NormalOf(DriftOf(text)) == text
  {
    PiecesOfShow(text);
    OrderSorted();
    hide NOTATION_DRIFT;
    hide DriftOf;
    hide PiecesOf;
    hide NormalOf;
    hide Order;
    forall i | 0 <= i < |Order()| ensures SafeFor(text, Order()[i]) {
      OrderEntry(i);
    }
    PassesWhileSafe(text, |Order()|);
    DoneAll(Order());
  }
}
