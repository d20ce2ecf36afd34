/** What masking guarantees: nothing leaks, and nothing is lost. */
module MaskingLaws {
  import opened Seqs
  import opened Text
  import opened Regex
  import opened Docs
  import opened Masking

  /** A counter this long spells a phone number by itself. */
  const LIMIT := 1_000_000

  /**
    The reader's inverse of masking: replace every placeholder recorded in the mapping, in one
    pass from the left. The original stores the mapping for this purpose but has no such code.
   */
  function Restore(s: string, m: map<string, string>): string
    decreases |s|
  {
    if s == "" then ""
    else
      var k := PlaceholderEnd(s);
      if s[0] == '[' && s[..k] in m then m[s[..k]] + Restore(s[k..], m)
      else [s[0]] + Restore(s[1..], m)
  }

  /** The position behind the first `]`, or the end. */
  function PlaceholderEnd(s: string): (k: nat)
    requires s != ""
    ensures 0 < k <= |s|
  {
    if s[0] == ']' || |s| == 1 then 1 else 1 + PlaceholderEnd(s[1..])
  }

  // ---------- the patterns ----------

  lemma PatternsAvoidBrackets(u: Unicode)
    requires u.Valid()
    ensures AvoidsBrackets(Email(u)) && AvoidsBrackets(Phone(u))
    ensures Avoids(Phone(u), '_') && forall c :: 'A' <= c <= 'Z' ==> Avoids(Phone(u), c)
  {
    assert '[' !in u.word && ']' !in u.word && '[' !in u.digit && ']' !in u.digit && '_' !in u.digit;
    forall c | 'A' <= c <= 'Z' ensures Avoids(Phone(u), c) {
      assert c !in u.digit;
    }
  }

  /** Every match of the e-mail pattern contains `@`. */
  lemma EmailNeedsAt(u: Unicode, t: string)
    requires Full(Email(u), t)
    ensures '@' in t
  {
    var re := Email(u);
    var k: nat :| Takes(re[0], t, k) && Full(re[1..], t[k..]);
    var rest := t[k..];
    var j: nat :| Takes(re[1..][0], rest, j) && Full(re[1..][1..], rest[j..]);
    assert rest[0] in {'@'};
    assert rest[0] == t[k];
  }

  /** A phone number starts with 0 and has at least six characters. */
  lemma PhoneShape(u: Unicode, t: string)
    requires Full(Phone(u), t)
    ensures |t| >= 6 && t[0] == '0'
  {
    var re := Phone(u);
    PhoneMinLength(u);
    FullLength(re, t);
    var k: nat :| Takes(re[0], t, k) && Full(re[1..], t[k..]);
    assert t[0] in {'0'};
  }

  lemma PhoneMinLength(u: Unicode)
    ensures MinLength(Phone(u)) == 6
  {
    var re := Phone(u);
    MinLengthAt(re, 0);
    MinLengthAt(re, 1);
    MinLengthAt(re, 2);
    MinLengthAt(re, 3);
    MinLengthAt(re, 4);
    MinLengthAt(re, 5);
    assert re[0..] == re && re[6..] == [];
  }

  function Zeros(n: nat): (s: string)
    ensures |s| == n && forall i :: 0 <= i < n ==> s[i] == '0'
  {
    seq(n, _ => '0')
  }

  lemma NothingLeft(re: Pattern, t: string)
    requires re == [] && t == ""
    ensures Full(re, t)
  {
  }

  lemma TakeZeros(re: Pattern, i: nat, n: nat, k: nat)
    requires i < |re| && k <= n && re[i].lo <= k && WithinHi(re[i], k)
    requires k == 0 || '0' in re[i].cls
    requires Full(re[i + 1..], Zeros(n - k))
    ensures Full(re[i..], Zeros(n))
  {
    assert Zeros(n)[k..] == Zeros(n - k);
    AllInRun(re[i].cls, Zeros(n), k);
    FullAt(re, i, Zeros(n), k);
  }

  lemma SixZerosIsPhone(u: Unicode)
    requires u.Valid()
    ensures Full(Phone(u), Zeros(6))
  {
    hide Full;
    hide Zeros;
    var re := Phone(u);
    assert '0' in u.digit;
    assert re[6..] == [] && Zeros(0) == "";
    NothingLeft(re[6..], Zeros(0));
    TakeZeros(re, 5, 3, 3);
    TakeZeros(re, 4, 3, 0);
    TakeZeros(re, 3, 4, 1);
    TakeZeros(re, 2, 4, 0);
    TakeZeros(re, 1, 5, 1);
    TakeZeros(re, 0, 6, 1);
    assert re[0..] == re;
  }

  // ---------- the placeholders ----------

  lemma NameHasNoPhone(u: Unicode, kind: Kind)
    requires u.Valid()
    ensures NoMatch(Phone(u), Name(kind))
  {
    var s := Name(kind);
    assert forall i :: 0 <= i < |s| ==> 'A' <= s[i] <= 'Z';
    forall i, j | 0 <= i <= j <= |s| ensures !Full(Phone(u), s[i..j]) {
      if Full(Phone(u), s[i..j]) {
        assert s[i..j] != "" ==> s[i..j][0] == s[i];
        PhoneShape(u, s[i..j]);
      }
    }
  }

  lemma CounterHasNoPhone(u: Unicode, n: nat)
    requires u.Valid() && 0 < n < LIMIT
    ensures NoMatch(Phone(u), Dec(n))
  {
    var s := Dec(n);
    DecLength(n, 6) by { assert Pow10(3) == 1000; }
    forall i, j | 0 <= i <= j <= |s| ensures !Full(Phone(u), s[i..j]) {
      if Full(Phone(u), s[i..j]) {
        assert s[i..j] != "" ==> s[i..j][0] == s[i];
        PhoneShape(u, s[i..j]);
      }
    }
  }

  lemma InnerHasNoPhone(u: Unicode, kind: Kind, n: nat)
    requires u.Valid() && 0 < n < LIMIT
    ensures NoMatch(Phone(u), Inner(kind, n))
  {
    NameHasNoPhone(u, kind);
    CounterHasNoPhone(u, n);
    PatternsAvoidBrackets(u);
    NoMatchGlue(Phone(u), Name(kind), '_', Dec(n));
  }

  lemma MillionDigits(kind: Kind)
    ensures Inner(kind, LIMIT) == (Name(kind) + ['_'] + ['1']) + Zeros(6) + ""
  {
    DecMillion();
    hide Dec;
    hide Name;
    assert Dec(LIMIT) == ['1'] + Zeros(6);
  }

  lemma MillionHasPhone(u: Unicode, kind: Kind)
    requires u.Valid()
    ensures !NoMatch(Phone(u), Inner(kind, LIMIT))
  {
    hide Phone;
    hide Full;
    hide Inner;
    SixZerosIsPhone(u);
    assert Zeros(6)[0..6] == Zeros(6);
    MatchInside(Phone(u), Name(kind) + ['_'] + ['1'], Zeros(6), "");
    MillionDigits(kind);
  }

  lemma InnerHasNoEmail(u: Unicode, kind: Kind, n: nat)
    ensures NoMatch(Email(u), Inner(kind, n))
  {
    var s := Inner(kind, n);
    InnerChars(kind, n);
    forall i, j | 0 <= i <= j <= |s| ensures !Full(Email(u), s[i..j]) {
      if Full(Email(u), s[i..j]) {
        assert forall k :: 0 <= k < j - i ==> s[i..j][k] == s[i + k];
        EmailNeedsAt(u, s[i..j]);
      }
    }
  }

  lemma InnerChars(kind: Kind, n: nat)
    ensures '@' !in Inner(kind, n) && '[' !in Inner(kind, n) && ']' !in Inner(kind, n)
  {
    var d := Dec(n);
    assert forall i :: 0 <= i < |d| ==> AsciiDigit(d[i]);
  }

  lemma InnerInjective(k1: Kind, n1: nat, k2: Kind, n2: nat)
    requires Inner(k1, n1) == Inner(k2, n2)
    ensures k1 == k2 && n1 == n2
  {
    var s, t := Inner(k1, n1), Inner(k2, n2);
    assert s[0] == Name(k1)[0] && t[0] == Name(k2)[0] && s[1] == Name(k1)[1] && t[1] == Name(k2)[1];
    assert k1 == k2;
    assert s[|Name(k1)| + 1..] == Dec(n1) && t[|Name(k2)| + 1..] == Dec(n2);
    DecInjective(n1, n2);
  }

  // ---------- the three passes ----------

  lemma {:induction false} PersonsFacts(tokens: seq<Morpheme>, n: nat)
    ensures Original(Persons(tokens, n)) == SourceText(tokens)
    ensures Numbered(Holes(Persons(tokens, n)), TagsOf(PERSON), n)
  {
    hide Inner;
    hide Render;
    hide IsPerson;
    if tokens != [] {
      if IsPerson(tokens[0]) {
        PersonsFacts(tokens[1..], n + 1);
        assert "" + tokens[0].surface == tokens[0].surface;
      } else {
        PersonsFacts(tokens[1..], n);
        PlainViews(tokens[0].surface, Persons(tokens[1..], n));
      }
    }
  }

  lemma PassNumbered(u: Unicode, tokens: seq<Morpheme>, kind: Kind)
    ensures Numbered(Holes(Pass(u, tokens, kind)), TagsOf(kind), 0)
  {
    hide Inner;
    hide Scan;
    match kind
    case PERSON => PersonsFacts(tokens, 0);
    case EMAIL => ScanNumbers(Email(u), TagsOf(EMAIL), Render(Persons(tokens, 0)), 0);
    case PHONE => ScanNumbers(Phone(u), TagsOf(PHONE), Render(Emails(u, tokens)), 0);
  }

  lemma PassHasNoEmail(u: Unicode, tokens: seq<Morpheme>, kind: Kind)
    ensures HolesClean(Email(u), Holes(Pass(u, tokens, kind)))
  {
    hide Inner;
    hide Email;
    hide Phone;
    hide Scan;
    PassNumbered(u, tokens, kind);
    var hs := Holes(Pass(u, tokens, kind));
    forall i | 0 <= i < |hs| ensures NoMatch(Email(u), hs[i].tag) {
      InnerHasNoEmail(u, kind, i + 1);
    }
  }

  lemma PassHasNoPhone(u: Unicode, tokens: seq<Morpheme>, kind: Kind)
    requires u.Valid() && Count(u, tokens, kind) < LIMIT
    ensures HolesClean(Phone(u), Holes(Pass(u, tokens, kind)))
  {
    hide Inner;
    hide Email;
    hide Phone;
    hide Scan;
    PassNumbered(u, tokens, kind);
    var hs := Holes(Pass(u, tokens, kind));
    forall i | 0 <= i < |hs| ensures NoMatch(Phone(u), hs[i].tag) {
      InnerHasNoPhone(u, kind, i + 1);
    }
  }

  // ---------- nothing leaks ----------

  /** For every text and every way the analyser splits it, no e-mail address is left. */
  lemma NoEmailLeft(u: Unicode, tokens: seq<Morpheme>)
    requires u.Valid()
    ensures NoMatch(Email(u), MaskedText(u, tokens))
  {
    hide Inner;
    hide Email;
    hide Phone;
    hide Scan;
    PatternsAvoidBrackets(u);
    PassHasNoEmail(u, tokens, EMAIL);
    PassHasNoEmail(u, tokens, PHONE);
    ScanClean(Email(u), TagsOf(EMAIL), Render(Persons(tokens, 0)), 0);
    RenderClean(Email(u), Emails(u, tokens));
    ScanKeepsClean(Phone(u), TagsOf(PHONE), Render(Emails(u, tokens)), 0, Email(u));
    RenderClean(Email(u), Phones(u, tokens));
  }

  /**
    No phone number is left exactly when fewer than a million were found: the placeholder
    number 1,000,000 is itself a phone number to the pattern.
   */
  lemma NoPhoneLeft(u: Unicode, tokens: seq<Morpheme>)
    requires u.Valid()
    ensures NoMatch(Phone(u), MaskedText(u, tokens)) <==> Count(u, tokens, PHONE) < LIMIT
  {
    hide Inner;
    hide Email;
    hide Phone;
    hide Scan;
    if Count(u, tokens, PHONE) < LIMIT {
      PatternsAvoidBrackets(u);
      PassHasNoPhone(u, tokens, PHONE);
      ScanClean(Phone(u), TagsOf(PHONE), Render(Emails(u, tokens)), 0);
      RenderClean(Phone(u), Phones(u, tokens));
    } else {
      var a, b := MillionthHole(u, tokens, PHONE);
      MillionHasPhone(u, PHONE);
      var inner := Inner(PHONE, LIMIT);
      MatchInside(Phone(u), a + ['['], inner, [']'] + b);
      assert a + Token(inner) + b == (a + ['[']) + inner + ([']'] + b);
    }
  }

  /** A pass that counted to a million shows its millionth placeholder. */
  lemma MillionthHole(u: Unicode, tokens: seq<Morpheme>, kind: Kind) returns (a: string, b: string)
    requires Count(u, tokens, kind) >= LIMIT
    ensures Render(Pass(u, tokens, kind)) == a + Token(Inner(kind, LIMIT)) + b
  {
    hide Inner;
    PassNumbered(u, tokens, kind);
    var h := Holes(Pass(u, tokens, kind))[LIMIT - 1];
    a, b := SplitAtHole(Pass(u, tokens, kind), h);
  }

  lemma {:induction false} SplitAtHole(d: Doc, h: Hole) returns (a: string, b: string)
    requires h in Holes(d)
    ensures Render(d) == a + Token(h.tag) + b
  {
    if h == d.hole {
      a, b := d.lit, Render(d.rest);
    } else {
      a, b := SplitAtHole(d.rest, h);
      Assoc(d.lit + Token(d.hole.tag), a, Token(h.tag), b);
      a := d.lit + Token(d.hole.tag) + a;
    }
  }

  // ---------- nothing is lost ----------

  function AllHoles(u: Unicode, tokens: seq<Morpheme>): seq<Hole> {
    Holes(Persons(tokens, 0)) + Holes(Emails(u, tokens)) + Holes(Phones(u, tokens))
  }

  /** Kind and number of the i-th placeholder made. */
  function Coordinates(u: Unicode, tokens: seq<Morpheme>, i: nat): (Kind, nat) {
    var p, e := Count(u, tokens, PERSON), Count(u, tokens, EMAIL);
    if i < p then (PERSON, i + 1) else if i < p + e then (EMAIL, i - p + 1) else (PHONE, i - p - e + 1)
  }

  lemma HoleTag(u: Unicode, tokens: seq<Morpheme>, i: nat)
    requires i < |AllHoles(u, tokens)|
    ensures var (kind, n) := Coordinates(u, tokens, i); AllHoles(u, tokens)[i].tag == Inner(kind, n)
  {
    hide Inner;
    hide Scan;
    PassNumbered(u, tokens, PERSON);
    PassNumbered(u, tokens, EMAIL);
    PassNumbered(u, tokens, PHONE);
  }

  /** All placeholders are distinct. */
  lemma PlaceholdersDistinct(u: Unicode, tokens: seq<Morpheme>)
    ensures Distinct(AllHoles(u, tokens))
  {
    hide Inner;
    var hs := AllHoles(u, tokens);
    forall i, j | 0 <= i < j < |hs| ensures hs[i].tag != hs[j].tag {
      var x, y := Coordinates(u, tokens, i), Coordinates(u, tokens, j);
      HoleTag(u, tokens, i);
      HoleTag(u, tokens, j);
      assert x != y;
      if hs[i].tag == hs[j].tag {
        InnerInjective(x.0, x.1, y.0, y.1);
      }
    }
  }

  predicate Distinct(hs: seq<Hole>) {
    forall i, j :: 0 <= i < j < |hs| ==> hs[i].tag != hs[j].tag
  }

  lemma {:induction false} RecordAppend(m: map<string, string>, a: seq<Hole>, b: seq<Hole>)
    ensures Record(m, a + b) == Record(Record(m, a), b)
    decreases |a|
  {
    if a == [] {
      assert a + b == b;
    } else {
      assert (a + b)[1..] == a[1..] + b;
      RecordAppend(m[Token(a[0].tag) := a[0].original], a[1..], b);
    }
  }

  lemma TokenInjective(a: string, b: string)
    requires Token(a) == Token(b)
    ensures a == b
  {
    assert Token(a)[1..|Token(a)| - 1] == a && Token(b)[1..|Token(b)| - 1] == b;
  }

  /** The keys of the mapping are the old ones and the recorded placeholders, with their originals. */
  lemma {:induction false} RecordFacts(m: map<string, string>, hs: seq<Hole>)
    requires Distinct(hs) && forall i :: 0 <= i < |hs| ==> Token(hs[i].tag) !in m
    ensures forall k :: k in m ==> k in Record(m, hs) && Record(m, hs)[k] == m[k]
    ensures forall i :: 0 <= i < |hs| ==> Token(hs[i].tag) in Record(m, hs)
    ensures forall i :: 0 <= i < |hs| ==> Record(m, hs)[Token(hs[i].tag)] == hs[i].original
    ensures |Record(m, hs)| == |m| + |hs|
    decreases |hs|
  {
    if hs != [] {
      var m1 := m[Token(hs[0].tag) := hs[0].original];
      forall i | 0 <= i < |hs[1..]| ensures Token(hs[1..][i].tag) !in m1 {
        assert hs[1..][i] == hs[i + 1];
        if Token(hs[i + 1].tag) == Token(hs[0].tag) {
          TokenInjective(hs[i + 1].tag, hs[0].tag);
        }
      }
      assert Token(hs[0].tag) in m1;
      RecordFacts(m1, hs[1..]);
      forall i | 0 < i < |hs| ensures hs[i] == hs[1..][i - 1] {}
    }
  }

  lemma {:induction false} RecordKeys(m: map<string, string>, hs: seq<Hole>, k: string)
    requires k in Record(m, hs) && k !in m
    ensures exists i :: 0 <= i < |hs| && k == Token(hs[i].tag)
    decreases |hs|
  {
    assert hs != [];
    if k != Token(hs[0].tag) {
      RecordKeys(m[Token(hs[0].tag) := hs[0].original], hs[1..], k);
      var i :| 0 <= i < |hs[1..]| && k == Token(hs[1..][i].tag);
      assert hs[i + 1] == hs[1..][i];
    }
  }

  /** The mapping holds exactly the placeholders made, one entry each. */
  lemma MappingExact(u: Unicode, tokens: seq<Morpheme>)
    ensures Mapping(u, tokens) == Record(map[], AllHoles(u, tokens))
    ensures forall h :: h in AllHoles(u, tokens) ==>
              Token(h.tag) in Mapping(u, tokens) && Mapping(u, tokens)[Token(h.tag)] == h.original
    ensures |Mapping(u, tokens)| ==
            Count(u, tokens, PERSON) + Count(u, tokens, EMAIL) + Count(u, tokens, PHONE)
  {
    var p, e, f := Holes(Persons(tokens, 0)), Holes(Emails(u, tokens)), Holes(Phones(u, tokens));
    RecordAppend(map[], p, e);
    RecordAppend(map[], p + e, f);
    PlaceholdersDistinct(u, tokens);
    RecordFacts(map[], AllHoles(u, tokens));
  }

  lemma MappingKeysBracketed(u: Unicode, tokens: seq<Morpheme>, k: string)
    requires k in Mapping(u, tokens)
    ensures k != "" && '[' !in k[1..]
  {
    hide Inner;
    hide Scan;
    hide AllHoles;
    hide Mapping;
    hide Coordinates;
    MappingExact(u, tokens);
    var hs := AllHoles(u, tokens);
    RecordKeys(map[], hs, k);
    var i :| 0 <= i < |hs| && k == Token(hs[i].tag);
    HoleTag(u, tokens, i);
    var (kind, n) := Coordinates(u, tokens, i);
    InnerChars(kind, n);
    assert k[1..] == hs[i].tag + "]";
  }

  // ---------- restoring a document ----------

  ghost predicate LitsFree(d: Doc, c: char) {
    c !in d.lit && (d.Cut? ==> LitsFree(d.rest, c))
  }

  lemma {:induction false} RestoreLit(l: string, rest: string, m: map<string, string>)
    requires '[' !in l
    ensures Restore(l + rest, m) == l + Restore(rest, m)
  {
    if l == "" {
      assert l + rest == rest;
    } else {
      assert (l + rest)[1..] == l[1..] + rest;
      RestoreLit(l[1..], rest, m);
    }
  }

  lemma {:induction false} PlaceholderEndAt(s: string, k: nat)
    requires k < |s| && s[k] == ']' && ']' !in s[..k]
    ensures PlaceholderEnd(s) == k + 1
  {
    if k > 0 {
      assert s[0] == s[..k][0];
      assert s[..k][1..] == s[1..][..k - 1];
      PlaceholderEndAt(s[1..], k - 1);
    }
  }

  lemma RestoreToken(tag: string, rest: string, m: map<string, string>)
    requires '[' !in tag && ']' !in tag && Token(tag) in m
    ensures Restore(Token(tag) + rest, m) == m[Token(tag)] + Restore(rest, m)
  {
    var s := Token(tag) + rest;
    var k := |tag| + 1;
    assert s[..k] == "[" + tag;
    PlaceholderEndAt(s, k);
    assert s[..k + 1] == Token(tag) && s[k + 1..] == rest;
  }

  ghost predicate Recorded(hs: seq<Hole>, m: map<string, string>) {
    forall i :: 0 <= i < |hs| ==>
      && '[' !in hs[i].tag && ']' !in hs[i].tag
      && Token(hs[i].tag) in m && m[Token(hs[i].tag)] == hs[i].original
  }

  lemma {:induction false} RestoreDoc(d: Doc, m: map<string, string>)
    requires LitsFree(d, '[') && Recorded(Holes(d), m)
    ensures Restore(Render(d), m) == Original(d)
  {
    match d
    case End(l) =>
      RestoreLit(l, "", m);
      assert l + "" == l;
    case Cut(l, h, rest) =>
      assert Holes(d)[0] == h;
      assert forall i :: 0 <= i < |Holes(rest)| ==> Holes(rest)[i] == Holes(d)[i + 1];
      RestoreDoc(rest, m);
      RestoreToken(h.tag, Render(rest), m);
      assert Render(d) == l + (Token(h.tag) + Render(rest));
      RestoreLit(l, Token(h.tag) + Render(rest), m);
  }

  lemma {:induction false} ScanLitsFree(re: Pattern, tags: Tags, s: string, n: nat, c: char)
    requires Productive(re) && c !in s
    ensures LitsFree(Scan(re, tags, s, n), c)
    decreases |s|
  {
    if s != "" {
      match Match(re, s)
      case Some(k) =>
        ScanHit(re, tags, s, n, k);
        ScanLitsFree(re, tags, s[k..], n + 1, c);
      case None =>
        ScanLitsFree(re, tags, s[1..], n, c);
    }
  }

  lemma {:induction false} JoinLitsFree(d: Doc, h: Hole, rest: Doc, c: char)
    requires LitsFree(d, c) && LitsFree(rest, c)
    ensures LitsFree(Join(d, h, rest), c)
  {
    if d.Cut? {
      JoinLitsFree(d.rest, h, rest, c);
    }
  }

  lemma {:induction false} WeaveLitsFree(re: Pattern, tags: Tags, d: Doc, n: nat, c: char)
    requires Productive(re) && LitsFree(d, c)
    ensures LitsFree(Weave(re, tags, d, n), c)
    decreases d
  {
    ScanLitsFree(re, tags, d.lit, n, c);
    if d.Cut? {
      WeaveLitsFree(re, tags, d.rest, Next(re, tags, d.lit, n), c);
      JoinLitsFree(Scan(re, tags, d.lit, n), d.hole, Weave(re, tags, d.rest, Next(re, tags, d.lit, n)), c);
    }
  }

  lemma {:induction false} PersonsLitsFree(tokens: seq<Morpheme>, n: nat, c: char)
    requires c !in SourceText(tokens)
    ensures LitsFree(Persons(tokens, n), c)
  {
    if tokens != [] {
      var t, rest := tokens[0].surface, SourceText(tokens[1..]);
      assert c in t || c in rest ==> c in t + rest;
      PersonsLitsFree(tokens[1..], if IsPerson(tokens[0]) then n + 1 else n, c);
    }
  }

  // ---------- the passes compose ----------

  /** Persons and e-mail addresses, as one document over the source text. */
  function Woven(u: Unicode, tokens: seq<Morpheme>): Doc {
    Weave(Email(u), TagsOf(EMAIL), Persons(tokens, 0), 0)
  }

  /** The e-mail pass leaves every person placeholder whole. */
  lemma WovenFacts(u: Unicode, tokens: seq<Morpheme>)
    requires u.Valid()
    ensures Render(Woven(u, tokens)) == Render(Emails(u, tokens))
    ensures multiset(Holes(Woven(u, tokens))) ==
            multiset(Holes(Persons(tokens, 0))) + multiset(Holes(Emails(u, tokens)))
    ensures Original(Woven(u, tokens)) == SourceText(tokens)
  {
    hide Inner;
    hide Email;
    hide Phone;
    hide Weave;
    hide Scan;
    PatternsAvoidBrackets(u);
    PassHasNoEmail(u, tokens, PERSON);
    ScanIsWeave(Email(u), TagsOf(EMAIL), Persons(tokens, 0), 0);
    WeaveOriginal(Email(u), TagsOf(EMAIL), Persons(tokens, 0), 0);
    PersonsFacts(tokens, 0);
  }

  /** The masked text, as one document over the source text. */
  function Final(u: Unicode, tokens: seq<Morpheme>): Doc {
    Weave(Phone(u), TagsOf(PHONE), Woven(u, tokens), 0)
  }

  lemma InMultiset<T>(x: T, s: seq<T>, a: seq<T>, b: seq<T>)
    requires multiset(s) == multiset(a) + multiset(b) && x in s
    ensures x in a || x in b
  {
    assert x in multiset(s);
  }

  /** Below the limit the phone pass leaves every earlier placeholder whole. */
  lemma FinalFacts(u: Unicode, tokens: seq<Morpheme>)
    requires u.Valid() && Count(u, tokens, PERSON) < LIMIT && Count(u, tokens, EMAIL) < LIMIT
    ensures Render(Final(u, tokens)) == MaskedText(u, tokens)
    ensures Original(Final(u, tokens)) == SourceText(tokens)
    ensures forall h :: h in Holes(Final(u, tokens)) ==> h in AllHoles(u, tokens)
  {
    hide Inner;
    hide Email;
    hide Phone;
    hide Weave;
    hide Scan;
    PatternsAvoidBrackets(u);
    WovenFacts(u, tokens);
    var w := Woven(u, tokens);
    WovenHasNoPhone(u, tokens);
    var p, e := Holes(Persons(tokens, 0)), Holes(Emails(u, tokens));
    ScanIsWeave(Phone(u), TagsOf(PHONE), w, 0);
    WeaveOriginal(Phone(u), TagsOf(PHONE), w, 0);
    forall h | h in Holes(Final(u, tokens)) ensures h in AllHoles(u, tokens) {
      InMultiset(h, Holes(Final(u, tokens)), Holes(w), Holes(Phones(u, tokens)));
      if h in Holes(w) {
        InMultiset(h, Holes(w), p, e);
      }
    }
  }

  lemma FinalLitsFree(u: Unicode, tokens: seq<Morpheme>, c: char)
    requires c !in SourceText(tokens)
    ensures LitsFree(Final(u, tokens), c)
  {
    PersonsLitsFree(tokens, 0, c);
    WeaveLitsFree(Email(u), TagsOf(EMAIL), Persons(tokens, 0), 0, c);
    WeaveLitsFree(Phone(u), TagsOf(PHONE), Woven(u, tokens), 0, c);
  }

  lemma FinalRecorded(u: Unicode, tokens: seq<Morpheme>)
    requires u.Valid() && Count(u, tokens, PERSON) < LIMIT && Count(u, tokens, EMAIL) < LIMIT
    ensures Recorded(Holes(Final(u, tokens)), Mapping(u, tokens))
  {
    hide Inner;
    hide Scan;
    hide Weave;
    MappingExact(u, tokens);
    FinalFacts(u, tokens);
    var hs, all := Holes(Final(u, tokens)), AllHoles(u, tokens);
    forall i | 0 <= i < |hs| ensures '[' !in hs[i].tag && ']' !in hs[i].tag {
      assert hs[i] in all;
      var j :| 0 <= j < |all| && all[j] == hs[i];
      HoleTag(u, tokens, j);
      InnerChars(Coordinates(u, tokens, j).0, Coordinates(u, tokens, j).1);
    }
  }

  // ---------- an early placeholder with a million in it is cut ----------

  lemma {:induction false} RestoreKeepsBracket(x: string, v: string, y: string, m: map<string, string>)
    requires ']' !in v && forall k :: k in m ==> k != "" && '[' !in k[1..]
    ensures '[' in Restore(x + ['['] + v + ['['] + y, m)
    decreases |x|
  {
    var s := x + ['['] + v + ['['] + y;
    var k := PlaceholderEnd(s);
    if x != "" && k > |x| {
      assert s[..k][1..][|x| - 1] == '[';
    }
    if x == "" {
      EndBehind(s, |v| + 1);
      assert s[..k][1..][|v|] == '[';
    } else if s[0] == '[' && s[..k] in m {
      assert s[k..] == x[k..] + ['['] + v + ['['] + y;
      RestoreKeepsBracket(x[k..], v, y, m);
    } else {
      assert s[1..] == x[1..] + ['['] + v + ['['] + y;
      RestoreKeepsBracket(x[1..], v, y, m);
    }
  }

  lemma {:induction false} EndBehind(s: string, k: nat)
    requires k < |s| && forall i :: 0 <= i <= k ==> s[i] != ']'
    ensures PlaceholderEnd(s) > k
  {
    if k > 0 {
      EndBehind(s[1..], k - 1);
    }
  }

  /** The phone pass replaces inside the placeholder, so a bracket opens inside a bracket. */
  lemma CutPlaceholder(re: Pattern, tags: Tags, a: string, inner: string, b: string, n: nat)
    returns (x: string, v: string, y: string)
    requires Productive(re) && AvoidsBrackets(re) && !NoMatch(re, inner) && ']' !in inner
    ensures ']' !in v && Render(Scan(re, tags, a + Token(inner) + b, n)) == x + ['['] + v + ['['] + y
  {
    hide Scan;
    hide Match;
    Brackets(a, inner, b);
    ScanSplit(re, tags, a, '[', inner + [']'] + b, n);
    var m := Next(re, tags, a, n);
    ScanSplit(re, tags, inner, ']', b, m);
    ScanClean(re, tags, inner, m);
    ScanOriginal(re, tags, inner, m);
    var d := Scan(re, tags, inner, m);
    assert d.Cut?;
    x, v := Render(Scan(re, tags, a, n)), d.lit;
    var rb := Render(Scan(re, tags, b, Next(re, tags, inner, m)));
    y := d.hole.tag + [']'] + Render(d.rest) + [']'] + rb;
    BracketInBracket(x, v, d.hole.tag, Render(d.rest), rb);
  }

  lemma BracketInBracket(x: string, v: string, tag: string, r: string, b: string)
    ensures x + ['['] + ((v + Token(tag) + r) + [']'] + b)
            == x + ['['] + v + ['['] + (tag + [']'] + r + [']'] + b)
  {
    assert Token(tag) == ['['] + tag + [']'];
  }

  lemma CutIsFatal(u: Unicode, tokens: seq<Morpheme>, kind: Kind)
    requires u.Valid() && kind != PHONE && Count(u, tokens, kind) >= LIMIT
    ensures '[' in Restore(MaskedText(u, tokens), Mapping(u, tokens))
  {
    hide Scan;
    hide Weave;
    WovenFacts(u, tokens);
    PassNumbered(u, tokens, kind);
    var h := Holes(Pass(u, tokens, kind))[LIMIT - 1];
    var w := Woven(u, tokens);
    assert h in multiset(Holes(w));
    var a, b := SplitAtHole(w, h);
    MillionHasPhone(u, kind);
    InnerChars(kind, LIMIT);
    PatternsAvoidBrackets(u);
    var x, v, y := CutPlaceholder(Phone(u), TagsOf(PHONE), a, h.tag, b, 0);
    forall k | k in Mapping(u, tokens) ensures k != "" && '[' !in k[1..] {
      MappingKeysBracketed(u, tokens, k);
    }
    RestoreKeepsBracket(x, v, y, Mapping(u, tokens));
  }

  /**
    For every text without `[`, the masked text and the mapping give the text back exactly when
    fewer than a million persons and fewer than a million e-mail addresses were found; beyond
    that the phone pass cuts a placeholder.
   */
  lemma MaskingLosesNothing(u: Unicode, tokens: seq<Morpheme>)
    requires u.Valid() && '[' !in SourceText(tokens)
    ensures Restore(MaskedText(u, tokens), Mapping(u, tokens)) == SourceText(tokens)
            <==> Count(u, tokens, PERSON) < LIMIT && Count(u, tokens, EMAIL) < LIMIT
  {
    if Count(u, tokens, PERSON) >= LIMIT {
      CutIsFatal(u, tokens, PERSON);
    } else if Count(u, tokens, EMAIL) >= LIMIT {
      CutIsFatal(u, tokens, EMAIL);
    } else {
      hide Inner;
      hide Scan;
      hide Weave;
      FinalFacts(u, tokens);
      FinalRecorded(u, tokens);
      FinalLitsFree(u, tokens, '[');
      RestoreDoc(Final(u, tokens), Mapping(u, tokens));
    }
  }

  // ---------- a bound to check beforehand ----------

  lemma {:induction false} ScanCount(re: Pattern, tags: Tags, s: string, n: nat, m: nat)
    requires Productive(re) && m == MinLength(re)
    ensures m * |Holes(Scan(re, tags, s, n))| <= |s|
    decreases |s|
  {
    hide Scan;
    hide Match;
    hide MinLength;
    if s == "" {
      ScanEmpty(re, tags, n);
    } else {
      match Match(re, s)
      case Some(k) =>
        ScanHit(re, tags, s, n, k);
        MatchSound(re, s);
        FullLength(re, s[..k]);
        ScanCount(re, tags, s[k..], n + 1, m);
        OneMore(m, |Holes(Scan(re, tags, s[k..], n + 1))|);
      case None =>
        ScanMiss(re, tags, s, n);
        ScanCount(re, tags, s[1..], n, m);
        PlainViews([s[0]], Scan(re, tags, s[1..], n));
    }
  }

  lemma OneMore(m: nat, h: nat)
    ensures m * (1 + h) == m + m * h
  {
  }

  lemma Distributes(m: nat, a: nat, b: nat)
    ensures m * (a + b) == m * a + m * b
  {
  }

  /** Length of the text between the placeholders. */
  function LitLength(d: Doc): nat {
    |d.lit| + if d.Cut? then LitLength(d.rest) else 0
  }

  lemma {:induction false} LitLengthBound(d: Doc)
    ensures LitLength(d) <= |Original(d)|
  {
    if d.Cut? {
      LitLengthBound(d.rest);
    }
  }

  /** A pass over the literals cuts each match out of them. */
  lemma {:induction false} WeaveCount(re: Pattern, tags: Tags, d: Doc, n: nat, m: nat)
    requires Productive(re) && m == MinLength(re)
    ensures |Holes(Weave(re, tags, d, n))| >= |Holes(d)|
    ensures m * (|Holes(Weave(re, tags, d, n))| - |Holes(d)|) <= LitLength(d)
    decreases d
  {
    hide Scan;
    hide MinLength;
    ScanCount(re, tags, d.lit, n, m);
    if d.Cut? {
      var next := Next(re, tags, d.lit, n);
      var rest := Weave(re, tags, d.rest, next);
      WeaveCount(re, tags, d.rest, next, m);
      JoinViews(Scan(re, tags, d.lit, n), d.hole, rest);
      Distributes(m, |Holes(Scan(re, tags, d.lit, n))|, |Holes(rest)| - |Holes(d.rest)|);
    }
  }

  lemma {:induction false} PersonsCount(tokens: seq<Morpheme>, n: nat)
    ensures |Holes(Persons(tokens, n))| <= |tokens|
    decreases |tokens|
  {
    if tokens != [] {
      if IsPerson(tokens[0]) {
        PersonsCount(tokens[1..], n + 1);
      } else {
        PersonsCount(tokens[1..], n);
        PlainViews(tokens[0].surface, Persons(tokens[1..], n));
      }
    }
  }

  lemma SizesOf<T>(s: seq<T>, a: seq<T>, b: seq<T>)
    requires multiset(s) == multiset(a) + multiset(b)
    ensures |s| == |a| + |b|
  {
    assert |multiset(s)| == |s| && |multiset(a)| == |a| && |multiset(b)| == |b|;
  }

  lemma EmailMinLength(u: Unicode)
    ensures MinLength(Email(u)) == 5
  {
    var re := Email(u);
    MinLengthAt(re, 0);
    MinLengthAt(re, 1);
    MinLengthAt(re, 2);
    MinLengthAt(re, 3);
    MinLengthAt(re, 4);
    assert re[0..] == re && re[5..] == [];
  }

  lemma EmailCount(u: Unicode, tokens: seq<Morpheme>)
    requires u.Valid()
    ensures 5 * Count(u, tokens, EMAIL) <= |SourceText(tokens)|
  {
    hide Email;
    hide Weave;
    hide Scan;
    hide Inner;
    EmailMinLength(u);
    WovenFacts(u, tokens);
    var d := Persons(tokens, 0);
    PersonsFacts(tokens, 0);
    WeaveCount(Email(u), TagsOf(EMAIL), d, 0, 5);
    SizesOf(Holes(Woven(u, tokens)), Holes(d), Holes(Emails(u, tokens)));
    LitLengthBound(d);
  }

  lemma PhoneCount(u: Unicode, tokens: seq<Morpheme>)
    requires u.Valid() && Count(u, tokens, PERSON) < LIMIT && Count(u, tokens, EMAIL) < LIMIT
    ensures 6 * Count(u, tokens, PHONE) <= |SourceText(tokens)|
  {
    hide Phone;
    hide Weave;
    hide Scan;
    hide Inner;
    PhoneMinLength(u);
    WovenFacts(u, tokens);
    var d := Woven(u, tokens);
    WovenHasNoPhone(u, tokens);
    PatternsAvoidBrackets(u);
    ScanIsWeave(Phone(u), TagsOf(PHONE), d, 0);
    WeaveCount(Phone(u), TagsOf(PHONE), d, 0, 6);
    SizesOf(Holes(Final(u, tokens)), Holes(d), Holes(Phones(u, tokens)));
    LitLengthBound(d);
  }

  lemma WovenHasNoPhone(u: Unicode, tokens: seq<Morpheme>)
    requires u.Valid() && Count(u, tokens, PERSON) < LIMIT && Count(u, tokens, EMAIL) < LIMIT
    ensures HolesClean(Phone(u), Holes(Woven(u, tokens)))
  {
    hide Phone;
    hide Weave;
    hide Scan;
    hide Inner;
    WovenFacts(u, tokens);
    PassHasNoPhone(u, tokens, PERSON);
    PassHasNoPhone(u, tokens, EMAIL);
    var w, p, e := Holes(Woven(u, tokens)), Holes(Persons(tokens, 0)), Holes(Emails(u, tokens));
    forall i | 0 <= i < |w| ensures NoMatch(Phone(u), w[i].tag) {
      InMultiset(w[i], w, p, e);
    }
  }

  /**
    A text of fewer than five million characters that the analyser splits into fewer than a million
    tokens stays within every bound: the masked text has no phone number, and nothing is lost.
   */
  lemma ShortTextsAreSafe(u: Unicode, tokens: seq<Morpheme>)
    requires u.Valid() && |SourceText(tokens)| < 5 * LIMIT && |tokens| < LIMIT
    ensures NoMatch(Phone(u), MaskedText(u, tokens))
    ensures '[' !in SourceText(tokens) ==> Restore(MaskedText(u, tokens), Mapping(u, tokens)) == SourceText(tokens)
  {
    hide Phone;
    hide MaskedText;
    hide NoMatch;
    hide Emails;
    hide Phones;
    PersonsCount(tokens, 0);
    EmailCount(u, tokens);
    PhoneCount(u, tokens);
    NoPhoneLeft(u, tokens);
    if '[' !in SourceText(tokens) {
      MaskingLosesNothing(u, tokens);
    }
  }
}
