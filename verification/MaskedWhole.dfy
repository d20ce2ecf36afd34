/**
  What the masker makes of whole addresses and numbers, and of person tokens: who is masked, how
  much of the text, and what stands there afterwards (app/infra/masking/pii.py).
 */
module MaskedWhole {
  import opened Wrappers
  import opened Seqs
  import opened Text
  import opened Regex
  import opened Docs
  import opened Masking
  import opened MaskingLaws
  import opened Patterns

  lemma {:induction false} RunOver(cls: set<char>, a: string, b: string)
    requires (forall i :: 0 <= i < |a| ==> a[i] in cls) && (b == "" || b[0] !in cls)
    ensures Run(cls, a + b) == |a|
  {
    if a == "" {
      assert a + b == b;
    } else {
      assert (a + b)[1..] == a[1..] + b;
      RunOver(cls, a[1..], b);
    }
  }

  /** The first item takes all of `a`, and no more can be taken. */
  lemma TakesAll(item: Item, rest: Pattern, a: string, b: string, n: nat)
    requires Repeats(item, a) && (item.hi == Some(|a|) || b == "" || b[0] !in item.cls)
    requires Match(rest, b) == Some(n)
    ensures Match([item] + rest, a + b) == Some(|a| + n)
  {
    hide Match;
    var re, s := [item] + rest, a + b;
    assert re[0] == item && re[1..] == rest && s[|a|..] == b;
    if item.hi == Some(|a|) {
      assert forall i :: 0 <= i < |a| ==> s[i] == a[i];
      AllInRun(item.cls, s, |a|);
    } else {
      RunOver(item.cls, a, b);
    }
    MatchMax(re, s, |a|, n);
  }

  /** One character. */
  lemma TakesOne(c: char, rest: Pattern, b: string, n: nat)
    requires Match(rest, b) == Some(n)
    ensures Match([Once({c})] + rest, [c] + b) == Some(1 + n)
  {
    hide Match;
    TakesAll(Once({c}), rest, [c], b, n);
  }

  /** `lo` to `hi` digits. */
  lemma TakesDigits(u: Unicode, lo: nat, hi: nat, rest: Pattern, a: string, b: string, n: nat)
    requires Numeral(u, a, lo, hi) && (b == "" || b[0] !in u.digit || |a| == hi)
    requires Match(rest, b) == Some(n)
    ensures Match([Item(u.digit.Keys, lo, Some(hi))] + rest, a + b) == Some(|a| + n)
  {
    hide Match;
    TakesAll(Item(u.digit.Keys, lo, Some(hi)), rest, a, b, n);
  }

  /** An optional hyphen is taken if there is one. */
  lemma TakesHyphen(rest: Pattern, h: string, b: string, n: nat)
    requires Hyphen(h) && b != "" && b[0] != '-' && Match(rest, b) == Some(n)
    ensures Match([Item({'-'}, 0, Some(1))] + rest, h + b) == Some(|h| + n)
  {
    hide Match;
    TakesAll(Item({'-'}, 0, Some(1)), rest, h, b, n);
  }

  lemma NothingTaken(s: string)
    ensures Match([], s) == Some(0)
  {
  }

  // ---------- e-mail addresses ----------

  /** `@`, a host name, a dot, and more. */
  function Behind(host: string, rest: string): (s: string)
    ensures s != "" && s[0] == '@'
  {
    "@" + (host + ("." + rest))
  }

  /** What the pattern takes of it, given what it takes behind the dot. */
  lemma DomainPart(u: Unicode, host: string, rest: string, k: nat)
    requires '.' !in u.word && HostPart(u, host)
    requires Match(Domain2(u), rest) == Some(k)
    ensures Match(At(u), Behind(host, rest)) == Some(1 + (|host| + (1 + k)))
  {
    hide Match;
    hide HostPart;
    DotMatch(u, rest, k);
    HostMatch(u, host, "." + rest, 1 + k);
    AtMatch(u, host + ("." + rest), |host| + (1 + k));
  }

  lemma DomainMatch(u: Unicode, rest: string)
    requires rest != "" && TailChar(u, rest[0])
    ensures Match(Domain2(u), rest) == Some(Run(u.word + {'.', '-'}, rest))
  {
    hide Match;
    var tails := u.word + {'.', '-'};
    var k := Run(tails, rest);
    assert rest == rest[..k] + rest[k..];
    NothingTaken(rest[k..]);
    EmailRests(u);
    hide Domain2;
    AllInRun(tails, rest, 1);
    TakesAll(Plus(tails), [], rest[..k], rest[k..], 0);
  }

  lemma DotMatch(u: Unicode, b: string, n: nat)
    requires Match(Domain2(u), b) == Some(n)
    ensures Match(Dot(u), "." + b) == Some(1 + n)
  {
    hide Match;
    TakesOne('.', Domain2(u), b, n);
  }

  lemma HostMatch(u: Unicode, host: string, b: string, n: nat)
    requires '.' !in u.word && HostPart(u, host)
    requires b != "" && b[0] == '.' && Match(Dot(u), b) == Some(n)
    ensures Match(Host(u), host + b) == Some(|host| + n)
  {
    hide Match;
    TakesAll(Plus(u.word + {'-'}), Dot(u), host, b, n);
  }

  lemma AtMatch(u: Unicode, b: string, n: nat)
    requires Match(Host(u), b) == Some(n)
    ensures Match(At(u), "@" + b) == Some(1 + n)
  {
    hide Match;
    TakesOne('@', Host(u), b, n);
  }

  lemma LocalMatch(u: Unicode, local: string, b: string, n: nat)
    requires '@' !in u.word && LocalPart(u, local)
    requires b != "" && b[0] == '@' && Match(At(u), b) == Some(n)
    ensures Match(Email(u), local + b) == Some(|local| + n)
  {
    hide Match;
    EmailRests(u);
    hide At;
    hide Email;
    TakesAll(Plus(u.word + {'.', '+', '-'}), At(u), local, b, n);
  }

  /** Where the e-mail pattern matches, it takes the longest address that starts there. */
  lemma EmailIsLongest(u: Unicode, s: string, m: nat)
    requires u.Valid() && m <= |s| && IsEmail(u, s[..m])
    ensures Match(Email(u), s).Some? && Match(Email(u), s).value >= m
    ensures IsEmail(u, s[..Match(Email(u), s).value])
  {
    hide Match;
    hide Email;
    hide IsEmail;
    FullEmail(u, s[..m]);
    MatchComplete(Email(u), s, m);
    MatchSound(Email(u), s);
    FullEmail(u, s[..Match(Email(u), s).value]);
    EmailReaches(u, s, m);
  }

  lemma EmailReaches(u: Unicode, s: string, m: nat)
    requires u.Valid() && m <= |s| && IsEmail(u, s[..m]) && Match(Email(u), s).Some?
    ensures Match(Email(u), s).value >= m
  {
    hide Match;
    hide Email;
    hide LocalPart;
    hide HostPart;
    var local, host, tail :| EmailParts(u, s[..m], local, host, tail);
    assert s == s[..m] + s[m..];
    EmailTakes(u, local, host, tail, s[m..]);
    FlatEmail(local, host, tail, s[m..]);
  }

  lemma FlatEmail(local: string, host: string, tail: string, more: string)
    ensures local + "@" + host + "." + tail + more == local + Behind(host, tail + more)
  {
    var rest := tail + more;
    Assoc(local + "@" + host + ".", tail, more, "");
    Assoc(local + "@" + host, ".", rest, "");
    Assoc(local + "@", host, "." + rest, "");
    Assoc(local, "@", host + ("." + rest), "");
  }

  lemma DomainTakes(u: Unicode, tail: string, more: string) returns (k: nat)
    requires TailPart(u, tail)
    ensures k >= |tail| && Match(Domain2(u), tail + more) == Some(k)
  {
    hide Match;
    var rest := tail + more;
    assert rest[0] == tail[0];
    DomainMatch(u, rest);
    assert forall i :: 0 <= i < |tail| ==> rest[i] == tail[i];
    AllInRun(u.word + {'.', '-'}, rest, |tail|);
    k := Run(u.word + {'.', '-'}, rest);
  }

  lemma EmailTakes(u: Unicode, local: string, host: string, tail: string, more: string)
    requires '@' !in u.word && '.' !in u.word && LocalPart(u, local) && HostPart(u, host) && TailPart(u, tail)
    ensures var n := Match(Email(u), local + Behind(host, tail + more));
            n.Some? && n.value >= |local| + 1 + |host| + 1 + |tail|
  {
    hide *;
    var rest := tail + more;
    var k := DomainTakes(u, tail, more);
    DomainPart(u, host, rest, k);
    LocalMatch(u, local, Behind(host, rest), 1 + (|host| + (1 + k)));
  }

  // ---------- phone numbers ----------

  lemma PartLengths(u: Unicode)
    ensures MinLength(Part3H(u)) == 3 && MinLength(Part2(u)) == 4 && MinLength(Part2H(u)) == 4
  {
    Rests(u);
    assert MinLength(Part3(u)) == 3 by { assert MinLength([]) == 0; }
  }

  lemma DigitsOrHyphen(u: Unicode)
    requires u.Valid()
    ensures '-' !in u.digit
  {
  }

  lemma Split<T>(s: seq<T>, k: nat)
    requires k <= |s|
    ensures s == s[..k] + s[k..]
  {
  }

  lemma Takes1(u: Unicode, a: string, b: string, n: nat)
    requires Numeral(u, a, 1, 4) && (b == "" || b[0] !in u.digit || |a| == 4) && Match(Part2H(u), b) == Some(n)
    ensures Match(Part1(u), a + b) == Some(|a| + n)
  {
    hide Match;
    TakesDigits(u, 1, 4, Part2H(u), a, b, n);
  }

  lemma Takes2(u: Unicode, a: string, b: string, n: nat)
    requires Numeral(u, a, 1, 4) && (b == "" || b[0] !in u.digit || |a| == 4) && Match(Part3H(u), b) == Some(n)
    ensures Match(Part2(u), a + b) == Some(|a| + n)
  {
    hide Match;
    TakesDigits(u, 1, 4, Part3H(u), a, b, n);
  }

  lemma Takes2H(u: Unicode, h: string, b: string, n: nat)
    requires Hyphen(h) && b != "" && b[0] != '-' && Match(Part2(u), b) == Some(n)
    ensures Match(Part2H(u), h + b) == Some(|h| + n)
  {
    hide Match;
    TakesHyphen(Part2(u), h, b, n);
  }

  /** The first part with `k` digits, when more of them leave nothing. */
  lemma Gives1(u: Unicode, s: string, k: nat, n: nat)
    requires 1 <= k <= 4 && k <= Run(u.digit.Keys, s) && Match(Part2H(u), s[k..]) == Some(n)
    requires forall j :: k < j <= 4 && j <= Run(u.digit.Keys, s) ==> Match(Part2H(u), s[j..]).None?
    ensures Match(Part1(u), s) == Some(k + n)
  {
    hide Match;
    hide Run;
    Rests(u);
    MatchBack(Part1(u), s, k, n);
  }

  lemma Gives2(u: Unicode, s: string, k: nat, n: nat)
    requires 1 <= k <= 4 && k <= Run(u.digit.Keys, s) && Match(Part3H(u), s[k..]) == Some(n)
    requires forall j :: k < j <= 4 && j <= Run(u.digit.Keys, s) ==> Match(Part3H(u), s[j..]).None?
    ensures Match(Part2(u), s) == Some(k + n)
  {
    hide Match;
    hide Run;
    Rests(u);
    MatchBack(Part2(u), s, k, n);
  }

  lemma Match3(u: Unicode, h: string, c: string)
    requires '-' !in u.digit && Hyphen(h) && Numeral(u, c, 3, 4)
    ensures Match(Part3H(u), h + c) == Some(|h| + |c|)
  {
    hide Match;
    NothingTaken("");
    assert c + "" == c;
    assert Part3(u) == [Item(u.digit.Keys, 3, Some(4))] + [];
    TakesDigits(u, 3, 4, [], c, "", 0);
    TakesHyphen(Part3(u), h, c, |c|);
  }

  /** The last two parts: four to eight digits, or two groups. */
  predicate Last2(u: Unicode, t: string) {
    || Numeral(u, t, 4, 8)
    || exists k :: 1 <= k <= 4 && Grouped(u, t, k)
  }

  /** A hyphen behind the first `k` digits, and three or four digits behind it. */
  predicate Grouped(u: Unicode, t: string, k: nat) {
    k < |t| && Numeral(u, t[..k], k, k) && t[k] == '-' && Numeral(u, t[k + 1..], 3, 4)
  }

  lemma Match2Digits(u: Unicode, t: string)
    requires '-' !in u.digit && Numeral(u, t, 4, 8)
    ensures Match(Part2(u), t) == Some(|t|)
  {
    hide Match;
    hide Part1;
    hide Part2H;
    hide Part2;
    hide Part3H;
    PartLengths(u);
    var k := if |t| >= 7 then 4 else |t| - 3;
    assert t[k..] == "" + t[k..];
    Match3(u, "", t[k..]);
    AllInRun(u.digit.Keys, t, |t|);
    forall j | k < j <= 4 && j <= Run(u.digit.Keys, t) ensures Match(Part3H(u), t[j..]).None? {
      TooShort(Part3H(u), t[j..]);
    }
    Gives2(u, t, k, |t| - k);
  }

  lemma Match2Grouped(u: Unicode, t: string, k: nat)
    requires '-' !in u.digit && 1 <= k <= 4 && Grouped(u, t, k)
    ensures Match(Part2(u), t) == Some(|t|)
  {
    hide Match;
    hide Part1;
    hide Part2H;
    hide Part2;
    hide Part3H;
    assert t[k..] == "-" + t[k + 1..];
    Match3(u, "-", t[k + 1..]);
    Split(t, k);
    Takes2(u, t[..k], t[k..], |t| - k);
  }

  lemma Match2(u: Unicode, h: string, t: string)
    requires '-' !in u.digit && Hyphen(h) && Last2(u, t)
    ensures Match(Part2H(u), h + t) == Some(|h| + |t|)
  {
    hide Match;
    hide Part1;
    hide Part2H;
    hide Part2;
    hide Part3H;
    if Numeral(u, t, 4, 8) {
      Match2Digits(u, t);
    } else {
      var k :| 1 <= k <= 4 && Grouped(u, t, k);
      assert t[0] == t[..k][0];
      Match2Grouped(u, t, k);
    }
    Takes2H(u, h, t, |t|);
  }

  lemma DigitFirst(u: Unicode, q: string)
    requires Full(Part2(u), q)
    ensures q != "" && q[0] in u.digit
  {
    hide Full;
    var b, r := FirstItem(Part2(u), q);
    assert q[0] == b[0];
  }

  lemma HyphenNeedsFive(u: Unicode, w: string)
    requires '-' !in u.digit && Full(Part2H(u), w) && w != "" && w[0] == '-'
    ensures |w| >= 5
  {
    hide Full;
    Rests(u);
    PartLengths(u);
    var p, q := FirstItem(Part2H(u), w);
    FullLength(Part2(u), q);
    DigitFirst(u, q);
    assert p == "" ==> w == q;
  }

  /** A hyphen and three digits are not enough for the last two parts. */
  lemma NoMatch2(u: Unicode, t: string)
    requires '-' !in u.digit && |t| == 4 && t[0] == '-'
    ensures Match(Part2H(u), t).None?
  {
    hide Match;
    hide Full;
    PartLengths(u);
    hide Part2H;
    if Match(Part2H(u), t).Some? {
      MatchSound(Part2H(u), t);
      FullLength(Part2H(u), t[..Match(Part2H(u), t).value]);
      HyphenNeedsFive(u, t[..Match(Part2H(u), t).value]);
    }
  }

  /** All digits behind the 0. */
  lemma Match1Digits(u: Unicode, t: string)
    requires '-' !in u.digit && Numeral(u, t, 5, 12)
    ensures Match(Part1(u), t) == Some(|t|)
  {
    hide Match;
    hide Part1;
    hide Part2H;
    hide Part2;
    hide Part3H;
    PartLengths(u);
    var k := if |t| >= 8 then 4 else |t| - 4;
    assert t[k..] == "" + t[k..];
    Match2(u, "", t[k..]);
    AllInRun(u.digit.Keys, t, |t|);
    forall j | k < j <= 4 && j <= Run(u.digit.Keys, t) ensures Match(Part2H(u), t[j..]).None? {
      TooShort(Part2H(u), t[j..]);
    }
    Gives1(u, t, k, |t| - k);
  }

  function Dashed(s: string): (r: string)
    ensures r != "" && r[0] == '-' && |r| == 1 + |s|
  {
    "-" + s
  }

  lemma Match2Dashed(u: Unicode, t: string)
    requires '-' !in u.digit && Last2(u, t)
    ensures Match(Part2H(u), Dashed(t)) == Some(1 + |t|)
  {
    hide Match;
    hide Part2H;
    hide Last2;
    Match2(u, "-", t);
  }

  /** Digits, a hyphen, and the last two parts. */
  lemma Match1Hyphen(u: Unicode, a: string, t: string)
    requires '-' !in u.digit && Numeral(u, a, 1, 4) && Last2(u, t)
    ensures Match(Part1(u), a + Dashed(t)) == Some(|a| + (1 + |t|))
  {
    hide *;
    Match2Dashed(u, t);
    Takes1(u, a, Dashed(t), 1 + |t|);
  }

  /** More than four digits in front of the only hyphen. */
  lemma Match1Late(u: Unicode, a: string, b: string, c: string)
    requires '-' !in u.digit && Numeral(u, a, 4, 4) && Numeral(u, b, 1, 4) && Numeral(u, c, 3, 4)
    ensures Match(Part1(u), a + (b + Dashed(c))) == Some(|a| + |b + Dashed(c)|)
  {
    hide Match;
    hide Part1;
    hide Part2H;
    hide Last2;
    GroupedConcat(u, b, c);
    var t := b + Dashed(c);
    Match2Plain(u, t);
    Takes1(u, a, t, |t|);
  }

  lemma SlicesAt(y: string, d: string, b: string)
    ensures (y + (d + b))[|y|..] == d + b && (y + (d + b))[|y| + |d|..] == b
  {
  }

  /** When one more digit leaves nothing, it is given back. */
  lemma GivesBack(u: Unicode, s: string, k: nat, n: nat)
    requires 1 <= k <= 3 && Run(u.digit.Keys, s) == k + 1
    requires Match(Part2H(u), s[k..]) == Some(n) && Match(Part2H(u), s[k + 1..]).None?
    ensures Match(Part1(u), s) == Some(k + n)
  {
    hide Match;
    hide Part1;
    hide Part2H;
    hide Run;
    Gives1(u, s, k, n);
  }

  lemma RunOfNumeral(u: Unicode, y: string, d: string, b: string)
    requires Numeral(u, y, 1, 3) && Numeral(u, d, 1, 1) && b != "" && b[0] !in u.digit
    ensures Run(u.digit.Keys, y + (d + b)) == |y| + 1
  {
    Assoc(y, d, b, "");
    RunOver(u.digit.Keys, y + d, b);
  }

  /** Three digits behind the only hyphen: the last digit in front of it is given back. */
  lemma Match1Back(u: Unicode, y: string, d: string, c: string)
    requires '-' !in u.digit && Numeral(u, y, 1, 3) && Numeral(u, d, 1, 1) && Numeral(u, c, 3, 3)
    ensures Match(Part1(u), y + (d + Dashed(c))) == Some(|y| + |d + Dashed(c)|)
  {
    hide *;
    var b := Dashed(c);
    NumeralLengths(u, y, 1, 3);
    NumeralLengths(u, d, 1, 1);
    NumeralLengths(u, c, 3, 3);
    NumeralBounds(u, d, 1, 4);
    NumeralBounds(u, c, 3, 4);
    SlicesAt(y, d, b);
    GroupedConcat(u, d, c);
    Match2Plain(u, d + b);
    RunOfNumeral(u, y, d, b);
    NoMatch2(u, b);
    GivesBack(u, y + (d + b), |y|, |d + b|);
  }

  lemma Match2Plain(u: Unicode, t: string)
    requires '-' !in u.digit && Last2(u, t)
    ensures Match(Part2H(u), t) == Some(|t|)
  {
    hide Match;
    hide Part2H;
    hide Last2;
    assert "" + t == t;
    Match2(u, "", t);
  }

  lemma NumeralConcat(u: Unicode, a: string, b: string, lo: nat, hi: nat)
    requires Numeral(u, a, |a|, |a|) && Numeral(u, b, |b|, |b|) && lo <= |a| + |b| <= hi
    ensures Numeral(u, a + b, lo, hi)
  {
  }

  lemma GroupedConcat(u: Unicode, b: string, c: string)
    requires Numeral(u, b, 1, 4) && Numeral(u, c, 3, 4)
    ensures Last2(u, b + Dashed(c))
  {
    var t := b + Dashed(c);
    assert t[..|b|] == b && t[|b| + 1..] == c;
    assert Grouped(u, t, |b|);
  }

  /** Of a text that is a phone number the pattern takes all, whatever can be read in it in two ways. */
  lemma WholePhone(u: Unicode, t: string)
    requires u.Valid() && IsPhone(u, t)
    ensures Match(Phone(u), t) == Some(|t|)
  {
    hide Match;
    hide Phone;
    hide Part1;
    hide Numeral;
    DigitsOrHyphen(u);
    var a, h, b, g, c :| PhoneParts(u, t, a, h, b, g, c);
    Nested("0", a, h, b, g, c);
    BehindZero(u, a, h, b, g, c);
    ZeroFirst(u, a + (h + (b + (g + c))));
  }

  lemma BehindZero(u: Unicode, a: string, h: string, b: string, g: string, c: string)
    requires '-' !in u.digit && Numeral(u, a, 1, 4) && Numeral(u, b, 1, 4) && Numeral(u, c, 3, 4)
    requires Hyphen(h) && Hyphen(g)
    ensures var s := a + (h + (b + (g + c))); Match(Part1(u), s) == Some(|s|)
  {
    hide Match;
    hide Part1;
    hide Last2;
    hide Numeral;
    var s := a + (h + (b + (g + c)));
    NumeralLengths(u, a, 1, 4);
    NumeralLengths(u, b, 1, 4);
    NumeralLengths(u, c, 3, 4);
    if h == "" && g == "" {
      NumeralConcat(u, b, c, |b| + |c|, |b| + |c|);
      NumeralConcat(u, a, b + c, 5, 12);
      assert s == a + (b + c);
      Match1Digits(u, s);
    } else if h == "-" && g == "" {
      NumeralConcat(u, b, c, 4, 8);
      assert s == a + Dashed(b + c);
      Last2Digits(u, b + c);
      Match1Hyphen(u, a, b + c);
    } else if h == "-" {
      GroupedConcat(u, b, c);
      Match1Hyphen(u, a, b + Dashed(c));
    } else {
      Assoc(a, b, Dashed(c), "");
      assert s == (a + b) + Dashed(c);
      OneLateHyphen(u, a, b, c);
    }
  }

  lemma NumeralLengths(u: Unicode, s: string, lo: nat, hi: nat)
    requires Numeral(u, s, lo, hi)
    ensures lo <= |s| <= hi && Numeral(u, s, |s|, |s|)
  {
  }

  lemma Last2Digits(u: Unicode, t: string)
    requires Numeral(u, t, 4, 8)
    ensures Last2(u, t)
  {
  }

  lemma CutAt(u: Unicode, x: string, k: nat, b: string) returns (y: string, z: string)
    requires Numeral(u, x, |x|, |x|) && k <= |x|
    ensures |y| == k && |z| == |x| - k && Numeral(u, y, k, k) && Numeral(u, z, |x| - k, |x| - k)
    ensures x + b == y + (z + b) && |x| + |b| == |y| + |z + b|
  {
    y, z := x[..k], x[k..];
    Split(x, k);
    Assoc(y, z, b, "");
  }

  lemma LateSplit(u: Unicode, x: string, c: string)
    requires '-' !in u.digit && Numeral(u, x, 5, 8) && Numeral(u, c, 3, 4)
    ensures Match(Part1(u), x + Dashed(c)) == Some(|x| + |Dashed(c)|)
  {
    hide *;
    NumeralLengths(u, x, 5, 8);
    var y, z := CutAt(u, x, 4, Dashed(c));
    NumeralBounds(u, z, 1, 4);
    Match1Late(u, y, z, c);
  }

  lemma BackSplit(u: Unicode, x: string, c: string)
    requires '-' !in u.digit && Numeral(u, x, 2, 4) && Numeral(u, c, 3, 3)
    ensures Match(Part1(u), x + Dashed(c)) == Some(|x| + |Dashed(c)|)
  {
    hide *;
    NumeralLengths(u, x, 2, 4);
    var y, z := CutAt(u, x, |x| - 1, Dashed(c));
    NumeralBounds(u, y, 1, 3);
    NumeralBounds(u, z, 1, 1);
    Match1Back(u, y, z, c);
  }

  lemma OneLateHyphen(u: Unicode, a: string, b: string, c: string)
    requires '-' !in u.digit && Numeral(u, a, 1, 4) && Numeral(u, b, 1, 4) && Numeral(u, c, 3, 4)
    ensures Match(Part1(u), (a + b) + Dashed(c)) == Some(|a| + |b| + (1 + |c|))
  {
    hide *;
    var x := a + b;
    NumeralLengths(u, a, 1, 4);
    NumeralLengths(u, b, 1, 4);
    NumeralLengths(u, c, 3, 4);
    NumeralConcat(u, a, b, |x|, |x|);
    if |x| > 4 {
      NumeralBounds(u, x, 5, 8);
      LateSplit(u, x, c);
    } else if |c| == 4 {
      NumeralBounds(u, c, 4, 8);
      NumeralBounds(u, x, 1, 4);
      Last2Digits(u, c);
      Match1Hyphen(u, x, c);
    } else {
      NumeralBounds(u, x, 2, 4);
      NumeralBounds(u, c, 3, 3);
      BackSplit(u, x, c);
    }
  }

  lemma NumeralBounds(u: Unicode, s: string, lo: nat, hi: nat)
    requires Numeral(u, s, |s|, |s|) && lo <= |s| <= hi
    ensures Numeral(u, s, lo, hi)
  {
  }

  lemma ZeroFirst(u: Unicode, s: string)
    requires Match(Part1(u), s) == Some(|s|)
    ensures Match(Phone(u), "0" + s) == Some(1 + |s|)
  {
    hide Match;
    hide Part1;
    hide Part2H;
    hide Part2;
    hide Part3H;
    Rests(u);
    TakesOne('0', Part1(u), s, |s|);
  }

  // ---------- what is masked ----------

  lemma {:induction false} ScanCutsMatches(re: Pattern, tags: Tags, s: string, n: nat)
    requires Productive(re)
    ensures forall h :: h in Holes(Scan(re, tags, s, n)) ==> Full(re, h.original)
    decreases |s|
  {
    hide Full;
    hide Match;
    hide Scan;
    if s == "" {
      ScanEmpty(re, tags, n);
    } else {
      match Match(re, s)
      case Some(k) =>
        ScanHit(re, tags, s, n, k);
        MatchSound(re, s);
        ScanCutsMatches(re, tags, s[k..], n + 1);
      case None =>
        ScanMiss(re, tags, s, n);
        ScanCutsMatches(re, tags, s[1..], n);
        PlainViews([s[0]], Scan(re, tags, s[1..], n));
    }
  }

  /** Behind an e-mail placeholder there is an address, and behind a phone placeholder a number. */
  lemma OnlyMatchesMasked(u: Unicode, tokens: seq<Morpheme>)
    ensures forall h :: h in Holes(Emails(u, tokens)) ==> IsEmail(u, h.original)
    ensures forall h :: h in Holes(Phones(u, tokens)) ==> IsPhone(u, h.original)
  {
    hide *;
    ScanCutsMatches(Email(u), TagsOf(EMAIL), Render(Persons(tokens, 0)), 0);
    ScanCutsMatches(Phone(u), TagsOf(PHONE), Render(Emails(u, tokens)), 0);
    PassesAre(u, tokens);
    forall h | h in Holes(Emails(u, tokens)) ensures IsEmail(u, h.original) { FullEmail(u, h.original); }
    forall h | h in Holes(Phones(u, tokens)) ensures IsPhone(u, h.original) { FullPhone(u, h.original); }
  }

  lemma PassesAre(u: Unicode, tokens: seq<Morpheme>)
    ensures Emails(u, tokens) == Scan(Email(u), TagsOf(EMAIL), Render(Persons(tokens, 0)), 0)
    ensures Phones(u, tokens) == Scan(Phone(u), TagsOf(PHONE), Render(Emails(u, tokens)), 0)
    ensures MaskedText(u, tokens) == Render(Phones(u, tokens))
  {
    hide Scan;
    hide Render;
  }

  // ---------- a text that is one address, or one number ----------

  lemma {:induction false} NoPersons(tokens: seq<Morpheme>, n: nat)
    requires forall t :: t in tokens ==> !IsPerson(t)
    ensures Persons(tokens, n) == End(SourceText(tokens))
    decreases |tokens|
  {
    hide IsPerson;
    if tokens != [] {
      NoPersons(tokens[1..], n);
    }
  }

  lemma FirstPlaceholders()
    ensures Token(TagsOf(PERSON)(1)) == "[PERSON_1]" && Token(TagsOf(PERSON)(12)) == "[PERSON_12]"
    ensures Token(TagsOf(EMAIL)(1)) == "[EMAIL_1]" && Token(TagsOf(PHONE)(1)) == "[PHONE_1]"
  {
    assert Dec(1) == "1" && Dec(12) == Dec(1) + "2";
  }

  /** One match that is the whole text. */
  lemma ScanWhole(re: Pattern, tags: Tags, s: string)
    requires Productive(re) && s != "" && Match(re, s) == Some(|s|)
    ensures Render(Scan(re, tags, s, 0)) == Token(tags(1))
    ensures Holes(Scan(re, tags, s, 0)) == [Hole(tags(1), s)]
  {
    hide Match;
    hide Scan;
    ScanHit(re, tags, s, 0, |s|);
    ScanEmpty(re, tags, 1);
    assert s[..|s|] == s && s[|s|..] == "";
    hide Render;
    RenderOne(Hole(tags(1), s));
  }

  lemma RenderOne(h: Hole)
    ensures Render(Cut("", h, End(""))) == Token(h.tag) && Holes(Cut("", h, End(""))) == [h]
  {
    assert "" + Token(h.tag) + "" == Token(h.tag);
  }

  lemma PhoneHasNoEmail(u: Unicode, t: string)
    requires u.Valid() && IsPhone(u, t)
    ensures NoMatch(Email(u), t)
  {
    assert '@' !in u.digit;
    var a, h, b, g, c :| PhoneParts(u, t, a, h, b, g, c);
    assert '@' !in t;
    forall i, j | 0 <= i <= j <= |t| ensures !Full(Email(u), t[i..j]) {
      if Full(Email(u), t[i..j]) {
        EmailNeedsAt(u, t[i..j]);
      }
    }
  }

  /** A text that is a phone number becomes the first phone placeholder, however it is split into tokens. */
  lemma WholePhoneMasked(u: Unicode, tokens: seq<Morpheme>)
    requires u.Valid() && (forall t :: t in tokens ==> !IsPerson(t)) && IsPhone(u, SourceText(tokens))
    ensures MaskedText(u, tokens) == "[PHONE_1]" && Mapping(u, tokens) == map["[PHONE_1]" := SourceText(tokens)]
  {
    hide Scan;
    hide Match;
    hide NoMatch;
    hide Phone;
    hide Email;
    hide IsPerson;
    hide Token;
    hide TagsOf;
    hide SourceText;
    var s := SourceText(tokens);
    NoPersons(tokens, 0);
    PhoneHasNoEmail(u, s);
    ScanInert(Email(u), TagsOf(EMAIL), s, 0);
    WholePhone(u, s);
    PhoneLong(u, s);
    hide IsPhone;
    ScanWhole(Phone(u), TagsOf(PHONE), s);
    FirstPlaceholders();
    PassesAre(u, tokens);
    RecordOne(Hole(TagsOf(PHONE)(1), s));
  }

  lemma PhoneLong(u: Unicode, t: string)
    requires IsPhone(u, t)
    ensures t != ""
  {
  }

  lemma RecordOne(h: Hole)
    ensures Record(Record(Record(map[], []), []), [h]) == map[Token(h.tag) := h.original]
    ensures Record(Record(Record(map[], []), [h]), []) == map[Token(h.tag) := h.original]
  {
    assert [h][1..] == [];
  }

  /**
    A text that is an e-mail address becomes the first e-mail placeholder, whatever digits it has: the
    phone pass comes later.
   */
  lemma WholeEmailMasked(u: Unicode, tokens: seq<Morpheme>)
    requires u.Valid() && (forall t :: t in tokens ==> !IsPerson(t)) && IsEmail(u, SourceText(tokens))
    ensures MaskedText(u, tokens) == "[EMAIL_1]" && Mapping(u, tokens) == map["[EMAIL_1]" := SourceText(tokens)]
  {
    hide Scan;
    hide Match;
    hide NoMatch;
    hide Phone;
    hide Email;
    hide IsPerson;
    hide Token;
    hide TagsOf;
    hide SourceText;
    var s := SourceText(tokens);
    NoPersons(tokens, 0);
    assert s[..|s|] == s;
    EmailIsLongest(u, s, |s|);
    EmailLong(u, s);
    hide IsEmail;
    ScanWhole(Email(u), TagsOf(EMAIL), s);
    FirstPlaceholders();
    PlaceholderInert(u);
    ScanInert(Phone(u), TagsOf(PHONE), "[EMAIL_1]", 0);
    PassesAre(u, tokens);
    RecordOne(Hole(TagsOf(EMAIL)(1), s));
  }

  lemma EmailLong(u: Unicode, t: string)
    requires IsEmail(u, t)
    ensures t != ""
  {
  }

  lemma PlaceholderInert(u: Unicode)
    requires u.Valid()
    ensures NoMatch(Phone(u), "[EMAIL_1]")
  {
    hide Phone;
    hide Full;
    var t := "[EMAIL_1]";
    assert '0' !in t;
    forall i, j | 0 <= i <= j <= |t| ensures !Full(Phone(u), t[i..j]) {
      if Full(Phone(u), t[i..j]) {
        PhoneShape(u, t[i..j]);
        ZeroIn(t, i, j);
      }
    }
  }

  lemma ZeroIn(t: string, i: nat, j: nat)
    requires i <= j <= |t| && t[i..j] != "" && t[i..j][0] == '0'
    ensures '0' in t
  {
    assert t[i] == '0';
  }

  // ---------- person tokens ----------

  /** Some part of speech, then proper noun, then person, then anything. */
  ghost predicate NamesPerson(t: Morpheme) {
    exists first, more :: t.partOfSpeech == [first, "固有名詞", "人名"] + more
  }

  ghost function PersonsIn(tokens: seq<Morpheme>): nat {
    if tokens == [] then 0 else PersonsIn(tokens[..|tokens| - 1]) + if NamesPerson(tokens[|tokens| - 1]) then 1 else 0
  }

  lemma PersonTokens(t: Morpheme)
    ensures IsPerson(t) <==> NamesPerson(t)
  {
    var pos := t.partOfSpeech;
    if IsPerson(t) {
      assert pos == [pos[0], "固有名詞", "人名"] + pos[3..];
    }
  }

  lemma {:induction false} PersonsFront(t: Morpheme, tokens: seq<Morpheme>)
    ensures PersonsIn([t] + tokens) == (if NamesPerson(t) then 1 else 0) + PersonsIn(tokens)
  {
    hide NamesPerson;
    var all := [t] + tokens;
    if tokens == [] {
      assert all[..0] == [];
    } else {
      PersonsFront(t, tokens[..|tokens| - 1]);
      assert all[..|all| - 1] == [t] + tokens[..|tokens| - 1];
    }
  }

  /** What becomes of a token: the `k`-th person is `[PERSON_k]`, counting on from `n`. */
  ghost function PieceOf(tokens: seq<Morpheme>, i: nat, n: nat): string
    requires i < |tokens|
  {
    if NamesPerson(tokens[i]) then "[PERSON_" + Dec(n + PersonsIn(tokens[..i + 1])) + "]" else tokens[i].surface
  }

  ghost predicate Replaced(tokens: seq<Morpheme>, pieces: seq<string>, n: nat) {
    |pieces| == |tokens| && forall i :: 0 <= i < |tokens| ==> pieces[i] == PieceOf(tokens, i, n)
  }

  lemma PieceShift(t: Morpheme, rest: seq<Morpheme>, i: nat, n: nat)
    requires i < |rest|
    ensures PieceOf([t] + rest, i + 1, n) == PieceOf(rest, i, n + if NamesPerson(t) then 1 else 0)
  {
    hide NamesPerson;
    hide Dec;
    hide PersonsIn;
    assert ([t] + rest)[..i + 2] == [t] + rest[..i + 1];
    PersonsFront(t, rest[..i + 1]);
  }

  lemma FirstPiece(t: Morpheme, rest: seq<Morpheme>, n: nat)
    ensures PieceOf([t] + rest, 0, n) == if NamesPerson(t) then "[PERSON_" + Dec(n + 1) + "]" else t.surface
  {
    hide NamesPerson;
    hide Dec;
    assert ([t] + rest)[..1] == [t] + [];
    PersonsFront(t, []);
  }

  /** The first pass replaces exactly the person tokens, numbered in order, and copies the others. */
  lemma {:induction false} PersonsMasked(tokens: seq<Morpheme>, pieces: seq<string>, n: nat)
    requires Replaced(tokens, pieces, n)
    ensures Render(Persons(tokens, n)) == Concat(pieces)
    decreases |tokens|
  {
    hide NamesPerson;
    hide IsPerson;
    hide Dec;
    hide PieceOf;
    hide Render;
    hide Persons;
    if tokens == [] {
      NobodyMasked(n);
    } else {
      var t, rest := tokens[0], tokens[1..];
      var m := n + if NamesPerson(t) then 1 else 0;
      assert tokens == [t] + rest;
      forall i | 0 <= i < |rest| ensures pieces[1..][i] == PieceOf(rest, i, m) {
        PieceShift(t, rest, i, n);
      }
      PersonsMasked(rest, pieces[1..], m);
      FirstPiece(t, rest, n);
      PersonTokens(t);
      PersonPiece(t, rest, n);
    }
  }

  lemma NobodyMasked(n: nat)
    ensures Render(Persons([], n)) == ""
  {
  }

  lemma PersonPiece(t: Morpheme, rest: seq<Morpheme>, n: nat)
    ensures IsPerson(t) ==>
              Render(Persons([t] + rest, n)) == "[PERSON_" + Dec(n + 1) + "]" + Render(Persons(rest, n + 1))
    ensures !IsPerson(t) ==> Render(Persons([t] + rest, n)) == t.surface + Render(Persons(rest, n))
  {
    hide IsPerson;
    hide Dec;
    hide Render;
    assert ([t] + rest)[1..] == rest;
    if IsPerson(t) {
      PersonHole(n + 1, Persons(rest, n + 1), t.surface);
    } else {
      PlainViews(t.surface, Persons(rest, n));
    }
  }

  lemma PersonHole(k: nat, d: Doc, surface: string)
    ensures Render(Cut("", Hole(TagsOf(PERSON)(k), surface), d)) == "[PERSON_" + Dec(k) + "]" + Render(d)
  {
    assert "[" + ("PERSON" + ['_'] + Dec(k)) + "]" == "[PERSON_" + Dec(k) + "]";
  }
}
