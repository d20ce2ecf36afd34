/**
  What the masker's two patterns say, over plain strings: which texts are e-mail addresses and phone
  numbers, and what the masker does with a text that is one (app/infra/masking/pii.py).
 */
module Patterns {
  import opened Wrappers
  import opened Seqs
  import opened Text
  import opened Regex
  import opened Masking

  // ---------- phone numbers ----------

  predicate Numeral(u: Unicode, s: string, lo: nat, hi: nat) {
    lo <= |s| <= hi && forall i :: 0 <= i < |s| ==> s[i] in u.digit
  }

  predicate Hyphen(s: string) { s == "" || s == "-" }

  /** `t` is 0, one to four digits, one to four digits and three or four, perhaps with hyphens between. */
  predicate PhoneParts(u: Unicode, t: string, a: string, h: string, b: string, g: string, c: string) {
    && t == "0" + a + h + b + g + c
    && Numeral(u, a, 1, 4) && Hyphen(h) && Numeral(u, b, 1, 4) && Hyphen(g) && Numeral(u, c, 3, 4)
  }

  ghost predicate IsPhone(u: Unicode, t: string) {
    exists a, h, b, g, c :: PhoneParts(u, t, a, h, b, g, c)
  }

  /** The last parts of the pattern. */
  function Part3(u: Unicode): Pattern { [Item(u.digit.Keys, 3, Some(4))] }

  function Part3H(u: Unicode): Pattern { [Item({'-'}, 0, Some(1))] + Part3(u) }

  function Part2(u: Unicode): Pattern { [Item(u.digit.Keys, 1, Some(4))] + Part3H(u) }

  function Part2H(u: Unicode): Pattern { [Item({'-'}, 0, Some(1))] + Part2(u) }

  function Part1(u: Unicode): Pattern { [Item(u.digit.Keys, 1, Some(4))] + Part2H(u) }

  lemma Rests(u: Unicode)
    ensures Phone(u) == [Once({'0'})] + Part1(u) && Phone(u)[1..] == Part1(u)
    ensures Part1(u)[1..] == Part2H(u) && Part2H(u)[1..] == Part2(u)
    ensures Part2(u)[1..] == Part3H(u) && Part3H(u)[1..] == Part3(u) && Part3(u)[1..] == []
    ensures Part3(u) == [Item(u.digit.Keys, 3, Some(4))] + []
  {
  }

  lemma PhoneSplits(u: Unicode, t: string)
    requires Full(Phone(u), t)
    ensures IsPhone(u, t)
  {
    hide Full;
    Rests(u);
    var z, t1 := FirstItem(Phone(u), t);
    var a, t2 := FirstItem(Part1(u), t1);
    var h, t3 := FirstItem(Part2H(u), t2);
    var b, t4 := FirstItem(Part2(u), t3);
    var g, t5 := FirstItem(Part3H(u), t4);
    var c, t6 := FirstItem(Part3(u), t5);
    FullNothing(t6);
    assert z == "0" && HyphenIs(h) && HyphenIs(g);
    Nested(z, a, h, b, g, c);
    assert c == t5 by { assert t5 == c + t6 && t6 == ""; }
    assert PhoneParts(u, t, a, h, b, g, c);
  }

  /** A repeat of at most one hyphen. */
  predicate HyphenIs(h: string) {
    (|h| <= 1 && forall i :: 0 <= i < |h| ==> h[i] in {'-'}) ==> Hyphen(h)
  }

  lemma PhoneBuilds(u: Unicode, a: string, h: string, b: string, g: string, c: string)
    requires PhoneParts(u, "0" + a + h + b + g + c, a, h, b, g, c)
    ensures Full(Phone(u), "0" + a + h + b + g + c)
  {
    hide Full;
    Rests(u);
    FullNothing("");
    assert c + "" == c;
    PutItem(Part3(u), c, "");
    PutItem(Part3H(u), g, c);
    PutItem(Part2(u), b, g + c);
    PutItem(Part2H(u), h, b + (g + c));
    PutItem(Part1(u), a, h + (b + (g + c)));
    PutItem(Phone(u), "0", a + (h + (b + (g + c))));
    Nested("0", a, h, b, g, c);
  }

  lemma Nested(z: string, a: string, h: string, b: string, g: string, c: string)
    ensures z + a + h + b + g + c == z + (a + (h + (b + (g + c))))
  {
    Assoc(z + a + h, b, g, c);
    Assoc(z + a, h, b, g + c);
    Assoc(z, a, h, b + (g + c));
    Assoc(z + a, h, b + (g + c), "");
    Assoc(z, a, h + (b + (g + c)), "");
    Assoc(z + a + h, b, g + c, "");
    Assoc(z + a + h + b, g, c, "");
  }

  /** The phone pattern, without the pattern. */
  lemma FullPhone(u: Unicode, t: string)
    ensures Full(Phone(u), t) <==> IsPhone(u, t)
  {
    hide Full;
    hide Phone;
    if Full(Phone(u), t) {
      PhoneSplits(u, t);
    }
    if a, h, b, g, c :| PhoneParts(u, t, a, h, b, g, c) {
      PhoneBuilds(u, a, h, b, g, c);
    }
  }

  // ---------- e-mail addresses ----------

  predicate LocalChar(u: Unicode, c: char) { c in u.word || c == '.' || c == '+' || c == '-' }

  predicate HostChar(u: Unicode, c: char) { c in u.word || c == '-' }

  predicate TailChar(u: Unicode, c: char) { c in u.word || c == '.' || c == '-' }

  predicate LocalPart(u: Unicode, s: string) {
    s != "" && forall i :: 0 <= i < |s| ==> LocalChar(u, s[i])
  }

  predicate HostPart(u: Unicode, s: string) {
    s != "" && forall i :: 0 <= i < |s| ==> HostChar(u, s[i])
  }

  predicate TailPart(u: Unicode, s: string) {
    s != "" && forall i :: 0 <= i < |s| ==> TailChar(u, s[i])
  }

  /** `t` is a local part, `@`, a host name, `.`, and the rest of the domain. */
  predicate EmailParts(u: Unicode, t: string, local: string, host: string, tail: string) {
    t == local + "@" + host + "." + tail && LocalPart(u, local) && HostPart(u, host) && TailPart(u, tail)
  }

  ghost predicate IsEmail(u: Unicode, t: string) {
    exists local, host, tail :: EmailParts(u, t, local, host, tail)
  }

  /** The last parts of the pattern. */
  function Domain2(u: Unicode): Pattern { [Plus(u.word + {'.', '-'})] }

  function Dot(u: Unicode): Pattern { [Once({'.'})] + Domain2(u) }

  function Host(u: Unicode): Pattern { [Plus(u.word + {'-'})] + Dot(u) }

  function At(u: Unicode): Pattern { [Once({'@'})] + Host(u) }

  lemma EmailRests(u: Unicode)
    ensures Email(u) == [Plus(u.word + {'.', '+', '-'})] + At(u) && Email(u)[1..] == At(u)
    ensures At(u)[1..] == Host(u) && Host(u)[1..] == Dot(u) && Dot(u)[1..] == Domain2(u) && Domain2(u)[1..] == []
    ensures Domain2(u) == [Plus(u.word + {'.', '-'})] + []
  {
  }

  lemma EmailSplits(u: Unicode, t: string)
    requires Full(Email(u), t)
    ensures IsEmail(u, t)
  {
    hide Full;
    EmailRests(u);
    var local, t1 := FirstItem(Email(u), t);
    var at, t2 := FirstItem(At(u), t1);
    var host, t3 := FirstItem(Host(u), t2);
    var dot, t4 := FirstItem(Dot(u), t3);
    var tail, t5 := FirstItem(Domain2(u), t4);
    FullNothing(t5);
    assert at == "@" && dot == ".";
    assert t == local + "@" + host + "." + tail;
    assert EmailParts(u, t, local, host, tail);
  }

  lemma EmailBuilds(u: Unicode, local: string, host: string, tail: string)
    requires EmailParts(u, local + "@" + host + "." + tail, local, host, tail)
    ensures Full(Email(u), local + "@" + host + "." + tail)
  {
    hide Full;
    EmailRests(u);
    FullNothing("");
    assert tail + "" == tail;
    PutItem(Domain2(u), tail, "");
    PutItem(Dot(u), ".", tail);
    PutItem(Host(u), host, "." + tail);
    PutItem(At(u), "@", host + ("." + tail));
    PutItem(Email(u), local, "@" + (host + ("." + tail)));
    assert local + "@" + host + "." + tail == local + ("@" + (host + ("." + tail)));
  }

  /** The e-mail pattern, without the pattern. */
  lemma FullEmail(u: Unicode, t: string)
    ensures Full(Email(u), t) <==> IsEmail(u, t)
  {
    hide Full;
    hide Email;
    if Full(Email(u), t) {
      EmailSplits(u, t);
    }
    if local, host, tail :| EmailParts(u, t, local, host, tail) {
      EmailBuilds(u, local, host, tail);
    }
  }
}
