/**
  What the language model gets to see when it classifies a report: the text masked, then normalised
  (app/services/ingest.py). What it sees when it answers a search is the subject of `Prompts`.
 */
module Privacy {
  import opened Seqs
  import opened Text
  import opened Regex
  import opened Replacing
  import opened Normalizer
  import Masking
  import MaskingLaws

  // ---------- replacing neither makes nor hides a match ----------

  /** Putting `c` where `v` was neither makes nor hides a match. */
  ghost predicate Neutral(re: Pattern, v: string, c: string) {
    forall x, y :: NoMatch(re, x + v + y) <==> NoMatch(re, x + c + y)
  }

  lemma NeutralAt(re: Pattern, v: string, c: string, x: string, y: string)
    requires Neutral(re, v, c)
    ensures NoMatch(re, x + v + y) <==> NoMatch(re, x + c + y)
  {
    hide NoMatch;
  }

  lemma ReplaceHit(s: string, v: string, c: string)
    requires v != "" && v <= s
    ensures s == v + s[|v|..] && Replace(s, v, c) == c + Replace(s[|v|..], v, c)
  {
  }

  lemma ReplaceMiss(s: string, v: string, c: string)
    requires v != "" && s != "" && !(v <= s)
    ensures s == [s[0]] + s[1..] && Replace(s, v, c) == [s[0]] + Replace(s[1..], v, c)
  {
  }

  lemma {:induction false} ReplaceKeeps(re: Pattern, x: string, s: string, v: string, c: string)
    requires v != "" && Neutral(re, v, c)
    ensures NoMatch(re, x + Replace(s, v, c)) <==> NoMatch(re, x + s)
    decreases |s|
  {
    if s != "" {
      hide NoMatch;
      hide Neutral;
      hide Replace;
      if v <= s {
        var rest := s[|v|..];
        ReplaceHit(s, v, c);
        Assoc(x, v, rest, "");
        NeutralAt(re, v, c, x, rest);
        ReplaceKeeps(re, x + c, rest, v, c);
        Assoc(x, c, Replace(rest, v, c), "");
      } else {
        var rest := s[1..];
        ReplaceMiss(s, v, c);
        Assoc(x, [s[0]], rest, "");
        ReplaceKeeps(re, x + [s[0]], rest, v, c);
        Assoc(x, [s[0]], Replace(rest, v, c), "");
      }
    }
  }

  ghost predicate AllNeutral(re: Pattern, ps: seq<Correction>) {
    forall p :: p in ps && p.variant != "" ==> Neutral(re, p.variant, p.canonical)
  }

  lemma {:induction false} PassesKeep(re: Pattern, ordered: seq<Correction>, text: string, k: nat)
    requires k <= |ordered| && AllNeutral(re, ordered)
    ensures NoMatch(re, Passes(ordered, text, k)) <==> NoMatch(re, text)
    decreases |ordered| - k
  {
    hide NoMatch;
    hide Neutral;
    if k < |ordered| {
      var p := ordered[k];
      if p.variant != "" {
        assert "" + text == text;
        ReplaceKeeps(re, "", text, p.variant, p.canonical);
        assert "" + Replace(text, p.variant, p.canonical) == Replace(text, p.variant, p.canonical);
      }
      PassesKeep(re, ordered, Pass(text, p), k + 1);
    }
  }

  lemma NormalizedKeeps(re: Pattern, ps: seq<Correction>, text: string)
    requires AllNeutral(re, ps)
    ensures NoMatch(re, Normalized(ps, text)) <==> NoMatch(re, text)
  {
    hide NoMatch;
    hide Neutral;
    SortedMembers(ps);
    PassesKeep(re, ByLength(ps), text, 0);
  }

  // ---------- phone numbers ----------

  lemma {:induction false} BarriersKeep(re: Pattern, x: string, c: string, y: string)
    requires NoMatch(re, x) && NoMatch(re, y) && c != ""
    requires forall i :: 0 <= i < |c| ==> Avoids(re, c[i])
    ensures NoMatch(re, x + c + y)
    decreases |c|
  {
    hide NoMatch;
    if |c| == 1 {
      assert c == [c[0]];
      NoMatchGlue(re, x, c[0], y);
    } else {
      var rest := c[1..];
      EmptyNoMatch(re, y);
      BarriersKeep(re, "", rest, y);
      assert "" + rest + y == rest + y;
      NoMatchGlue(re, x, c[0], rest + y);
      assert x + c + y == x + [c[0]] + (rest + y) by { assert c == [c[0]] + rest; }
    }
  }

  lemma EmptyNoMatch(re: Pattern, y: string)
    requires NoMatch(re, y)
    ensures NoMatch(re, "")
  {
    assert y[0..0] == "";
    NoMatchSub(re, y, 0, 0);
  }

  predicate AllBarriers(re: Pattern, c: string) {
    c != "" && forall i :: 0 <= i < |c| ==> Avoids(re, c[i])
  }

  lemma BarrierSwap(re: Pattern, v: string, c: string, x: string, y: string)
    requires AllBarriers(re, c) && NoMatch(re, x + v + y)
    ensures NoMatch(re, x + c + y)
  {
    hide NoMatch;
    var s := x + v + y;
    NoMatchSub(re, s, 0, |x|);
    NoMatchSub(re, s, |x + v|, |s|);
    assert s[0..|x|] == x && s[|x + v|..|s|] == y;
    BarriersKeep(re, x, c, y);
  }

  lemma BarriersAreNeutral(re: Pattern, v: string, c: string)
    requires AllBarriers(re, v) && AllBarriers(re, c)
    ensures Neutral(re, v, c)
  {
    hide NoMatch;
    hide AllBarriers;
    forall x, y ensures NoMatch(re, x + v + y) <==> NoMatch(re, x + c + y) {
      if NoMatch(re, x + v + y) {
        BarrierSwap(re, v, c, x, y);
      }
      if NoMatch(re, x + c + y) {
        BarrierSwap(re, c, v, x, y);
      }
    }
  }

  // ---------- e-mail addresses ----------

  function Local(u: Unicode): set<char> { u.word + {'.', '+', '-'} }
  function Host(u: Unicode): set<char> { u.word + {'-'} }
  function Domain(u: Unicode): set<char> { u.word + {'.', '-'} }

  /** `@` at `p` and `.` at `q` make an address with their neighbours and what is between them. */
  predicate EmailAt(u: Unicode, s: string, p: int, q: int) {
    && 0 < p && p + 1 < q && q + 1 < |s|
    && s[p - 1] in Local(u) && s[p] == '@' && s[q] == '.' && s[q + 1] in Domain(u)
    && forall i :: p < i < q ==> s[i] in Host(u)
  }

  ghost predicate HasEmail(u: Unicode, s: string) {
    exists p, q :: EmailAt(u, s, p, q)
  }

  function AfterAt(u: Unicode): Pattern { [Plus(Host(u))] + ([Once({'.'})] + ([Plus(Domain(u))] + [])) }

  lemma EmailParts(u: Unicode)
    ensures Masking.Email(u) == [Plus(Local(u))] + ([Once({'@'})] + AfterAt(u))
  {
  }

  lemma AfterAtShape(u: Unicode, t: string)
    ensures Full(AfterAt(u), t) ==>
              exists k: nat :: Leads(Host(u), t, k) && k + 1 < |t| && t[k] == '.' && t[k + 1] in Domain(u)
  {
    hide Full;
    hide Host;
    hide Domain;
    var tail := [Once({'.'})] + ([Plus(Domain(u))] + []);
    FullPlus(Host(u), tail, t);
    if Full(AfterAt(u), t) {
      var k: nat :| Leads(Host(u), t, k) && Full(tail, t[k..]);
      FullOnce({'.'}, [Plus(Domain(u))] + [], t[k..]);
      FullPlus(Domain(u), [], t[k..][1..]);
      var d: nat :| Leads(Domain(u), t[k..][1..], d);
      assert t[k..][0] == t[k] && t[k..][1..][0] == t[k + 1];
    }
  }

  lemma FullHasEmail(u: Unicode, t: string)
    requires Full(Masking.Email(u), t)
    ensures HasEmail(u, t)
  {
    hide Full;
    hide Host;
    hide Domain;
    hide Local;
    hide AfterAt;
    hide Masking.Email;
    EmailParts(u);
    FullPlus(Local(u), [Once({'@'})] + AfterAt(u), t);
    var p: nat :| Leads(Local(u), t, p) && Full([Once({'@'})] + AfterAt(u), t[p..]);
    FullOnce({'@'}, AfterAt(u), t[p..]);
    var rest := t[p..][1..];
    AfterAtShape(u, rest);
    var k: nat :| Leads(Host(u), rest, k) && k + 1 < |rest| && rest[k] == '.' && rest[k + 1] in Domain(u);
    assert t[p..][0] == t[p];
    assert forall i :: 0 <= i < |rest| ==> rest[i] == t[p + 1 + i];
    assert forall i :: p < i < p + 1 + k ==> t[i] == rest[i - p - 1];
    assert EmailAt(u, t, p, p + 1 + k);
  }

  lemma EmailAtIsFull(u: Unicode, s: string, p: nat, q: nat)
    requires EmailAt(u, s, p, q)
    ensures Full(Masking.Email(u), s[p - 1..q + 2])
  {
    hide Full;
    hide Host;
    hide Domain;
    hide Local;
    hide Masking.Email;
    EmailParts(u);
    var t := s[p - 1..q + 2];
    var k := q - p - 1;
    var rest := t[1..][1..];
    assert forall i :: 0 <= i < |rest| ==> rest[i] == s[p + 1 + i];
    var dot := rest[k..];
    assert dot[0] == s[q] && dot[1..][0] == s[q + 1] && dot[1..][1..] == "";
    FullNothing("");
    assert Leads(Domain(u), dot[1..], 1);
    FullPlus(Domain(u), [], dot[1..]);
    FullOnce({'.'}, [Plus(Domain(u))] + [], dot);
    assert Leads(Host(u), rest, k);
    FullPlus(Host(u), [Once({'.'})] + ([Plus(Domain(u))] + []), rest);
    FullOnce({'@'}, AfterAt(u), t[1..]);
    assert Leads(Local(u), t, 1);
    FullPlus(Local(u), [Once({'@'})] + AfterAt(u), t);
  }

  /** The pattern matches somewhere exactly if there is an address. */
  lemma NoMatchIsNoEmail(u: Unicode, s: string)
    ensures NoMatch(Masking.Email(u), s) <==> !HasEmail(u, s)
  {
    hide Full;
    hide Masking.Email;
    if !NoMatch(Masking.Email(u), s) {
      var i, j :| 0 <= i <= j <= |s| && Full(Masking.Email(u), s[i..j]);
      FullHasEmail(u, s[i..j]);
      var p, q :| EmailAt(u, s[i..j], p, q);
      assert forall x :: 0 <= x < j - i ==> s[i..j][x] == s[i + x];
      assert forall x :: i + p < x < i + q ==> s[x] == s[i..j][x - i];
      assert EmailAt(u, s, i + p, i + q);
    }
    if HasEmail(u, s) {
      var p, q :| EmailAt(u, s, p, q);
      EmailAtIsFull(u, s, p, q);
    }
  }

  predicate IsWord(u: Unicode, w: string) {
    w != "" && forall i :: 0 <= i < |w| ==> w[i] in u.word
  }

  /** The character of `x + v + y` that corresponds to one of `x + c + y` outside `c`. */
  function Shift(x: string, v: string, c: string, i: int): int {
    if i < |x| then i else i - |c| + |v|
  }

  lemma SwapKeepsEmail(u: Unicode, x: string, v: string, c: string, y: string, p: int, q: int)
    requires u.Valid() && IsWord(u, v) && IsWord(u, c) && EmailAt(u, x + c + y, p, q)
    ensures EmailAt(u, x + v + y, Shift(x, v, c, p), Shift(x, v, c, q))
  {
    var s, t := x + c + y, x + v + y;
    assert '@' !in u.word && '.' !in u.word;
    assert forall i :: |x| <= i < |x| + |c| ==> s[i] == c[i - |x|];
    assert forall i :: |x| <= i < |x| + |v| ==> t[i] == v[i - |x|];
    assert forall i :: 0 <= i < |x| ==> s[i] == t[i];
    assert forall i :: |x| + |v| <= i < |t| ==> t[i] == s[i - |v| + |c|];
    var p1, q1 := Shift(x, v, c, p), Shift(x, v, c, q);
    assert s[p] !in u.word && s[q] !in u.word;
    forall i | p1 < i < q1 ensures t[i] in Host(u) {
      if |x| + |v| <= i {
        assert s[i - |v| + |c|] in Host(u);
      } else if i < |x| {
        assert s[i] in Host(u);
      }
    }
  }

  lemma WordsAreNeutral(u: Unicode, v: string, c: string)
    requires u.Valid() && IsWord(u, v) && IsWord(u, c)
    ensures Neutral(Masking.Email(u), v, c)
  {
    hide NoMatch;
    hide Masking.Email;
    hide EmailAt;
    forall x, y ensures NoMatch(Masking.Email(u), x + v + y) <==> NoMatch(Masking.Email(u), x + c + y) {
      NoMatchIsNoEmail(u, x + v + y);
      NoMatchIsNoEmail(u, x + c + y);
      if p, q :| EmailAt(u, x + c + y, p, q) {
        SwapKeepsEmail(u, x, v, c, y, p, q);
      }
      if p, q :| EmailAt(u, x + v + y, p, q) {
        SwapKeepsEmail(u, x, c, v, y, p, q);
      }
    }
  }

  // ---------- the main results ----------

  /** Letters, none of them a digit. */
  predicate IsLetters(u: Unicode, w: string) {
    IsWord(u, w) && forall i :: 0 <= i < |w| ==> w[i] !in u.digit
  }

  /** Every entry of the dictionary is made of letters. */
  predicate LetterTable(u: Unicode, ps: seq<Correction>) {
    forall p :: p in ps && p.variant != "" ==> IsLetters(u, p.variant) && IsLetters(u, p.canonical)
  }

  lemma LettersAvoidPhone(u: Unicode, c: string)
    requires u.Valid() && IsLetters(u, c)
    ensures AllBarriers(Masking.Phone(u), c)
  {
    assert '-' !in u.word && '0' in u.digit;
  }

  /** No text that is given to the model for classification contains an e-mail address. */
  lemma ClassifierSeesNoEmail(u: Unicode, ps: seq<Correction>, tokens: seq<Masking.Morpheme>)
    requires u.Valid() && LetterTable(u, ps)
    ensures NoMatch(Masking.Email(u), Normalized(ps, Masking.MaskedText(u, tokens)))
  {
    hide NoMatch;
    hide Masking.Email;
    hide Masking.MaskedText;
    hide Normalized;
    hide Neutral;
    forall p | p in ps && p.variant != "" ensures Neutral(Masking.Email(u), p.variant, p.canonical) {
      WordsAreNeutral(u, p.variant, p.canonical);
    }
    MaskingLaws.NoEmailLeft(u, tokens);
    NormalizedKeeps(Masking.Email(u), ps, Masking.MaskedText(u, tokens));
  }

  /** Nor a phone number, exactly if the masker counted fewer than a million of them. */
  lemma ClassifierSeesNoPhone(u: Unicode, ps: seq<Correction>, tokens: seq<Masking.Morpheme>)
    requires u.Valid() && LetterTable(u, ps)
    ensures NoMatch(Masking.Phone(u), Normalized(ps, Masking.MaskedText(u, tokens))) <==>
            Masking.Count(u, tokens, Masking.PHONE) < MaskingLaws.LIMIT
  {
    hide NoMatch;
    hide Masking.Phone;
    hide Masking.MaskedText;
    hide Masking.Count;
    hide Normalized;
    hide Neutral;
    forall p | p in ps && p.variant != "" ensures Neutral(Masking.Phone(u), p.variant, p.canonical) {
      LettersAvoidPhone(u, p.variant);
      LettersAvoidPhone(u, p.canonical);
      BarriersAreNeutral(Masking.Phone(u), p.variant, p.canonical);
    }
    MaskingLaws.NoPhoneLeft(u, tokens);
    NormalizedKeeps(Masking.Phone(u), ps, Masking.MaskedText(u, tokens));
  }
}
