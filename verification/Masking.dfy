/**
  PII masking (app/infra/masking/pii.py): person tokens, then e-mail addresses, then phone
  numbers are replaced by numbered placeholders, and a map back to the originals is kept.
 */
module Masking {
  import opened Wrappers
  import opened Seqs
  import opened Text
  import opened Regex
  import opened Docs

  datatype Kind = PERSON | EMAIL | PHONE

  /** One token of the morphological analyser. */
  datatype Morpheme = Morpheme(surface: string, partOfSpeech: seq<string>)

  predicate IsPerson(t: Morpheme) {
    && |t.partOfSpeech| >= 3
    && t.partOfSpeech[1] == "固有名詞"
    && t.partOfSpeech[2] == "人名"
  }

  function Name(kind: Kind): string {
    match kind
    case PERSON => "PERSON"
    case EMAIL => "EMAIL"
    case PHONE => "PHONE"
  }

  function Inner(kind: Kind, n: nat): string { Name(kind) + ['_'] + Dec(n) }

  function TagsOf(kind: Kind): Tags { (n: nat) => Inner(kind, n) }

  /** `[\w.+-]+@[\w-]+\.[\w.-]+` */
  function Email(u: Unicode): (re: Pattern)
    ensures Productive(re)
  {
    [Plus(u.word + {'.', '+', '-'}), Once({'@'}), Plus(u.word + {'-'}), Once({'.'}), Plus(u.word + {'.', '-'})]
  }

  /** `0\d{1,4}-?\d{1,4}-?\d{3,4}` */
  function Phone(u: Unicode): (re: Pattern)
    ensures Productive(re)
  {
    var digits := u.digit.Keys;
    [Once({'0'}), Item(digits, 1, Some(4)), Item({'-'}, 0, Some(1)), Item(digits, 1, Some(4)),
     Item({'-'}, 0, Some(1)), Item(digits, 3, Some(4))]
  }

  /** Dictionary updates in the order the holes were made. */
  function Record(m: map<string, string>, hs: seq<Hole>): map<string, string>
    decreases |hs|
  {
    if hs == [] then m else Record(m[Token(hs[0].tag) := hs[0].original], hs[1..])
  }

  // ---------- the implementation ----------

  class PiiMasker {
    var mapping: map<string, string>
    var counters: map<Kind, nat>

    ghost predicate Valid()
      reads this
    {
      forall kind: Kind :: kind in counters
    }

    /** Only the counter of `kind` moved, and by `k`. */
    twostate predicate Counted(kind: Kind, k: nat)
      requires old(Valid()) && Valid()
      reads this
    {
      forall other: Kind :: counters[other] == old(counters[other]) + if other == kind then k else 0
    }

    ghost predicate Initial()
      reads this
    {
      Valid() && mapping == map[] && forall kind: Kind :: counters[kind] == 0
    }

    constructor ()
      ensures Initial()
    {
      mapping := map[];
      counters := map[PERSON := 0, EMAIL := 0, PHONE := 0];
      new;
      forall kind: Kind ensures kind in counters && counters[kind] == 0 {
        match kind { case PERSON => case EMAIL => case PHONE => }
      }
    }

    method Placeholder(kind: Kind, original: string) returns (token: string)
      requires Valid()
      modifies this
      ensures Valid() && Counted(kind, 1)
      ensures token == Token(Inner(kind, old(counters[kind]) + 1))
      ensures mapping == old(mapping)[token := original]
    {
      counters := counters[kind := counters[kind] + 1];
      token := Token(Inner(kind, counters[kind]));
      mapping := mapping[token := original];
    }

    /** `re.sub(lambda m: _placeholder(kind, m.group(0)), text)` */
    method Sub(re: Pattern, kind: Kind, text: string) returns (masked: string)
      requires Valid() && Productive(re)
      modifies this
      ensures Valid()
      ensures var d := Scan(re, TagsOf(kind), text, old(counters[kind]));
              && masked == Render(d)
              && mapping == Record(old(mapping), Holes(d))
              && Counted(kind, |Holes(d)|)
    {
      hide Resumes;
      hide Scan;
      hide Match;
      hide Render;
      hide Record;
      hide Inner;
      hide Token;
      hide Plain;
      masked := "";
      var rest := text;
      ghost var goal := Scan(re, TagsOf(kind), text, counters[kind]);
      ResumeStart(goal, mapping, counters[kind]);
      while rest != ""
        invariant Valid() && forall other: Kind :: other != kind ==> counters[other] == old(counters[other])
        invariant Resumes(Scan(re, TagsOf(kind), rest, counters[kind]), masked, mapping, counters[kind],
                          goal, old(mapping), old(counters[kind]))
        decreases |rest|
      {
        ghost var m, was, c := mapping, masked, counters[kind];
        match Match(re, rest) {
          case Some(k) =>
            ScanHit(re, TagsOf(kind), rest, c, k);
            var token := Placeholder(kind, rest[..k]);
            ResumeHole(Hole(Inner(kind, c + 1), rest[..k]), Scan(re, TagsOf(kind), rest[k..], c + 1),
                       was, m, c, goal, old(mapping), old(counters[kind]));
            masked, rest := masked + token, rest[k..];
          case None =>
            ScanMiss(re, TagsOf(kind), rest, c);
            ResumePlain([rest[0]], Scan(re, TagsOf(kind), rest[1..], c), was, m, c,
                        goal, old(mapping), old(counters[kind]));
            masked, rest := masked + [rest[0]], rest[1..];
        }
      }
      ScanEmpty(re, TagsOf(kind), counters[kind]);
      ResumeDone(masked, mapping, counters[kind], goal, old(mapping), old(counters[kind]));
    }

    method MaskSync(u: Unicode, tokens: seq<Morpheme>) returns (masked: string)
      requires Initial()
      modifies this
      ensures masked == MaskedText(u, tokens) && mapping == Mapping(u, tokens)
      ensures Valid() && forall kind: Kind :: counters[kind] == Count(u, tokens, kind)
    {
      hide Scan;
      hide Persons;
      hide Render;
      masked := MaskPersons(tokens);
      masked := Sub(Email(u), EMAIL, masked);
      masked := Sub(Phone(u), PHONE, masked);
    }

    /** The loop over the analyser's tokens, then `"".join(pieces)`. */
    method MaskPersons(tokens: seq<Morpheme>) returns (masked: string)
      requires Initial()
      modifies this
      ensures Valid() && masked == Render(Persons(tokens, 0))
      ensures mapping == Record(map[], Holes(Persons(tokens, 0)))
      ensures Counted(PERSON, |Holes(Persons(tokens, 0))|)
    {
      masked := "";
      hide Resumes;
      ghost var goal := Persons(tokens, 0);
      ResumeStart(goal, map[], 0);
      assert tokens[0..] == tokens;
      for i := 0 to |tokens|
        invariant Valid() && counters[EMAIL] == counters[PHONE] == 0
        invariant Resumes(Persons(tokens[i..], counters[PERSON]), masked, mapping, counters[PERSON], goal, map[], 0)
      {
        assert tokens[i..][1..] == tokens[i + 1..];
        ghost var m, was := mapping, masked;
        if IsPerson(tokens[i]) {
          var token := Placeholder(PERSON, tokens[i].surface);
          masked := masked + token;
          ResumeHole(Hole(TagsOf(PERSON)(counters[PERSON]), tokens[i].surface),
                     Persons(tokens[i + 1..], counters[PERSON]), was, m, counters[PERSON] - 1, goal, map[], 0);
        } else {
          masked := masked + tokens[i].surface;
          ResumePlain(tokens[i].surface, Persons(tokens[i + 1..], counters[PERSON]), was, m, counters[PERSON],
                      goal, map[], 0);
        }
      }
      assert tokens[|tokens|..] == [];
      ResumeDone(masked, mapping, counters[PERSON], goal, map[], 0);
    }
  }

  /** With `d` still to be written, the work done so far amounts to `goal`. */
  ghost predicate Resumes(d: Doc, masked: string, mapping: map<string, string>, count: nat,
                          goal: Doc, mapping0: map<string, string>, count0: nat)
  {
    && masked + Render(d) == Render(goal)
    && Record(mapping, Holes(d)) == Record(mapping0, Holes(goal))
    && count + |Holes(d)| == count0 + |Holes(goal)|
  }

  lemma ResumeStart(goal: Doc, mapping: map<string, string>, count: nat)
    ensures Resumes(goal, "", mapping, count, goal, mapping, count)
  {
  }

  lemma ResumeDone(masked: string, mapping: map<string, string>, count: nat,
                   goal: Doc, mapping0: map<string, string>, count0: nat)
    requires Resumes(End(""), masked, mapping, count, goal, mapping0, count0)
    ensures masked == Render(goal) && mapping == Record(mapping0, Holes(goal))
    ensures count == count0 + |Holes(goal)|
  {
  }

  lemma ResumeHole(h: Hole, d: Doc, masked: string, mapping: map<string, string>, count: nat,
                   goal: Doc, mapping0: map<string, string>, count0: nat)
    requires Resumes(Cut("", h, d), masked, mapping, count, goal, mapping0, count0)
    ensures Resumes(d, masked + Token(h.tag), mapping[Token(h.tag) := h.original], count + 1,
                    goal, mapping0, count0)
  {
    Assoc(masked, "" + Token(h.tag), Render(d), "");
    assert "" + Token(h.tag) == Token(h.tag);
  }

  lemma ResumePlain(s: string, d: Doc, masked: string, mapping: map<string, string>, count: nat,
                    goal: Doc, mapping0: map<string, string>, count0: nat)
    requires Resumes(Plain(s, d), masked, mapping, count, goal, mapping0, count0)
    ensures Resumes(d, masked + s, mapping, count, goal, mapping0, count0)
  {
    PlainViews(s, d);
    Assoc(masked, s, Render(d), "");
  }

  // ---------- the specification ----------

  /** First pass: person tokens. */
  function Persons(tokens: seq<Morpheme>, n: nat): Doc {
    if tokens == [] then End("")
    else if IsPerson(tokens[0]) then
      Cut("", Hole(TagsOf(PERSON)(n + 1), tokens[0].surface), Persons(tokens[1..], n + 1))
    else Plain(tokens[0].surface, Persons(tokens[1..], n))
  }

  function Emails(u: Unicode, tokens: seq<Morpheme>): Doc {
    Scan(Email(u), TagsOf(EMAIL), Render(Persons(tokens, 0)), 0)
  }

  function Phones(u: Unicode, tokens: seq<Morpheme>): Doc {
    Scan(Phone(u), TagsOf(PHONE), Render(Emails(u, tokens)), 0)
  }

  function MaskedText(u: Unicode, tokens: seq<Morpheme>): string { Render(Phones(u, tokens)) }

  function Pass(u: Unicode, tokens: seq<Morpheme>, kind: Kind): Doc {
    match kind
    case PERSON => Persons(tokens, 0)
    case EMAIL => Emails(u, tokens)
    case PHONE => Phones(u, tokens)
  }

  /** The final value of a counter. */
  function Count(u: Unicode, tokens: seq<Morpheme>, kind: Kind): nat { |Holes(Pass(u, tokens, kind))| }

  function Mapping(u: Unicode, tokens: seq<Morpheme>): map<string, string> {
    Record(Record(Record(map[], Holes(Persons(tokens, 0))), Holes(Emails(u, tokens))), Holes(Phones(u, tokens)))
  }

  function SourceText(tokens: seq<Morpheme>): string {
    if tokens == [] then "" else tokens[0].surface + SourceText(tokens[1..])
  }
}
