/**
  What the answering call tells the model. Only the classified text is masked: the chunks that a
  search puts into its prompt hold the raw text (app/services/ingest.py, app/services/search.py,
  app/infra/llm/anthropic_client.py).
 */
module Prompts {
  import opened Seqs
  import opened Text
  import opened Regex
  import opened Chunking
  import opened Domain
  import opened Search
  import Docs
  import Masking
  import MaskingLaws

  // ---------- match-free pieces between barriers ----------

  lemma GlueExact(re: Pattern, a: string, c: char, b: string)
    requires Avoids(re, c)
    ensures NoMatch(re, a + [c] + b) <==> NoMatch(re, a) && NoMatch(re, b)
  {
    hide NoMatch;
    var s := a + [c] + b;
    if NoMatch(re, s) {
      NoMatchSub(re, s, 0, |a|);
      NoMatchSub(re, s, |a| + 1, |s|);
      assert s[0..|a|] == a && s[|a| + 1..|s|] == b;
    }
    if NoMatch(re, a) && NoMatch(re, b) {
      NoMatchGlue(re, a, c, b);
    }
  }

  /** Fixed text that neither contains a match nor takes part in one. */
  ghost predicate Frame(re: Pattern, w: string) {
    |w| >= 2 && Avoids(re, w[0]) && Avoids(re, w[|w| - 1]) && NoMatch(re, w[1..|w| - 1])
  }

  lemma FrameExact(re: Pattern, x: string, w: string, y: string)
    requires Frame(re, w)
    ensures NoMatch(re, x + w + y) <==> NoMatch(re, x) && NoMatch(re, y)
  {
    hide NoMatch;
    var mid := w[1..|w| - 1];
    var rest := mid + [w[|w| - 1]] + y;
    assert w == [w[0]] + mid + [w[|w| - 1]];
    assert x + w + y == x + [w[0]] + rest;
    GlueExact(re, x, w[0], rest);
    GlueExact(re, mid, w[|w| - 1], y);
  }

  // ---------- chunks ----------

  /** White space cannot be part of a match. */
  ghost predicate SpacesAvoid(u: Unicode, re: Pattern) {
    && Productive(re)
    && Avoids(re, '\n')
    && forall c :: c in u.space ==> Avoids(re, c)
  }

  lemma EmptyClean(re: Pattern)
    requires Productive(re)
    ensures NoMatch(re, "")
  {
    Docs.NoMatchEmpty(re);
  }

  lemma {:induction false} LeftStripExact(u: Unicode, re: Pattern, s: string)
    requires SpacesAvoid(u, re)
    ensures NoMatch(re, LeftStrip(u, s)) <==> NoMatch(re, s)
  {
    hide NoMatch;
    if s != "" && s[0] in u.space {
      LeftStripExact(u, re, s[1..]);
      EmptyClean(re);
      GlueExact(re, "", s[0], s[1..]);
      assert s == "" + [s[0]] + s[1..];
    }
  }

  lemma {:induction false} RightStripExact(u: Unicode, re: Pattern, s: string)
    requires SpacesAvoid(u, re)
    ensures NoMatch(re, RightStrip(u, s)) <==> NoMatch(re, s)
  {
    hide NoMatch;
    if s != "" && s[|s| - 1] in u.space {
      RightStripExact(u, re, s[..|s| - 1]);
      EmptyClean(re);
      GlueExact(re, s[..|s| - 1], s[|s| - 1], "");
      assert s == s[..|s| - 1] + [s[|s| - 1]] + "";
    }
  }

  lemma StripExact(u: Unicode, re: Pattern, s: string)
    requires SpacesAvoid(u, re)
    ensures NoMatch(re, Strip(u, s)) <==> NoMatch(re, s)
  {
    hide NoMatch;
    LeftStripExact(u, re, s);
    RightStripExact(u, re, LeftStrip(u, s));
  }

  ghost predicate AllClean(re: Pattern, parts: seq<string>) {
    forall i :: 0 <= i < |parts| ==> NoMatch(re, parts[i])
  }

  lemma AllCleanHead(re: Pattern, parts: seq<string>)
    requires parts != []
    ensures AllClean(re, parts) <==> NoMatch(re, parts[0]) && AllClean(re, parts[1..])
  {
    hide NoMatch;
    if NoMatch(re, parts[0]) && AllClean(re, parts[1..]) {
      forall i | 0 <= i < |parts| ensures NoMatch(re, parts[i]) {
        assert i > 0 ==> parts[i] == parts[1..][i - 1];
      }
    }
    if AllClean(re, parts) {
      forall i | 0 <= i < |parts[1..]| ensures NoMatch(re, parts[1..][i]) {
        assert parts[1..][i] == parts[i + 1];
      }
    }
  }

  /** With `x` in front of its first piece, a split text is match-free exactly if its pieces are. */
  lemma {:induction false} SplitExact(re: Pattern, x: string, s: string)
    requires Productive(re) && Avoids(re, '\n')
    ensures NoMatch(re, x + s) <==> NoMatch(re, x + Split(s)[0]) && AllClean(re, Split(s)[1..])
    decreases |s|
  {
    hide NoMatch;
    hide AllClean;
    if |s| < 2 {
      assert Split(s)[1..] == [];
      NothingToClean(re);
    } else if s[..2] == BREAK {
      SplitExact(re, "", s[2..]);
      SplitAtBreak(re, x, s);
    } else {
      var r := Split(s[1..]);
      SplitExact(re, x + [s[0]], s[1..]);
      Assoc(x, [s[0]], s[1..], "");
      Assoc(x, [s[0]], r[0], "");
      assert s == [s[0]] + s[1..];
      assert Split(s)[0] == [s[0]] + r[0] && Split(s)[1..] == r[1..];
    }
  }

  lemma NothingToClean(re: Pattern)
    ensures AllClean(re, [])
  {
  }

  lemma SplitAtBreak(re: Pattern, x: string, s: string)
    requires Productive(re) && Avoids(re, '\n') && |s| >= 2 && s[..2] == BREAK
    requires NoMatch(re, "" + s[2..]) <==> NoMatch(re, "" + Split(s[2..])[0]) && AllClean(re, Split(s[2..])[1..])
    ensures NoMatch(re, x + s) <==> NoMatch(re, x + Split(s)[0]) && AllClean(re, Split(s)[1..])
  {
    hide NoMatch;
    var r := Split(s[2..]);
    assert BREAK[1..1] == "";
    EmptyClean(re);
    FrameExact(re, x, BREAK, s[2..]);
    assert x + s == x + BREAK + s[2..] by { assert s == s[..2] + s[2..]; }
    assert Split(s)[0] == "" && Split(s)[1..] == r;
    AllCleanHead(re, r);
    assert x + "" == x && "" + s[2..] == s[2..] && "" + r[0] == r[0];
  }

  lemma {:induction false} ParagraphsExact(u: Unicode, re: Pattern, parts: seq<string>)
    requires SpacesAvoid(u, re)
    ensures AllClean(re, Paragraphs(u, parts)) <==> AllClean(re, parts)
  {
    hide NoMatch;
    hide AllClean;
    hide Strip;
    if parts == [] {
      NothingToClean(re);
    } else {
      var first, rest := Strip(u, parts[0]), Paragraphs(u, parts[1..]);
      ParagraphsExact(u, re, parts[1..]);
      AllCleanHead(re, parts);
      StripExact(u, re, parts[0]);
      EmptyClean(re);
      if first == "" {
        assert Paragraphs(u, parts) == rest;
      } else {
        AllCleanHead(re, Paragraphs(u, parts));
        assert Paragraphs(u, parts)[0] == first && Paragraphs(u, parts)[1..] == rest;
      }
    }
  }

  /** Some chunk of a report contains a match exactly if its summary or its raw text does. */
  lemma ChunksExact(u: Unicode, re: Pattern, summary: string, raw: string)
    requires SpacesAvoid(u, re)
    ensures AllClean(re, BuildChunks(u, summary, raw)) <==> NoMatch(re, summary) && NoMatch(re, raw)
  {
    hide NoMatch;
    hide AllClean;
    hide Split;
    hide Paragraphs;
    var chunks := BuildChunks(u, summary, raw);
    var parts := Split(raw);
    var paragraphs := Paragraphs(u, parts);
    BreakIsFrame(re);
    AllCleanHead(re, chunks);
    NothingToClean(re);
    if |raw| <= LONG_TEXT_CHARS || paragraphs == [] {
      FrameExact(re, summary, BREAK, raw);
      assert chunks[1..] == [];
    } else {
      FrameExact(re, summary, BREAK, paragraphs[0]);
      SplitExact(re, "", raw);
      assert "" + raw == raw && "" + parts[0] == parts[0];
      AllCleanHead(re, parts);
      ParagraphsExact(u, re, parts);
      AllCleanHead(re, paragraphs);
      assert chunks[1..] == paragraphs[1..];
    }
  }

  lemma BreakIsFrame(re: Pattern)
    requires Productive(re) && Avoids(re, '\n')
    ensures Frame(re, BREAK)
  {
    EmptyClean(re);
    assert BREAK[1..1] == "";
  }

  // ---------- the prompt ----------

  const OPEN := "<sources>\n"
  const ID := "  <report id=\""
  const DATE := "\" date=\""
  const BODY := "\">"
  const END := "</report>\n"
  const QUESTION := "</sources>\n\n質問: "

  /** The fixed text of the prompt is inert. */
  ghost predicate Framed(re: Pattern) {
    Frame(re, OPEN) && Frame(re, ID) && Frame(re, DATE) && Frame(re, BODY) && Frame(re, END) && Frame(re, QUESTION)
  }

  function Lines(hits: seq<Hit>): string {
    if hits == [] then "" else ReportLine(hits[0]) + "\n" + Lines(hits[1..])
  }

  lemma {:induction false} JoinedLines(hits: seq<Hit>)
    ensures JoinLines(seq(|hits|, i requires 0 <= i < |hits| => ReportLine(hits[i])) + ["</sources>"])
         == Lines(hits) + "</sources>"
  {
    hide ReportLine;
    var lines := seq(|hits|, i requires 0 <= i < |hits| => ReportLine(hits[i]));
    var all := lines + ["</sources>"];
    if hits == [] {
      assert all == ["</sources>"];
    } else {
      var rest := seq(|hits| - 1, i requires 0 <= i < |hits| - 1 => ReportLine(hits[1..][i]));
      JoinedLines(hits[1..]);
      assert all[1..] == rest + ["</sources>"];
      Assoc(ReportLine(hits[0]) + "\n", Lines(hits[1..]), "</sources>", "");
    }
  }

  lemma PromptShape(query: string, hits: seq<Hit>)
    ensures AnswerPrompt(query, hits) == OPEN + (Lines(hits) + QUESTION + query)
  {
    hide Lines;
    hide ReportLine;
    var lines := seq(|hits|, i requires 0 <= i < |hits| => ReportLine(hits[i]));
    var all := ["<sources>"] + lines + ["</sources>"];
    assert all[1..] == lines + ["</sources>"];
    JoinedLines(hits);
    assert RenderSources(hits) == "<sources>" + "\n" + (Lines(hits) + "</sources>");
    assert QUESTION == "</sources>" + "\n\n質問: ";
    assert OPEN == "<sources>" + "\n";
  }

  lemma LineShape(h: Hit, rest: string)
    ensures ReportLine(h) + "\n" + rest ==
            "" + ID + (Dec(h.reportId) + DATE + (IsoDate(h.reportedAt) + BODY + (h.content + END + rest)))
  {
    hide Dec;
    hide IsoDate;
    assert END == "</report>" + "\n";
  }

  lemma LineExact(re: Pattern, h: Hit, rest: string)
    requires Framed(re) && Productive(re)
    ensures NoMatch(re, ReportLine(h) + "\n" + rest) <==>
              && NoMatch(re, Dec(h.reportId)) && NoMatch(re, IsoDate(h.reportedAt))
              && NoMatch(re, h.content) && NoMatch(re, rest)
  {
    hide NoMatch;
    hide Frame;
    hide Dec;
    hide IsoDate;
    hide ReportLine;
    var c := h.content + END + rest;
    var d := IsoDate(h.reportedAt) + BODY + c;
    LineShape(h, rest);
    EmptyClean(re);
    FrameExact(re, "", ID, Dec(h.reportId) + DATE + d);
    FrameExact(re, Dec(h.reportId), DATE, d);
    FrameExact(re, IsoDate(h.reportedAt), BODY, c);
    FrameExact(re, h.content, END, rest);
  }

  ghost predicate HitClean(re: Pattern, h: Hit) {
    NoMatch(re, Dec(h.reportId)) && NoMatch(re, IsoDate(h.reportedAt)) && NoMatch(re, h.content)
  }

  lemma HitParts(re: Pattern, h: Hit)
    ensures HitClean(re, h) <==>
              NoMatch(re, Dec(h.reportId)) && NoMatch(re, IsoDate(h.reportedAt)) && NoMatch(re, h.content)
  {
  }

  lemma {:induction false} LinesExact(re: Pattern, hits: seq<Hit>)
    requires Framed(re) && Productive(re)
    ensures NoMatch(re, Lines(hits)) <==> forall i :: 0 <= i < |hits| ==> HitClean(re, hits[i])
  {
    hide NoMatch;
    hide Framed;
    hide ReportLine;
    EmptyClean(re);
    if hits != [] {
      LineExact(re, hits[0], Lines(hits[1..]));
      LinesExact(re, hits[1..]);
      HitParts(re, hits[0]);
      hide HitClean;
      assert forall i :: 0 < i < |hits| ==> hits[i] == hits[1..][i - 1];
      assert forall i :: 0 <= i < |hits[1..]| ==> hits[1..][i] == hits[i + 1];
    }
  }

  /** The prompt is clean exactly if the question and everything taken from the hits is. */
  lemma PromptExact(re: Pattern, query: string, hits: seq<Hit>)
    requires Framed(re) && Productive(re)
    ensures NoMatch(re, AnswerPrompt(query, hits)) <==>
              NoMatch(re, query) && forall i :: 0 <= i < |hits| ==> HitClean(re, hits[i])
  {
    hide NoMatch;
    hide HitClean;
    hide Lines;
    hide AnswerPrompt;
    PromptShape(query, hits);
    LinesExact(re, hits);
    EmptyClean(re);
    FrameExact(re, "", OPEN, Lines(hits) + QUESTION + query);
    assert "" + OPEN + (Lines(hits) + QUESTION + query) == OPEN + (Lines(hits) + QUESTION + query);
    FrameExact(re, Lines(hits), QUESTION, query);
  }

  // ---------- e-mail addresses ----------

  lemma NoAtClean(u: Unicode, w: string)
    requires '@' !in w
    ensures NoMatch(Masking.Email(u), w)
  {
    hide Full;
    hide Masking.Email;
    forall i, j | 0 <= i <= j <= |w| ensures !Full(Masking.Email(u), w[i..j]) {
      if Full(Masking.Email(u), w[i..j]) {
        MaskingLaws.EmailNeedsAt(u, w[i..j]);
      }
    }
  }

  lemma EmailAvoids(u: Unicode, c: char)
    requires c !in u.word && c != '.' && c != '+' && c != '-' && c != '@'
    ensures Avoids(Masking.Email(u), c)
  {
  }

  lemma EmailFrame(u: Unicode, w: string)
    requires u.Valid() && |w| >= 2 && w[0] in {'<', '>', '"', ' ', '\n'} && w[|w| - 1] in {'<', '>', '"', ' ', '\n'}
    requires '@' !in w
    ensures Frame(Masking.Email(u), w)
  {
    hide NoMatch;
    hide Masking.Email;
    EmailAvoids(u, w[0]);
    EmailAvoids(u, w[|w| - 1]);
    NoAtClean(u, w[1..|w| - 1]);
  }

  lemma EmailFramed(u: Unicode)
    requires u.Valid()
    ensures Framed(Masking.Email(u))
  {
    hide Frame;
    EmailFrame(u, OPEN);
    EmailFrame(u, ID);
    EmailFrame(u, DATE);
    EmailFrame(u, BODY);
    EmailFrame(u, END);
    EmailFrame(u, QUESTION);
  }

  lemma EmailSpaces(u: Unicode)
    requires u.Valid() && u.SpacesApart()
    ensures SpacesAvoid(u, Masking.Email(u))
  {
    var re := Masking.Email(u);
    hide Masking.Email;
    EmailAvoids(u, '\n');
    forall c | c in u.space ensures Avoids(re, c) { EmailAvoids(u, c); }
  }

  lemma PaddedDigits(n: nat, width: nat)
    ensures forall i :: 0 <= i < |Padded(n, width)| ==> AsciiDigit(Padded(n, width)[i])
  {
  }

  lemma DateHasNoAt(t: Instant)
    ensures '@' !in IsoDate(t)
  {
    hide Padded;
    PaddedDigits(t.year, 4);
    PaddedDigits(t.month, 2);
    PaddedDigits(t.day, 2);
  }

  /** The prompt carries no address exactly if neither the question nor any hit's chunk does. */
  lemma PromptEmail(u: Unicode, query: string, hits: seq<Hit>)
    requires u.Valid()
    ensures NoMatch(Masking.Email(u), AnswerPrompt(query, hits)) <==>
              && NoMatch(Masking.Email(u), query)
              && forall i :: 0 <= i < |hits| ==> NoMatch(Masking.Email(u), hits[i].content)
  {
    hide NoMatch;
    hide Masking.Email;
    hide AnswerPrompt;
    hide HitClean;
    hide IsoDate;
    EmailFramed(u);
    hide Framed;
    PromptExact(Masking.Email(u), query, hits);
    forall i | 0 <= i < |hits|
      ensures HitClean(Masking.Email(u), hits[i]) <==> NoMatch(Masking.Email(u), hits[i].content)
    {
      HitParts(Masking.Email(u), hits[i]);
      NoAtClean(u, Dec(hits[i].reportId));
      DateHasNoAt(hits[i].reportedAt);
      NoAtClean(u, IsoDate(hits[i].reportedAt));
    }
  }

  // ---------- phone numbers ----------

  lemma PhoneStarts(u: Unicode, w: string, i: nat, j: nat)
    requires i <= j <= |w| && Full(Masking.Phone(u), w[i..j])
    ensures i + 6 <= j && w[i] == '0'
  {
    MaskingLaws.PhoneShape(u, w[i..j]);
    assert w[i] == w[i..j][0];
  }

  lemma NoZeroClean(u: Unicode, w: string)
    requires '0' !in w
    ensures NoMatch(Masking.Phone(u), w)
  {
    hide Full;
    hide Masking.Phone;
    forall i, j | 0 <= i <= j <= |w| ensures !Full(Masking.Phone(u), w[i..j]) {
      if Full(Masking.Phone(u), w[i..j]) {
        PhoneStarts(u, w, i, j);
      }
    }
  }

  lemma PhoneAvoids(u: Unicode, c: char)
    requires c !in u.digit && c != '-' && c != '0'
    ensures Avoids(Masking.Phone(u), c)
  {
  }

  lemma PhoneFrame(u: Unicode, w: string)
    requires u.Valid() && |w| >= 2 && w[0] in {'<', '>', '"', ' ', '\n'} && w[|w| - 1] in {'<', '>', '"', ' ', '\n'}
    requires '0' !in w
    ensures Frame(Masking.Phone(u), w)
  {
    hide NoMatch;
    hide Masking.Phone;
    PhoneAvoids(u, w[0]);
    PhoneAvoids(u, w[|w| - 1]);
    NoZeroClean(u, w[1..|w| - 1]);
  }

  lemma PhoneFramed(u: Unicode)
    requires u.Valid()
    ensures Framed(Masking.Phone(u))
  {
    hide Frame;
    PhoneFrame(u, OPEN);
    PhoneFrame(u, ID);
    PhoneFrame(u, DATE);
    PhoneFrame(u, BODY);
    PhoneFrame(u, END);
    PhoneFrame(u, QUESTION);
  }

  lemma PhoneSpaces(u: Unicode)
    requires u.Valid() && u.SpacesApart()
    ensures SpacesAvoid(u, Masking.Phone(u))
  {
    var re := Masking.Phone(u);
    assert '0' in u.digit;
    hide Masking.Phone;
    PhoneAvoids(u, '\n');
    forall c | c in u.space ensures Avoids(re, c) { PhoneAvoids(u, c); }
  }

  /** A match ends with the characters that its last item asks for. */
  lemma {:induction false} FullEnds(re: Pattern, t: string)
    requires re != [] && Full(re, t)
    ensures var last := re[|re| - 1];
            last.lo <= |t| && forall i :: |t| - last.lo <= i < |t| ==> t[i] in last.cls
    decreases |re|
  {
    var k: nat :| Takes(re[0], t, k) && Full(re[1..], t[k..]);
    if |re| == 1 {
      assert t[k..] == "";
    } else {
      FullEnds(re[1..], t[k..]);
      assert re[1..][|re| - 2] == re[|re| - 1];
      assert forall i :: k <= i < |t| ==> t[i] == t[k..][i - k];
    }
  }

  lemma PhoneEnds(u: Unicode, w: string, i: nat, j: nat)
    requires i + 6 <= j <= |w| && Full(Masking.Phone(u), w[i..j])
    ensures w[j - 1] in u.digit && w[j - 2] in u.digit && w[j - 3] in u.digit
  {
    FullEnds(Masking.Phone(u), w[i..j]);
    var d := w[i..j];
    assert d[|d| - 1] == w[j - 1] && d[|d| - 2] == w[j - 2] && d[|d| - 3] == w[j - 3];
  }

  /** A date has no three digits in a row behind its first four characters. */
  lemma DateHasNoPhone(u: Unicode, t: Instant)
    requires u.Valid() && t.Valid()
    ensures NoMatch(Masking.Phone(u), IsoDate(t))
  {
    var s := IsoDate(t);
    DateShape(t);
    hide IsoDate;
    hide Full;
    assert '-' !in u.digit;
    forall i, j | 0 <= i <= j <= |s| ensures !Full(Masking.Phone(u), s[i..j]) {
      if Full(Masking.Phone(u), s[i..j]) {
        PhoneStarts(u, s, i, j);
        PhoneEnds(u, s, i, j);
      }
    }
  }

  lemma DateShape(t: Instant)
    requires t.Valid()
    ensures |IsoDate(t)| == 10 && IsoDate(t)[4] == '-' && IsoDate(t)[7] == '-'
  {
    hide Dec;
    assert Pow10(4) == 10000 && Pow10(2) == 100;
    DecLength(t.year, 4);
    DecLength(t.month, 2);
    DecLength(t.day, 2);
  }

  /**
    The prompt carries no phone number exactly if neither the question nor any hit's chunk does, and
    no report id looks like one, which no id below a million does.
   */
  lemma PromptPhone(u: Unicode, query: string, hits: seq<Hit>)
    requires u.Valid() && forall i :: 0 <= i < |hits| ==> hits[i].reportedAt.Valid()
    ensures NoMatch(Masking.Phone(u), AnswerPrompt(query, hits)) <==>
              && NoMatch(Masking.Phone(u), query)
              && forall i :: 0 <= i < |hits| ==>
                   && NoMatch(Masking.Phone(u), hits[i].content)
                   && NoMatch(Masking.Phone(u), Dec(hits[i].reportId))
    ensures forall i :: 0 <= i < |hits| && 0 < hits[i].reportId < MaskingLaws.LIMIT ==>
              NoMatch(Masking.Phone(u), Dec(hits[i].reportId))
  {
    hide NoMatch;
    hide Masking.Phone;
    hide AnswerPrompt;
    hide HitClean;
    hide IsoDate;
    hide Dec;
    PhoneFramed(u);
    hide Framed;
    PromptExact(Masking.Phone(u), query, hits);
    forall i | 0 <= i < |hits|
      ensures HitClean(Masking.Phone(u), hits[i]) <==>
                NoMatch(Masking.Phone(u), hits[i].content) && NoMatch(Masking.Phone(u), Dec(hits[i].reportId))
      ensures 0 < hits[i].reportId < MaskingLaws.LIMIT ==> NoMatch(Masking.Phone(u), Dec(hits[i].reportId))
    {
      HitParts(Masking.Phone(u), hits[i]);
      DateHasNoPhone(u, hits[i].reportedAt);
      if 0 < hits[i].reportId < MaskingLaws.LIMIT {
        MaskingLaws.CounterHasNoPhone(u, hits[i].reportId);
      }
    }
  }
}
