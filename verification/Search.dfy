/**
  Search: its prompt, its events and its citation check (app/services/search.py,
  app/infra/llm/anthropic_client.py).
 */
module Search {
  import opened Wrappers
  import opened Seqs
  import opened Text
  import opened Regex
  import opened Docs
  import opened Domain

  const HEAD := "[report:"

  function Word(w: string): Pattern { seq(|w|, i requires 0 <= i < |w| => Once({w[i]})) }

  /** `\[report:(\d+)\]` */
  function Citation(u: Unicode): (re: Pattern)
    ensures Productive(re)
  {
    Word(HEAD) + ([Plus(u.digit.Keys)] + [Once({']'})])
  }

  predicate Digits(u: Unicode, ds: string) {
    forall i :: 0 <= i < |ds| ==> ds[i] in u.digit
  }

  /** `int(ds)` */
  function DigitsValue(u: Unicode, ds: string): nat
    requires Digits(u, ds)
  {
    if ds == "" then 0 else 10 * DigitsValue(u, ds[..|ds| - 1]) + u.digit[ds[|ds| - 1]]
  }

  /** What stands between `[report:` and the last character. */
  function Inner(t: string): string
    requires |t| >= |HEAD| + 2
  {
    t[|HEAD|..|t| - 1]
  }

  /** `t` is `[report:`, at least one digit, and `]`. */
  predicate IsCitation(u: Unicode, t: string) {
    |t| >= |HEAD| + 2 && HEAD <= t && t[|t| - 1] == ']' && Digits(u, Inner(t))
  }

  /** `int(m.group(1))` of a matched text. */
  function Group(u: Unicode, t: string): nat {
    if IsCitation(u, t) then DigitsValue(u, Inner(t)) else 0
  }

  predicate Cites(u: Unicode, t: string, n: nat) {
    IsCitation(u, t) && Group(u, t) == n
  }

  // ---------- the number a citation names ----------

  lemma DigitsStep(u: Unicode, ds: string, c: char)
    requires Digits(u, ds) && c in u.digit
    ensures Digits(u, ds + [c]) && DigitsValue(u, ds + [c]) == 10 * DigitsValue(u, ds) + u.digit[c]
  {
    assert (ds + [c])[..|ds|] == ds;
  }

  lemma PowerStep(x: nat, d: nat)
    ensures x * Pow10(d + 1) == 10 * (x * Pow10(d))
  {
  }

  /** Digits in front count for their power of ten; zeros in front for nothing. */
  lemma {:induction false} DigitsConcat(u: Unicode, a: string, b: string)
    requires Digits(u, a) && Digits(u, b)
    ensures Digits(u, a + b)
    ensures DigitsValue(u, a + b) == DigitsValue(u, a) * Pow10(|b|) + DigitsValue(u, b)
    decreases |b|
  {
    if b == "" {
      assert a + b == a;
    } else {
      var init, c := b[..|b| - 1], b[|b| - 1];
      assert b == init + [c];
      assert a + b == (a + init) + [c];
      DigitsConcat(u, a, init);
      hide DigitsValue;
      DigitsStep(u, a + init, c);
      DigitsStep(u, init, c);
      PowerStep(DigitsValue(u, a), |init|);
    }
  }

  /** A decimal numeral is read as the number it was written for. */
  lemma {:induction false} ValueOfDec(u: Unicode, n: nat)
    requires u.Valid()
    ensures Digits(u, Dec(n)) && DigitsValue(u, Dec(n)) == n
  {
    if n < 10 {
      DigitsStep(u, "", DIGITS[n]);
      assert "" + [DIGITS[n]] == [DIGITS[n]];
    } else {
      ValueOfDec(u, n / 10);
      DigitsStep(u, Dec(n / 10), DIGITS[n % 10]);
    }
  }

  /** The citation of a report, as the model is told to write it. */
  function CitationOf(n: nat): string { HEAD + Dec(n) + "]" }

  lemma CitationNames(u: Unicode, n: nat)
    requires u.Valid()
    ensures Cites(u, CitationOf(n), n)
  {
    hide DigitsValue;
    ValueOfDec(u, n);
    hide Dec;
    var t := CitationOf(n);
    assert Inner(t) == Dec(n);
  }

  // ---------- the pattern ----------

  lemma {:induction false} FullWord(w: string, rest: Pattern, t: string)
    ensures Full(Word(w) + rest, t) <==> w <= t && Full(rest, t[|w|..])
  {
    hide Full;
    if w == "" {
      assert Word(w) + rest == rest && t[0..] == t;
    } else {
      assert Word(w) + rest == [Once({w[0]})] + (Word(w[1..]) + rest);
      FullOnce({w[0]}, Word(w[1..]) + rest, t);
      if t != "" {
        FullWord(w[1..], rest, t[1..]);
        assert t == [t[0]] + t[1..] && w == [w[0]] + w[1..];
        if w <= t {
          assert t[1..][|w| - 1..] == t[|w|..];
        }
      }
    }
  }

  predicate IsTail(u: Unicode, t: string) {
    |t| >= 2 && Digits(u, t[..|t| - 1]) && t[|t| - 1] == ']'
  }

  lemma TailShape(cls: set<char>, t: string)
    requires ']' !in cls && Full([Plus(cls), Once({']'})], t)
    ensures |t| >= 2 && t[|t| - 1] == ']' && forall i :: 0 <= i < |t| - 1 ==> t[i] in cls
  {
    var re := [Plus(cls), Once({']'})];
    var k: nat :| Takes(re[0], t, k) && Full(re[1..], t[k..]);
    var last := re[1..];
    assert last[0] == Once({']'}) && last[1..] == [];
    var j: nat :| Takes(last[0], t[k..], j) && Full(last[1..], t[k..][j..]);
    assert j == 1 && |t| == k + 1 && t[k] == t[k..][0];
  }

  lemma TailMatches(cls: set<char>, t: string)
    requires |t| >= 2 && t[|t| - 1] == ']' && forall i :: 0 <= i < |t| - 1 ==> t[i] in cls
    ensures Full([Plus(cls), Once({']'})], t)
  {
    hide Run;
    var re := [Plus(cls), Once({']'})];
    var k := |t| - 1;
    assert re[1..] == [Once({']'})] && re[1..][1..] == [];
    AllInRun(cls, t, k);
    AllInRun({']'}, t[k..], 1);
    assert t[k..][1..] == "";
    FullCons(re[1..], t[k..], 1);
    FullCons(re, t, k);
  }

  lemma FullTail(u: Unicode, t: string)
    requires u.Valid()
    ensures Full([Plus(u.digit.Keys)] + [Once({']'})], t) <==> IsTail(u, t)
  {
    hide Full;
    var cls := u.digit.Keys;
    assert ']' !in cls;
    assert [Plus(cls)] + [Once({']'})] == [Plus(cls), Once({']'})];
    if IsTail(u, t) {
      assert forall i :: 0 <= i < |t| - 1 ==> t[i] == t[..|t| - 1][i];
      TailMatches(cls, t);
    }
    if Full([Plus(cls), Once({']'})], t) {
      TailShape(cls, t);
    }
  }

  lemma CitationSuffix(u: Unicode, t: string)
    requires HEAD <= t
    ensures IsCitation(u, t) <==>
            IsTail(u, t[|HEAD|..])
  {
    hide Digits;
    var rest := t[|HEAD|..];
    if |rest| >= 2 {
      assert rest[..|rest| - 1] == Inner(t);
    }
  }

  /** The pattern matches exactly the citations. */
  lemma CitationShape(u: Unicode, t: string)
    requires u.Valid()
    ensures Full(Citation(u), t) <==> IsCitation(u, t)
  {
    hide Full;
    hide Word;
    FullWord(HEAD, [Plus(u.digit.Keys)] + [Once({']'})], t);
    if HEAD <= t {
      FullTail(u, t[|HEAD|..]);
      CitationSuffix(u, t);
    }
  }

  /** A match starts with its only `[` and ends with its only `]`. */
  ghost predicate Bracketed(t: string) {
    && t != "" && t[0] == '[' && t[|t| - 1] == ']'
    && (forall i :: 0 < i < |t| ==> t[i] != '[')
    && (forall i :: 0 <= i < |t| - 1 ==> t[i] != ']')
  }

  lemma MatchBrackets(u: Unicode, t: string)
    requires u.Valid() && Full(Citation(u), t)
    ensures Bracketed(t)
  {
    hide Full;
    hide Citation;
    CitationShape(u, t);
    assert '[' !in u.digit && ']' !in u.digit;
    forall i | 0 < i < |t| ensures t[i] != '[' {
      if i < |HEAD| {
        assert t[i] == HEAD[i];
      } else if i < |t| - 1 {
        assert t[i] == Inner(t)[i - |HEAD|];
      }
    }
    forall i | 0 <= i < |t| - 1 ensures t[i] != ']' {
      if i < |HEAD| {
        assert t[i] == HEAD[i];
      } else {
        assert t[i] == Inner(t)[i - |HEAD|];
      }
    }
  }

  // ---------- scanning finds every occurrence ----------

  const NO_TAGS: Tags := (n: nat) => ""

  /** `_CITATION_RE.findall(text)`, as the matched texts. */
  function Found(u: Unicode, text: string): seq<Hole> {
    Holes(Scan(Citation(u), NO_TAGS, text, 0))
  }

  /** `_parse_citations` */
  function ParseCitations(u: Unicode, text: string): set<nat> {
    set h | h in Found(u, text) :: Group(u, h.original)
  }

  ghost predicate HoleFor(d: Doc, t: string) {
    exists h :: h in Holes(d) && h.original == t
  }

  lemma HoleHere(h: Hole, rest: Doc)
    ensures HoleFor(Cut("", h, rest), h.original)
    ensures forall t :: HoleFor(rest, t) ==> HoleFor(Cut("", h, rest), t)
  {
    var d := Cut("", h, rest);
    assert h in Holes(d);
    forall t | HoleFor(rest, t) ensures HoleFor(d, t) {
      var g :| g in Holes(rest) && g.original == t;
      assert g in Holes(d);
    }
  }

  /** Two citations starting at the same place are the same. */
  lemma SameEnd(text: string, k: nat, j: nat)
    requires k <= |text| && j <= |text| && Bracketed(text[..k]) && Bracketed(text[..j])
    ensures k == j
  {
    var a, b := text[..k], text[..j];
    assert a[k - 1] == text[k - 1] == ']' && b[j - 1] == text[j - 1] == ']';
    assert forall i :: 0 <= i < k - 1 ==> text[i] == a[i] != ']';
    assert forall i :: 0 <= i < j - 1 ==> text[i] == b[i] != ']';
  }

  /** A citation further on starts behind the one that starts here. */
  lemma NotInside(text: string, k: nat, i: nat, j: nat)
    requires k <= |text| && Bracketed(text[..k]) && 0 < i <= j <= |text| && Bracketed(text[i..j])
    ensures k <= i && text[k..][i - k..j - k] == text[i..j]
  {
    var a := text[..k];
    assert text[i..j][0] == text[i] == '[';
    assert forall p :: 0 < p < k ==> text[p] == a[p] != '[';
  }

  lemma {:induction false} ScanFindsAll(u: Unicode, text: string, n: nat, i: nat, j: nat)
    requires u.Valid() && i <= j <= |text| && Full(Citation(u), text[i..j])
    ensures HoleFor(Scan(Citation(u), NO_TAGS, text, n), text[i..j])
    decreases |text|
  {
    hide Citation;
    hide Scan;
    hide Match;
    hide Full;
    hide Holes;
    hide HoleFor;
    hide Bracketed;
    var re := Citation(u);
    MatchBrackets(u, text[i..j]);
    BracketedNonEmpty(text[i..j]);
    if i == 0 {
      assert text[0..j] == text[..j];
      MatchComplete(re, text, j);
    }
    match Match(re, text)
    case Some(k) =>
      ScanHit(re, NO_TAGS, text, n, k);
      MatchSound(re, text);
      MatchBrackets(u, text[..k]);
      HoleHere(Hole(NO_TAGS(n + 1), text[..k]), Scan(re, NO_TAGS, text[k..], n + 1));
      if i == 0 {
        SameEnd(text, k, j);
      } else {
        NotInside(text, k, i, j);
        ScanFindsAll(u, text[k..], n + 1, i - k, j - k);
      }
    case None =>
      ScanMiss(re, NO_TAGS, text, n);
      SliceRight([text[0]], text[1..], i, j);
      assert [text[0]] + text[1..] == text;
      ScanFindsAll(u, text[1..], n, i - 1, j - 1);
      PlainKeeps([text[0]], Scan(re, NO_TAGS, text[1..], n));
  }

  lemma BracketedNonEmpty(t: string)
    requires Bracketed(t)
    ensures t != ""
  {
  }

  lemma PlainKeeps(s: string, d: Doc)
    ensures forall t :: HoleFor(Plain(s, d), t) <==> HoleFor(d, t)
  {
    PlainViews(s, d);
  }

  ghost predicate OccursFull(re: Pattern, text: string, t: string) {
    exists i, j :: 0 <= i <= j <= |text| && t == text[i..j] && Full(re, t)
  }

  lemma OccursBehind(re: Pattern, text: string, k: nat, t: string)
    requires k <= |text| && OccursFull(re, text[k..], t)
    ensures OccursFull(re, text, t)
  {
    hide Full;
    var i, j :| 0 <= i <= j <= |text[k..]| && t == text[k..][i..j] && Full(re, t);
    SliceSlice(text, k, |text|, i, j);
    assert text[k..|text|] == text[k..];
    assert t == text[k + i..k + j];
  }

  /** What a scan cuts out occurs in the text. */
  lemma {:induction false} ScanFindsOnly(re: Pattern, text: string, n: nat, h: Hole)
    requires Productive(re) && h in Holes(Scan(re, NO_TAGS, text, n))
    ensures OccursFull(re, text, h.original)
    decreases |text|
  {
    hide Scan;
    hide Match;
    hide Full;
    hide OccursFull;
    if text == "" {
      ScanEmpty(re, NO_TAGS, n);
    } else {
      match Match(re, text)
      case Some(k) =>
        ScanHit(re, NO_TAGS, text, n, k);
        if h == Hole(NO_TAGS(n + 1), text[..k]) {
          MatchSound(re, text);
          OccursHere(re, text, k);
        } else {
          ScanFindsOnly(re, text[k..], n + 1, h);
          OccursBehind(re, text, k, h.original);
        }
      case None =>
        ScanMiss(re, NO_TAGS, text, n);
        PlainViews([text[0]], Scan(re, NO_TAGS, text[1..], n));
        ScanFindsOnly(re, text[1..], n, h);
        OccursBehind(re, text, 1, h.original);
    }
  }

  lemma OccursHere(re: Pattern, text: string, k: nat)
    requires k <= |text| && Full(re, text[..k])
    ensures OccursFull(re, text, text[..k])
  {
    hide Full;
    assert text[0..k] == text[..k];
  }

  ghost predicate CitedSomewhere(u: Unicode, text: string, n: nat) {
    exists i, j :: 0 <= i <= j <= |text| && Cites(u, text[i..j], n)
  }

  /** The ids parsed are exactly those some `[report:n]` anywhere in the text names. */
  lemma CitationsExact(u: Unicode, text: string, n: nat)
    requires u.Valid()
    ensures n in ParseCitations(u, text) <==> CitedSomewhere(u, text, n)
  {
    hide Scan;
    hide Citation;
    hide Full;
    hide IsCitation;
    if n in ParseCitations(u, text) {
      var h :| h in Found(u, text) && Group(u, h.original) == n;
      ScanFindsOnly(Citation(u), text, 0, h);
      CitationShape(u, h.original);
    }
    if CitedSomewhere(u, text, n) {
      var i, j :| 0 <= i <= j <= |text| && Cites(u, text[i..j], n);
      CitationShape(u, text[i..j]);
      ScanFindsAll(u, text, 0, i, j);
    }
  }

  // ---------- what is found, and what the model is asked ----------

  /** One chunk that the similarity search returns, with its report. */
  datatype Hit = Hit(reportId: nat, property: nat, content: string, summary: string, reportedAt: Instant)

  datatype Filters =
    Filters(property: Option<nat>, category: Option<Category>, since: Option<Instant>, until: Option<Instant>)

  /** The conditions of `hybrid_search` on a report. */
  predicate Eligible(facts: Facts, permitted: set<nat>, f: Filters, id: nat) {
    && id in facts.reports && id in facts.analyses && id in facts.chunks
    && facts.reports[id].property in permitted
    && (f.property.Some? ==> facts.reports[id].property == f.property.value)
    && (f.category.Some? ==> facts.analyses[id].labels.category == f.category.value)
    && (f.since.Some? ==> NotAfter(f.since.value, facts.reports[id].reportedAt))
    && (f.until.Some? ==> NotAfter(facts.reports[id].reportedAt, f.until.value))
  }

  predicate IsHit(facts: Facts, permitted: set<nat>, f: Filters, h: Hit) {
    && Eligible(facts, permitted, f, h.reportId)
    && h.content in facts.chunks[h.reportId]
    && h.property == facts.reports[h.reportId].property
    && h.summary == facts.analyses[h.reportId].summary
    && h.reportedAt == facts.reports[h.reportId].reportedAt
  }

  const SEARCH_TOP_K: nat := 8

  /** What the similarity search may return; which chunks, and in which order, is up to the vectors. */
  predicate AreHits(facts: Facts, permitted: set<nat>, f: Filters, hits: seq<Hit>) {
    |hits| <= SEARCH_TOP_K && forall h :: h in hits ==> IsHit(facts, permitted, f, h)
  }

  function Padded(n: nat, width: nat): string {
    var s := Dec(n);
    if |s| >= width then s else seq(width - |s|, _ => '0') + s
  }

  /** `reported_at.date().isoformat()` */
  function IsoDate(t: Instant): string {
    Padded(t.year, 4) + "-" + Padded(t.month, 2) + "-" + Padded(t.day, 2)
  }

  function ReportLine(h: Hit): string {
    "  <report id=\"" + Dec(h.reportId) + "\" date=\"" + IsoDate(h.reportedAt) + "\">" + h.content + "</report>"
  }

  /** `"\n".join(lines)` */
  function JoinLines(lines: seq<string>): string {
    if lines == [] then "" else if |lines| == 1 then lines[0] else lines[0] + "\n" + JoinLines(lines[1..])
  }

  function RenderSources(hits: seq<Hit>): string {
    JoinLines(["<sources>"] + seq(|hits|, i requires 0 <= i < |hits| => ReportLine(hits[i])) + ["</sources>"])
  }

  /** The user message of the answering call: every hit's chunk in full, then the question. */
  function AnswerPrompt(query: string, hits: seq<Hit>): string {
    RenderSources(hits) + "\n\n質問: " + query
  }

  // ---------- the event stream ----------

  datatype Source = Source(id: nat, reportedOn: string, summary: string)

  function SourceOf(h: Hit): Source { Source(h.reportId, IsoDate(h.reportedAt), h.summary) }

  function SourcesOf(hits: seq<Hit>): seq<Source> {
    seq(|hits|, i requires 0 <= i < |hits| => SourceOf(hits[i]))
  }

  datatype Event =
    | Sources(reports: seq<Source>)
    | TokenEvent(text: string)
    | Done(citations: seq<nat>)
    | NoResults

  predicate Ascending(s: seq<nat>) {
    forall i, j :: 0 <= i < j < |s| ==> s[i] < s[j]
  }

  /** Ids of `wanted` reports that exist, with their property, and are permitted. */
  function ExistingReportIds(reports: map<nat, nat>, wanted: set<nat>, permitted: set<nat>): set<nat> {
    if wanted == {} || permitted == {} then {}
    else set id | id in wanted && id in reports && reports[id] in permitted
  }

  lemma SplitMembers(s: seq<nat>, k: nat, x: nat)
    requires k <= |s|
    ensures forall y :: y in s[..k] + [x] + s[k..] <==> y == x || y in s
  {
    assert s == s[..k] + s[k..];
    forall y ensures y in s[..k] + [x] + s[k..] <==> y == x || y in s {
      assert y in s <==> y in s[..k] || y in s[k..];
    }
  }

  method Insert(x: nat, s: seq<nat>) returns (r: seq<nat>)
    requires Ascending(s) && x !in s
    ensures Ascending(r) && forall y :: y in r <==> y == x || y in s
  {
    var k := 0;
    while k < |s| && s[k] < x
      invariant k <= |s| && forall i :: 0 <= i < k ==> s[i] < x
    {
      k := k + 1;
    }
    SplitMembers(s, k, x);
    r := s[..k] + [x] + s[k..];
  }

  /** `sorted(ids)` */
  method Sorted(ids: set<nat>) returns (r: seq<nat>)
    ensures Ascending(r) && forall y :: y in r <==> y in ids
  {
    r := [];
    var left := ids;
    while left != {}
      invariant left <= ids && Ascending(r) && forall y :: y in r <==> y in ids - left
      decreases left
    {
      var x :| x in left;
      r := Insert(x, r);
      left := left - {x};
    }
  }

  /** The sources, then every token in order. */
  predicate Streamed(events: seq<Event>, hits: seq<Hit>, stream: seq<string>) {
    && |events| == |stream| + 1 && events[0] == Sources(SourcesOf(hits))
    && forall i :: 0 <= i < |stream| ==> events[i + 1] == TokenEvent(stream[i])
  }

  /** The event list of a stream that was answered in full. */
  ghost predicate Answered(u: Unicode, events: seq<Event>, hits: seq<Hit>, stream: seq<string>,
                           reports: map<nat, nat>, permitted: set<nat>)
  {
    && |events| == |stream| + 2
    && Streamed(events[..|events| - 1], hits, stream)
    && events[|events| - 1].Done?
    && var citations := events[|events| - 1].citations;
    && Ascending(citations)
    && forall n: nat :: n in citations <==>
         CitedSomewhere(u, Concat(stream), n) && n in reports && reports[n] in permitted
  }

  /** The check of citations asks the database only if there is something to ask about. */
  predicate Asks(u: Unicode, stream: seq<string>, permitted: set<nat>) {
    ParseCitations(u, Concat(stream)) != {} && permitted != {}
  }

  /**
    `SearchService.search` for one query: what the similarity search finds, or its failure; the
    model's tokens, and whether the stream breaks behind them; the reports that exist at the end, or
    the failure to look them up; and the caller's permitted properties. Whatever fails, the events
    so far have been sent.
   */
  method Search(u: Unicode, query: string, found: Result<seq<Hit>, Error>, stream: seq<string>, breaks: bool,
                reports: Result<map<nat, nat>, Error>, permitted: set<nat>)
    returns (events: seq<Event>, prompts: seq<string>, failure: Option<Error>)
    requires u.Valid()
    ensures found.Err? ==> events == [] && prompts == [] && failure == Some(found.error)
    ensures found == Ok([]) ==> events == [NoResults] && prompts == [] && failure == None
    ensures found.Ok? && found.value != [] ==>
              && prompts == [AnswerPrompt(query, found.value)]
              && if breaks || (reports.Err? && Asks(u, stream, permitted)) then
                   failure.Some? && Streamed(events, found.value, stream)
                 else
                   && failure == None
                   && Answered(u, events, found.value, stream, if reports.Ok? then reports.value else map[], permitted)
  {
    hide ParseCitations;
    hide RenderSources;
    if found.Err? {
      return [], [], Some(found.error);
    }
    var hits := found.value;
    if hits == [] {
      return [NoResults], [], None;
    }
    events := [Sources(SourcesOf(hits))];
    prompts := [AnswerPrompt(query, hits)];
    var parts: seq<string> := [];
    for i := 0 to |stream|
      invariant parts == stream[..i] && Streamed(events, hits, parts)
    {
      parts := parts + [stream[i]];
      events := events + [TokenEvent(stream[i])];
    }
    assert parts == stream;
    if breaks {
      return events, prompts, Some(Unavailable);
    }
    var cited := ParseCitations(u, Concat(parts));
    if cited != {} && permitted != {} && reports.Err? {
      return events, prompts, Some(reports.error);
    }
    var existing := if reports.Ok? then reports.value else map[];
    var citations := Sorted(ExistingReportIds(existing, cited, permitted));
    forall n: nat ensures n in cited <==> CitedSomewhere(u, Concat(stream), n) {
      CitationsExact(u, Concat(stream), n);
    }
    hide CitedSomewhere;
    ghost var before := events;
    events := events + [Done(citations)];
    assert events[..|events| - 1] == before;
    return events, prompts, None;
  }

  // ---------- what a reader of the events sees ----------

  /** If the answer cites an existing, permitted report anywhere, the last event names it. */
  lemma CitedIsListed(u: Unicode, events: seq<Event>, hits: seq<Hit>, stream: seq<string>, reports: map<nat, nat>,
                      permitted: set<nat>, n: nat, i: nat)
    requires u.Valid() && Answered(u, events, hits, stream, reports, permitted)
    requires i + |CitationOf(n)| <= |Concat(stream)| && Concat(stream)[i..i + |CitationOf(n)|] == CitationOf(n)
    requires n in reports && reports[n] in permitted
    ensures n in events[|events| - 1].citations
  {
    hide Cites;
    hide CitationOf;
    CitationNames(u, n);
  }

  lemma {:induction false} DecWidth(n: nat, d: nat)
    requires 0 < d && n < Pow10(d)
    ensures |Padded(n, d)| == d
  {
    DecLength(n, d);
  }

  lemma {:induction false} ZerosAddNothing(k: nat, s: string)
    requires forall i :: 0 <= i < |s| ==> AsciiDigit(s[i])
    ensures DecValue(seq(k, _ => '0') + s) == DecValue(s)
    decreases |s| + k
  {
    var z := seq(k, _ => '0');
    if s == "" {
      assert z + s == z;
      if k > 0 {
        assert z[..k - 1] == seq(k - 1, _ => '0');
        ZerosAddNothing(k - 1, s);
        assert seq(k - 1, _ => '0') + s == seq(k - 1, _ => '0');
      }
    } else {
      ZerosAddNothing(k, s[..|s| - 1]);
      assert (z + s)[..|z + s| - 1] == z + s[..|s| - 1];
    }
  }

  lemma PaddedValue(n: nat, width: nat)
    ensures forall i :: 0 <= i < |Padded(n, width)| ==> AsciiDigit(Padded(n, width)[i])
    ensures DecValue(Padded(n, width)) == n
  {
    DecRoundTrip(n);
    if |Dec(n)| < width {
      ZerosAddNothing(width - |Dec(n)|, Dec(n));
    }
  }

  /** Ten characters: the year, the month and the day, in this order, between hyphens. */
  predicate ReadsAs(date: string, t: Instant) {
    && |date| == 10 && date[4] == date[7] == '-'
    && (forall i :: 0 <= i < 10 && i != 4 && i != 7 ==> AsciiDigit(date[i]))
    && DecValue(date[..4]) == t.year && DecValue(date[5..7]) == t.month && DecValue(date[8..]) == t.day
  }

  /** The date of a source can be read back. */
  lemma DateReads(t: Instant)
    requires t.Valid()
    ensures ReadsAs(IsoDate(t), t)
  {
    var y, m, d := Padded(t.year, 4), Padded(t.month, 2), Padded(t.day, 2);
    assert Pow10(2) == 100 && Pow10(4) == 10000;
    DecWidth(t.year, 4);
    DecWidth(t.month, 2);
    DecWidth(t.day, 2);
    PaddedValue(t.year, 4);
    PaddedValue(t.month, 2);
    PaddedValue(t.day, 2);
    DatePieces(y, m, d);
    hide Padded;
    hide DecValue;
    var date := IsoDate(t);
    forall i | 0 <= i < 10 && i != 4 && i != 7 ensures AsciiDigit(date[i]) {
      assert date[i] == if i < 4 then y[i] else if i < 7 then m[i - 5] else d[i - 8];
    }
  }

  lemma DatePieces(y: string, m: string, d: string)
    requires |y| == 4 && |m| == |d| == 2
    ensures var date := y + "-" + m + "-" + d;
            && |date| == 10 && date[4] == date[7] == '-'
            && date[..4] == y && date[5..7] == m && date[8..] == d
  {
  }

  /** Every source shows the id, the date and the summary of a permitted stored report. */
  lemma SourcesAreStored(facts: Facts, permitted: set<nat>, f: Filters, hits: seq<Hit>, i: nat)
    requires AreHits(facts, permitted, f, hits) && i < |hits|
    requires forall id :: id in facts.reports ==> facts.reports[id].reportedAt.Valid()
    ensures |SourcesOf(hits)| == |hits|
    ensures var source := SourcesOf(hits)[i];
            && source.id == hits[i].reportId && source.id in facts.reports && source.id in facts.analyses
            && facts.reports[source.id].property in permitted
            && source.summary == facts.analyses[source.id].summary
            && ReadsAs(source.reportedOn, facts.reports[source.id].reportedAt)
  {
    hide IsoDate;
    hide ReadsAs;
    assert hits[i] in hits;
    DateReads(facts.reports[hits[i].reportId].reportedAt);
  }

  /** Each filter picks the reports that its field names, and the others stay as they are. */
  lemma FiltersPick(facts: Facts, permitted: set<nat>, f: Filters, id: nat, p: nat, c: Category, t: Instant)
    requires id in facts.reports ==> facts.reports[id].reportedAt.Valid()
    requires t.Valid()
    ensures f.property == None ==>
              (Eligible(facts, permitted, f.(property := Some(p)), id) <==>
                 Eligible(facts, permitted, f, id) && facts.reports[id].property == p)
    ensures f.category == None ==>
              (Eligible(facts, permitted, f.(category := Some(c)), id) <==>
                 Eligible(facts, permitted, f, id) && facts.analyses[id].labels.category == c)
    ensures f.since == None ==>
              (Eligible(facts, permitted, f.(since := Some(t)), id) <==>
                 Eligible(facts, permitted, f, id) && Clock(t) <= Clock(facts.reports[id].reportedAt))
    ensures f.until == None ==>
              (Eligible(facts, permitted, f.(until := Some(t)), id) <==>
                 Eligible(facts, permitted, f, id) && Clock(facts.reports[id].reportedAt) <= Clock(t))
    ensures Eligible(facts, permitted, Filters(None, None, None, None), id) <==>
              && id in facts.reports && id in facts.analyses && id in facts.chunks
              && facts.reports[id].property in permitted
  {
    hide Clock;
    hide NotAfter;
    if id in facts.reports {
      NotAfterIsClock(t, facts.reports[id].reportedAt);
      NotAfterIsClock(facts.reports[id].reportedAt, t);
    }
  }
}
